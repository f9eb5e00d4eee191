/**
 * What each structural edit of the handle list does to the list of anchors
 * (every third handle): appending a segment appends its end anchor, closing
 * or opening a loop keeps the anchors, splitting inserts one anchor, and
 * deleting removes exactly one.
 */
module HandleEdits {
  import opened Vectors
  import opened Sampling
  import opened Smoothing

  /** The reflection of b through a: the point as far beyond a as b is before it. */
  function Reflect(a: Vec3, b: Vec3): Vec3 {
    Sub(Scale(a, 2.0), b)
  }

  /**
   * The three handles appended to an open path for a new end anchor: the
   * reflection of the last tangent through the last anchor, the midpoint of
   * that handle and the new anchor, and the new anchor itself.
   */
  function Extension(h: seq<Vec3>, anchorPos: Vec3): (e: seq<Vec3>)
    requires |h| >= 2
    ensures |e| == 3 && e[2] == anchorPos
  {
    var out := Reflect(h[|h| - 1], h[|h| - 2]);
    [out, Scale(Add(out, anchorPos), 0.5), anchorPos]
  }

  /**
   * The two tangents that close an open path into a loop: the reflection of
   * the last tangent through the last anchor, and of the first tangent
   * through the first anchor.
   */
  function Closure(h: seq<Vec3>): (e: seq<Vec3>)
    requires |h| >= 2
    ensures |e| == 2
  {
    [Reflect(h[|h| - 1], h[|h| - 2]), Reflect(h[0], h[1])]
  }

  /** Appending a segment's three handles to an open path appends its end anchor. */
  lemma AnchorsAfterAppend(h: seq<Vec3>, e: seq<Vec3>)
    requires |h| % 3 == 1 && |e| == 3
    ensures Anchors(h + e) == Anchors(h) + [e[2]]
  {
    assert forall k :: 0 <= k < |Anchors(h)| ==> 3 * k < |h|;
  }

  /** Adding the two closing tangents of a loop keeps the anchors. */
  lemma AnchorsAfterClose(h: seq<Vec3>, e: seq<Vec3>)
    requires |h| % 3 == 1 && |e| == 2
    ensures Anchors(h + e) == Anchors(h)
  {
    assert forall k :: 0 <= k < |Anchors(h)| ==> 3 * k < |h|;
  }

  /** Dropping the two closing tangents of a loop keeps the anchors. */
  lemma AnchorsAfterOpen(h: seq<Vec3>)
    requires |h| % 3 == 0 && |h| >= 3
    ensures Anchors(h[..|h| - 2]) == Anchors(h)
  {
  }

  /** Inserting [tangent, anchor, tangent] after tangent 3s + 1 inserts the anchor at position s + 1. */
  lemma AnchorsAfterInsert(h: seq<Vec3>, s: int, t: seq<Vec3>)
    requires 0 <= s && 3 * s + 2 <= |h| && |t| == 3
    ensures Anchors(h[..3 * s + 2] + t + h[3 * s + 2..]) ==
      Anchors(h)[..s + 1] + [t[1]] + Anchors(h)[s + 1..]
  {
    var h2 := h[..3 * s + 2] + t + h[3 * s + 2..];
    var A, A2 := Anchors(h), Anchors(h2);
    var R := A[..s + 1] + [t[1]] + A[s + 1..];
    assert |A2| == |R|;
    forall k | 0 <= k < |A2| ensures A2[k] == R[k] {
      if k <= s {
        assert A2[k] == h[3 * k];
      } else if k == s + 1 {
        assert A2[k] == t[1];
      } else {
        assert A2[k] == h[3 * k - 3] == A[k - 1];
      }
    }
  }

  /** Removing the first segment's three handles removes the first anchor. */
  lemma AnchorsAfterRemoveFirst(h: seq<Vec3>)
    requires |h| >= 3
    ensures Anchors(h[3..]) == Anchors(h)[1..]
  {
  }

  /** Removing the last segment of an open path removes the last anchor. */
  lemma AnchorsAfterRemoveLast(h: seq<Vec3>)
    requires |h| % 3 == 1 && |h| >= 4
    ensures Anchors(h[..|h| - 3]) == Anchors(h)[..|Anchors(h)| - 1]
  {
  }

  /** Removing an interior anchor together with its two tangents removes that anchor. */
  lemma AnchorsAfterRemoveInterior(h: seq<Vec3>, a: int)
    requires a % 3 == 0 && 3 <= a && a + 2 < |h|
    ensures Anchors(h[..a - 1] + h[a + 2..]) == Anchors(h)[..a / 3] + Anchors(h)[a / 3 + 1..]
  {
    var h2 := h[..a - 1] + h[a + 2..];
    var A, A2 := Anchors(h), Anchors(h2);
    var R := A[..a / 3] + A[a / 3 + 1..];
    assert |A2| == |R|;
    forall k | 0 <= k < |A2| ensures A2[k] == R[k] {
      if k < a / 3 {
        assert A2[k] == h[3 * k];
      } else {
        assert A2[k] == h[3 * k + 3] == A[k + 1];
      }
    }
  }

  /** The handles after inserting anchor anchorPos, with zero tangents, in the middle of segment s. */
  function Split(h: seq<Vec3>, s: int, anchorPos: Vec3): (r: seq<Vec3>)
    requires 0 <= s && 3 * s + 2 <= |h|
    ensures |r| == |h| + 3 && r[s * 3 + 3] == anchorPos
  {
    h[..3 * s + 2] + [Zero, anchorPos, Zero] + h[3 * s + 2..]
  }

  /** Splitting segment s inserts its new anchor into the anchor list at position s + 1. */
  lemma AnchorsAfterSplit(h: seq<Vec3>, s: int, anchorPos: Vec3)
    requires 0 <= s && 3 * s + 2 <= |h|
    ensures Anchors(Split(h, s, anchorPos)) == Anchors(h)[..s + 1] + [anchorPos] + Anchors(h)[s + 1..]
  {
    AnchorsAfterInsert(h, s, [Zero, anchorPos, Zero]);
  }

  /**
   * Splitting and then smoothing the new anchor's tangents keeps every old
   * handle, in order, on both sides of the inserted triple, and the new
   * anchor where it was put.
   */
  lemma {:induction false} SplitKeepsOldHandles(normalized: Vec3 -> Vec3, magnitude: Vec3 -> real,
                                                h: seq<Vec3>, loop: bool, s: int, anchorPos: Vec3)
    requires HandleLayout(|h|, loop) && 0 <= s < |h| / 3
    ensures var r := Smoothed(normalized, magnitude, Split(h, s, anchorPos), loop, s * 3 + 3, 2);
      r[..s * 3 + 2] == h[..s * 3 + 2] && r[s * 3 + 3] == anchorPos && r[s * 3 + 5..] == h[s * 3 + 2..]
  {
    var g := Split(h, s, anchorPos);
    var c := s * 3 + 3;
    assert c <= |h| by {
      assert s + 1 <= |h| / 3;
    }
    assert HandleLayout(|g|, loop);
    SmoothedTangents(normalized, magnitude, g, loop, c);
    var r := Smoothed(normalized, magnitude, g, loop, c, 2);
    assert Wrap(|g|, c - 1) == c - 1 && Wrap(|g|, c + 1) == c + 1;
    KeptAroundTriple(h, g, r, c);
  }

  /** A list that differs from h-with-a-triple-inserted only inside the triple keeps h on both sides of it. */
  lemma KeptAroundTriple(h: seq<Vec3>, g: seq<Vec3>, r: seq<Vec3>, c: int)
    requires 1 <= c <= |h| + 1 && |g| == |h| + 3 && |r| == |g|
    requires g[..c - 1] == h[..c - 1] && g[c + 2..] == h[c - 1..]
    requires forall k :: 0 <= k < |g| && r[k] != g[k] ==> k == c - 1 || k == c + 1
    ensures r[..c - 1] == h[..c - 1] && r[c] == g[c] && r[c + 2..] == h[c - 1..]
  {
    forall k | 0 <= k < c - 1 ensures r[k] == h[k] {
      assert g[..c - 1][k] == g[k];
    }
    forall k | c + 2 <= k < |g| ensures r[k] == h[k - 3] {
      assert g[c + 2..][k - c - 2] == g[k];
    }
  }

  /**
   * The handles after deleting anchor a with its two tangents. The first
   * anchor takes its succeeding tangent and the one after; on a loop the
   * closing tangent before it is first replaced by the tangent that follows
   * the new first anchor's predecessor. The last anchor of an open path
   * takes its preceding tangents; any other anchor takes the tangent on
   * either side.
   */
  function RemovedAnchor(h: seq<Vec3>, loop: bool, a: int): (r: seq<Vec3>)
    requires HandleLayout(|h|, loop) && |h| >= 6 && 0 <= a < |h| && a % 3 == 0
    ensures |r| == |h| - 3
  {
    if a == 0 then (if loop then h[|h| - 1 := h[2]] else h)[3..]
    else if a == |h| - 1 && !loop then h[..a - 2] + h[a + 1..]
    else h[..a - 1] + h[a + 2..]
  }

  /** Deleting anchor a removes exactly that anchor from the anchor list, whatever its position. */
  lemma AnchorsAfterDelete(h: seq<Vec3>, loop: bool, a: int)
    requires HandleLayout(|h|, loop) && |h| >= 6 && 0 <= a < |h| && a % 3 == 0
    ensures Anchors(RemovedAnchor(h, loop, a)) == Anchors(h)[..a / 3] + Anchors(h)[a / 3 + 1..]
  {
    var n := |h|;
    if a == 0 {
      var g := if loop then h[n - 1 := h[2]] else h;
      assert Anchors(g) == Anchors(h);
      AnchorsAfterRemoveFirst(g);
    } else if a == n - 1 && !loop {
      assert h[..a - 2] + h[a + 1..] == h[..n - 3];
      AnchorsAfterRemoveLast(h);
    } else {
      AnchorsAfterRemoveInterior(h, a);
    }
  }

  /** Writing an anchor replaces that entry of the anchor list; writing a tangent leaves the list alone. */
  lemma AnchorsAfterWrite(h: seq<Vec3>, k: int, v: Vec3)
    requires 0 <= k < |h|
    ensures k % 3 == 0 ==> Anchors(h[k := v]) == Anchors(h)[k / 3 := v]
    ensures k % 3 != 0 ==> Anchors(h[k := v]) == Anchors(h)
  {
    if k % 3 == 0 {
      assert k == 3 * (k / 3);
    }
  }

  /** The anchor list with its first m anchors flattened onto height zero. */
  function FlatPrefix(A: seq<Vec3>, m: int): (r: seq<Vec3>)
    requires 0 <= m <= |A|
    ensures |r| == |A|
    ensures forall k :: 0 <= k < |A| ==> r[k] == if k < m then Flat(A[k]) else A[k]
  {
    seq(|A|, k requires 0 <= k < |A| => if k < m then Flat(A[k]) else A[k])
  }

  /** Flattening the next anchor in place extends the flattened prefix by one. */
  lemma FlatPrefixStep(A: seq<Vec3>, m: int)
    requires 0 <= m < |A|
    ensures FlatPrefix(A, m)[m := Flat(FlatPrefix(A, m)[m])] == FlatPrefix(A, m + 1)
  {
  }
}
