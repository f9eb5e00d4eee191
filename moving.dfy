/**
 * Moving one handle of a path whose tangents are not kept smooth, on values.
 * Moving an anchor drags its tangents along by the same offset; moving a
 * tangent swings the opposite tangent of the same anchor so that it points
 * away from the moved one, keeping its distance from the anchor.
 */
module Moving {
  import opened Vectors
  import opened Sampling
  import opened HandleEdits

  /** The anchor a handle belongs to: itself, or the anchor next to the tangent (n for a loop's last tangent). */
  function MoveAnchor(i: int): (a: int)
    requires i >= 0
    ensures a % 3 == 0 && i - 1 <= a <= i + 1
  {
    if i % 3 == 0 then i else if (i + 1) % 3 == 0 then i + 1 else i - 1
  }

  /** The tangent opposite tangent i across its anchor. */
  function Polar(i: int): int {
    if (i + 1) % 3 == 0 then i + 2 else i - 2
  }

  /**
   * The handles after moving handle i to pos on a path without automatic
   * smoothing, written in the order the editor performs the writes.
   */
  function MovedFree(normalized: Vec3 -> Vec3, magnitude: Vec3 -> real,
                     h: seq<Vec3>, loop: bool, i: int, pos: Vec3): (r: seq<Vec3>)
    requires |h| >= 3 && 0 <= i < |h|
    ensures |r| == |h|
  {
    var n := |h|;
    var delta := Sub(pos, h[i]);
    var h1 := h[i := pos];
    if i % 3 == 0 then
      var h2 := if i + 1 < n || loop then h1[Wrap(n, i + 1) := Add(h1[Wrap(n, i + 1)], delta)] else h1;
      if i - 1 >= 0 || loop then h2[Wrap(n, i - 1) := Add(h2[Wrap(n, i - 1)], delta)] else h2
    else
      var polar := Polar(i);
      var anchor := MoveAnchor(i);
      if (polar < n && polar >= 0) || loop then
        var dist := magnitude(Sub(h1[Wrap(n, anchor)], h1[Wrap(n, polar)]));
        var dir := normalized(Sub(h1[Wrap(n, anchor)], pos));
        h1[Wrap(n, polar) := Add(h1[Wrap(n, anchor)], Scale(dir, dist))]
      else h1
  }

  /**
   * What a move does to an anchor's neighbourhood. An anchor lands on pos
   * and each of its existing tangents keeps its offset from it; a tangent
   * lands on pos, its anchor stays, and the opposite tangent, if it exists,
   * is set along the direction from pos to the anchor, at the opposite
   * tangent's old distance from the anchor. No other handle changes, and no
   * anchor but a moved one.
   */
  lemma {:induction false} MovedFreeEffect(normalized: Vec3 -> Vec3, magnitude: Vec3 -> real,
                                           h: seq<Vec3>, loop: bool, i: int, pos: Vec3)
    requires HandleLayout(|h|, loop) && 0 <= i < |h|
    ensures var r := MovedFree(normalized, magnitude, h, loop, i, pos);
      r[i] == pos &&
      (i % 3 == 0 && (i + 1 < |h| || loop) ==>
        Sub(r[Wrap(|h|, i + 1)], r[i]) == Sub(h[Wrap(|h|, i + 1)], h[i])) &&
      (i % 3 == 0 && (i - 1 >= 0 || loop) ==>
        Sub(r[Wrap(|h|, i - 1)], r[i]) == Sub(h[Wrap(|h|, i - 1)], h[i])) &&
      (i % 3 != 0 ==> r[Wrap(|h|, MoveAnchor(i))] == h[Wrap(|h|, MoveAnchor(i))]) &&
      (i % 3 != 0 && (0 <= Polar(i) < |h| || loop) ==>
        r[Wrap(|h|, Polar(i))] == Add(h[Wrap(|h|, MoveAnchor(i))],
          Scale(normalized(Sub(h[Wrap(|h|, MoveAnchor(i))], pos)),
                magnitude(Sub(h[Wrap(|h|, MoveAnchor(i))], h[Wrap(|h|, Polar(i))])))))
    ensures var r := MovedFree(normalized, magnitude, h, loop, i, pos);
      forall k :: 0 <= k < |h| && r[k] != h[k] ==>
        (k == i ||
         (i % 3 == 0 && (i + 1 < |h| || loop) && k == Wrap(|h|, i + 1)) ||
         (i % 3 == 0 && (i - 1 >= 0 || loop) && k == Wrap(|h|, i - 1)) ||
         (i % 3 != 0 && (0 <= Polar(i) < |h| || loop) && k == Wrap(|h|, Polar(i))))
    ensures var r := MovedFree(normalized, magnitude, h, loop, i, pos);
      SameAnchors(r, h[i := pos])
  {
    var n := |h|;
    var a := MoveAnchor(i);
    if i % 3 == 0 {
      TangentSlots(n, loop, i);
    } else {
      assert Wrap(n, a) % 3 == 0;
      assert Polar(i) == a + (a - i);
      assert (0 <= Polar(i) < n || loop) ==> Wrap(n, Polar(i)) % 3 != 0 && Wrap(n, Polar(i)) != i;
      assert Wrap(n, a) != i;
    }
  }

  /** A move puts pos into the anchor list when an anchor moves, and leaves the list alone when a tangent moves. */
  lemma AnchorsAfterMove(normalized: Vec3 -> Vec3, magnitude: Vec3 -> real,
                         h: seq<Vec3>, loop: bool, i: int, pos: Vec3)
    requires HandleLayout(|h|, loop) && 0 <= i < |h|
    ensures i % 3 == 0 ==> Anchors(MovedFree(normalized, magnitude, h, loop, i, pos)) == Anchors(h)[i / 3 := pos]
    ensures i % 3 != 0 ==> Anchors(MovedFree(normalized, magnitude, h, loop, i, pos)) == Anchors(h)
  {
    MovedFreeEffect(normalized, magnitude, h, loop, i, pos);
    SameAnchorsAnchors(MovedFree(normalized, magnitude, h, loop, i, pos), h[i := pos]);
    AnchorsAfterWrite(h, i, pos);
  }

  /** A move stales at most the segments adjacent to the anchor of the moved handle. */
  lemma {:induction false} FreshAfterMove(normalized: Vec3 -> Vec3, magnitude: Vec3 -> real,
                                          h: seq<Vec3>, sp: seq<Vec3>, p: nat, loop: bool, i: int, pos: Vec3)
    requires HandleLayout(|h|, loop) && 0 <= i < |h|
    requires FreshExcept(h, sp, p, {})
    ensures MoveAnchor(i) < |h| || (loop && MoveAnchor(i) == |h|)
    ensures FreshExcept(MovedFree(normalized, magnitude, h, loop, i, pos), sp, p, AdjacentSegments(|h|, loop, MoveAnchor(i)))
  {
    var n := |h|;
    var a := MoveAnchor(i);
    var r := MovedFree(normalized, magnitude, h, loop, i, pos);
    MovedFreeEffect(normalized, magnitude, h, loop, i, pos);
    if i % 3 != 0 {
      assert a < n || (loop && a == n);
      if (i + 1) % 3 == 0 {
        assert i == Wrap(n, a - 1) && Polar(i) == a + 1;
      } else {
        assert i == Wrap(n, a + 1) && Polar(i) == a - 1;
      }
    }
    FreshAfterNeighbourhoodWrites(h, r, sp, p, {}, a, loop);
  }

  /**
   * The non-smooth branch of a move as the editor performs it: write pos,
   * then drag the anchor's tangents, or swing the opposite tangent. Returns
   * the new handles and the index of the anchor whose segments need
   * resampling.
   */
  method MoveFree(normalized: Vec3 -> Vec3, magnitude: Vec3 -> real,
                  handles: seq<Vec3>, isLoop: bool, handleIndex: int, pos: Vec3) returns (hs: seq<Vec3>, i: int)
    requires |handles| >= 3 && 0 <= handleIndex < |handles|
    ensures hs == MovedFree(normalized, magnitude, handles, isLoop, handleIndex, pos)
    ensures i == MoveAnchor(handleIndex)
  {
    var n := |handles|;
    i := handleIndex;
    var deltaMove := Sub(pos, handles[i]);
    hs := handles[i := pos];
    if i % 3 == 0 {
      if i + 1 < n || isLoop {
        hs := hs[Wrap(n, i + 1) := Add(hs[Wrap(n, i + 1)], deltaMove)];
      }
      if i - 1 >= 0 || isLoop {
        hs := hs[Wrap(n, i - 1) := Add(hs[Wrap(n, i - 1)], deltaMove)];
      }
    } else {
      var isNextHandleAnchor := (i + 1) % 3 == 0;
      var polarIndex := if isNextHandleAnchor then i + 2 else i - 2;
      i := if isNextHandleAnchor then i + 1 else i - 1;
      if (polarIndex < n && polarIndex >= 0) || isLoop {
        var dist := magnitude(Sub(hs[Wrap(n, i)], hs[Wrap(n, polarIndex)]));
        var dir := normalized(Sub(hs[Wrap(n, i)], pos));
        hs := hs[Wrap(n, polarIndex) := Add(hs[Wrap(n, i)], Scale(dir, dist))];
      }
    }
  }
}
