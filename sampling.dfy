/**
 * Value-level bookkeeping of a composite Bezier path: index wrap-around, the
 * four handles of a segment, the flat sequence of sample points stored block by
 * block, and what each kind of list edit does to the agreement between the
 * stored samples and the handles they were computed from.
 */
module Sampling {
  import opened Vectors

  // ---------------------------------------------------------------------------
  // Index wrap-around
  // ---------------------------------------------------------------------------

  lemma MulAtLeast(d: int, n: int)
    requires d >= 1 && n > 0
    ensures d * n >= n
  {
    assert d * n == n + (d - 1) * n;
  }

  lemma MulAtMost(d: int, n: int)
    requires d <= -1 && n > 0
    ensures d * n <= -n
  {
    assert d * n == -n + (d + 1) * n;
  }

  /** A multiple of n strictly between -n and n is zero. */
  lemma SmallMultiple(d: int, n: int)
    requires n > 0 && -n < d * n < n
    ensures d == 0
  {
    if d >= 1 {
      MulAtLeast(d, n);
      assert false;
    } else if d <= -1 {
      MulAtMost(d, n);
      assert false;
    }
  }

  /** x % n is the one remainder in [0, n) that differs from x by a multiple of n. */
  lemma ModUnique(x: int, n: int, q: int, r: int)
    requires n > 0 && 0 <= r < n && x == q * n + r
    ensures x % n == r
  {
    var q', r' := x / n, x % n;
    assert (q - q') * n == r' - r;
    SmallMultiple(q - q', n);
  }

  lemma ShiftedMod(n: int, i: int)
    requires n > 0 && i >= -n
    ensures (i + n) % n == i % n
    ensures 0 <= i < n ==> (i + n) % n == i
    ensures i < 0 ==> (i + n) % n == i + n
    ensures n <= i < 2 * n ==> (i + n) % n == i - n
  {
    ModUnique(i + n, n, i / n + 1, i % n);
    if 0 <= i < n { ModUnique(i, n, 0, i); }
    if i < 0 { ModUnique(i, n, -1, i + n); }
    if n <= i < 2 * n { ModUnique(i, n, 1, i - n); }
  }

  /** The remainder of x by n, by repeated subtraction. */
  function Rem(x: int, n: int): (r: int)
    requires n > 0 && x >= 0
    ensures 0 <= r < n
    decreases x
  {
    if x < n then x else Rem(x - n, n)
  }

  lemma {:induction false} RemIsMod(x: int, n: int)
    requires n > 0 && x >= 0
    ensures Rem(x, n) == x % n
    decreases x
  {
    if x < n {
      ModUnique(x, n, 0, x);
    } else {
      RemIsMod(x - n, n);
      var q := (x - n) / n;
      assert x - n == q * n + (x - n) % n;
      assert x == (q + 1) * n + (x - n) % n;
      ModUnique(x, n, q + 1, (x - n) % n);
    }
  }

  /**
   * The wrap-around `(i + n) % n` used for handle and segment indices, for
   * i >= -n (WrapIsRemainder shows it is that remainder). Below -n the
   * truncating remainder of the original would be negative.
   */
  function Wrap(n: int, i: int): (r: int)
    requires n > 0 && i >= -n
    ensures 0 <= r < n
    ensures 0 <= i < n ==> r == i
    ensures i < 0 ==> r == i + n
    ensures n <= i < 2 * n ==> r == i - n
  {
    if i < 0 then i + n else if i < n then i else Rem(i - n, n)
  }

  lemma WrapIsRemainder(n: int, i: int)
    requires n > 0 && i >= -n
    ensures Wrap(n, i) == (i + n) % n && Wrap(n, i) == i % n
  {
    if i >= n {
      RemIsMod(i - n, n);
      ModUnique(i, n, (i - n) / n + 1, (i - n) % n);
    }
    ShiftedMod(n, i);
  }

  // ---------------------------------------------------------------------------
  // Segments and their handles
  // ---------------------------------------------------------------------------

  /**
   * The handle-list layout of an open path (3N - 2 handles for N anchors,
   * at least two anchors) or of a closed loop (3N handles, at least two
   * anchors).
   */
  predicate HandleLayout(n: int, loop: bool) {
    n % 3 == (if loop then 0 else 1) && n >= (if loop then 6 else 4)
  }

  /** The four control points of segment i, the last one wrapping for a loop. */
  function Quad(h: seq<Vec3>, i: int): seq<Vec3>
    requires 0 <= i && 3 * i + 2 < |h|
  {
    [h[3 * i], h[3 * i + 1], h[3 * i + 2], h[Wrap(|h|, 3 * i + 3)]]
  }

  /** The handle indices whose values segment i reads. */
  function QuadIndices(n: int, i: int): set<int>
    requires 0 <= i && 3 * i + 2 < n
  {
    {3 * i, 3 * i + 1, 3 * i + 2, Wrap(n, 3 * i + 3)}
  }

  /** The segments that read handle k. */
  function Touched(n: int, k: int): set<int>
  {
    set j | 0 <= j < n / 3 && 3 * j + 2 < n && k in QuadIndices(n, j)
  }

  /** The two segments on either side of anchor a, wrapped: those SmoothAnchor resamples. */
  function AnchorSegments(n: int, a: int): set<int>
    requires n >= 3 && a >= 0
  {
    {Wrap(n / 3, a / 3), Wrap(n / 3, a / 3 - 1)}
  }

  /** The two segments at the anchor ending segment s of the new list: s and s + 1. */
  lemma SegmentsAtSplitAnchor(n: int, s: int)
    requires n % 3 != 2 && 0 <= s && s * 3 + 5 < n
    ensures {s, s + 1} <= AnchorSegments(n, s * 3 + 3)
  {
    assert (s * 3 + 3) / 3 == s + 1;
    assert s + 1 < n / 3;
  }

  /** Consecutive segments share their anchor, and a loop closes on anchor 0. */
  lemma {:induction false} QuadsShareAnchors(h: seq<Vec3>, loop: bool, i: int)
    requires HandleLayout(|h|, loop) && 0 <= i < |h| / 3
    ensures i + 1 < |h| / 3 ==> Quad(h, i)[3] == Quad(h, i + 1)[0]
    ensures i + 1 == |h| / 3 && loop ==> Quad(h, i)[3] == h[0]
    ensures i + 1 == |h| / 3 && !loop ==> Quad(h, i)[3] == h[|h| - 1]
  {
    if i + 1 == |h| / 3 {
      if loop { assert 3 * i + 3 == |h|; } else { assert 3 * i + 3 == |h| - 1; }
    }
  }

  /** A tangent handle is read by the one segment it belongs to. */
  lemma {:induction false} TouchedTangent(n: int, k: int)
    requires n % 3 != 2 && n >= 4 && 0 <= k < n && k % 3 != 0
    ensures Touched(n, k) == {k / 3}
  {
    forall j | j in Touched(n, k) ensures j == k / 3 {
      assert Wrap(n, 3 * j + 3) % 3 == 0 by {
        if 3 * j + 3 >= n { assert 3 * j + 3 == n; }
      }
    }
    assert k / 3 in Touched(n, k) by {
      assert k == 3 * (k / 3) + k % 3;
    }
  }

  /**
   * An anchor is read by the segment it starts (if any) and the segment it
   * ends (if any: the last one, for anchor 0 of a loop).
   */
  lemma {:induction false} TouchedAnchor(n: int, a: int)
    requires n % 3 != 2 && n >= 4 && 0 <= a < n && a % 3 == 0
    ensures forall j :: j in Touched(n, a) ==>
      (j == a / 3 && a / 3 < n / 3) || (j == a / 3 - 1 && a > 0) || (j == n / 3 - 1 && a == 0 && n % 3 == 0)
  {
    forall j | j in Touched(n, a)
      ensures (j == a / 3 && a / 3 < n / 3) || (j == a / 3 - 1 && a > 0) || (j == n / 3 - 1 && a == 0 && n % 3 == 0)
    {
      if 3 * j + 3 >= n { assert 3 * j + 3 == n; }
    }
  }

  /**
   * The segments resampled around anchor index a (a may be the handle count
   * of a loop, which wraps to anchor 0): the one starting at a, unless a is
   * the end of an open path, and the one ending at a, unless a is the start
   * of an open path.
   */
  function AdjacentSegments(n: int, loop: bool, a: int): set<int>
    requires n >= 3 && a >= 0
  {
    (if a / 3 < n / 3 || loop then {Wrap(n / 3, a / 3)} else {}) +
    (if a / 3 - 1 >= 0 || loop then {Wrap(n / 3, a / 3 - 1)} else {})
  }

  /**
   * Every handle within two places of anchor a is read only by segments
   * adjacent to a: moving an anchor together with its tangents, or a
   * tangent together with its opposite one, stales nothing else.
   */
  lemma {:induction false} NeighbourhoodTouched(n: int, loop: bool, a: int, d: int)
    requires HandleLayout(n, loop) && a % 3 == 0 && 0 <= a && (a < n || (loop && a == n)) && -2 <= d <= 2
    requires (0 <= a + d < n) || loop
    ensures Touched(n, Wrap(n, a + d)) <= AdjacentSegments(n, loop, a)
    ensures AdjacentSegments(n, loop, a) <= AnchorSegments(n, a)
  {
    var k := Wrap(n, a + d);
    var m := n / 3;
    var adj := AdjacentSegments(n, loop, a);
    if a == n {
      assert (d >= 0 ==> k == d) && a / 3 == m;
      assert Wrap(m, m) == 0 && 0 in adj;
      assert Wrap(m, m - 1) == m - 1 && m - 1 in adj;
    } else if a == 0 {
      assert loop ==> Wrap(m, -1) == m - 1 && m - 1 in adj;
      assert Wrap(m, 0) == 0 && 0 in adj;
    } else {
      assert a / 3 - 1 in adj;
      assert a / 3 < m ==> a / 3 in adj;
    }
    if d == 0 {
      TouchedAnchor(n, k);
    } else {
      TouchedTangent(n, k);
    }
  }

  /** An anchor index wraps to an anchor index. */
  lemma WrapOfAnchor(n: int, loop: bool, i: int)
    requires HandleLayout(n, loop) && -n <= i < 2 * n && i % 3 == 0 && (0 <= i < n || loop)
    ensures Wrap(n, i) % 3 == 0
  {
  }

  /** What a loop smoothing the anchors around c still leaves stale, before anchor i: X until c is done. */
  function Pending(X: set<int>, c: int, i: int): set<int> {
    if i <= c then X else {}
  }

  /** What is still stale after anchor index i, wrapped, is smoothed (when it exists) with Y stale before. */
  function StaleAfter(Y: set<int>, n: int, loop: bool, i: int): set<int>
    requires n >= 3 && i >= -n
  {
    if 0 <= i < n || loop then Y - AnchorSegments(n, Wrap(n, i)) else Y
  }

  /** What step i of the loop over the anchors around c leaves stale is what the next step may. */
  lemma NeighbourStepStale(h: seq<Vec3>, sp: seq<Vec3>, p: nat, n: int, loop: bool, X: set<int>, c: int, k: int, i: int)
    requires |h| == n && n >= 3 && c >= 0 && 0 <= k < 3 && i == c - 3 + 3 * k && i >= -n
    requires X <= if c < n || loop then AnchorSegments(n, Wrap(n, c)) else {}
    requires FreshExcept(h, sp, p, StaleAfter(Pending(X, c, i), n, loop, i))
    ensures FreshExcept(h, sp, p, Pending(X, c, i + 3))
  {
    FreshMonotone(h, sp, p, StaleAfter(Pending(X, c, i), n, loop, i), Pending(X, c, i + 3));
  }

  /**
   * The two tangent slots of anchor a: before it (wrapping to the last handle
   * of a loop when a is 0) and after it; neither is an anchor.
   */
  lemma TangentSlots(n: int, loop: bool, a: int)
    requires HandleLayout(n, loop) && 0 <= a < n && a % 3 == 0
    ensures (0 <= a - 1 < n || loop) ==> Wrap(n, a - 1) % 3 == 2 && Wrap(n, a - 1) == (if a == 0 then n - 1 else a - 1)
    ensures (a + 1 < n || loop) ==> Wrap(n, a + 1) % 3 == 1 && Wrap(n, a + 1) == a + 1
  {
  }

  /**
   * Writing only the handles within one place of anchor a (the anchor and
   * its tangents, wrapping around a loop) stales at most the segments
   * adjacent to a.
   */
  lemma {:induction false} FreshAfterNeighbourhoodWrites(h: seq<Vec3>, h': seq<Vec3>, sp: seq<Vec3>, p: nat, X: set<int>, a: int, loop: bool)
    requires HandleLayout(|h|, loop) && |h'| == |h| && a % 3 == 0 && 0 <= a && (a < |h| || (loop && a == |h|))
    requires forall k :: 0 <= k < |h| && h'[k] != h[k] ==>
      ((0 <= a - 1 < |h| || loop) && k == Wrap(|h|, a - 1)) ||
      ((0 <= a < |h| || loop) && k == Wrap(|h|, a)) ||
      ((0 <= a + 1 < |h| || loop) && k == Wrap(|h|, a + 1))
    requires FreshExcept(h, sp, p, X)
    ensures FreshExcept(h', sp, p, X + AdjacentSegments(|h|, loop, a))
  {
    var n := |h|;
    var S := AdjacentSegments(n, loop, a);
    if 0 <= a - 1 < n || loop {
      NeighbourhoodTouched(n, loop, a, -1);
    }
    if 0 <= a < n || loop {
      NeighbourhoodTouched(n, loop, a, 0);
    }
    if 0 <= a + 1 < n || loop {
      NeighbourhoodTouched(n, loop, a, 1);
    }
    forall j | 0 <= j < |h'| / 3 && j !in X + S ensures BlockOk(h', sp, p, j) {
      assert BlockOk(h, sp, p, j);
      assert forall q :: q in QuadIndices(n, j) ==> h'[q] == h[q];
      assert Quad(h', j) == Quad(h, j);
    }
  }

  /** The segment indices from i up to, not including, m. */
  function Upward(i: int, m: int): set<int>
    decreases m - i
  {
    if i >= m then {} else {i} + Upward(i + 1, m)
  }

  lemma {:induction false} UpwardMembers(i: int, m: int, j: int)
    ensures j in Upward(i, m) <==> i <= j < m
    decreases m - i
  {
    if i < m {
      UpwardMembers(i + 1, m, j);
    }
  }

  lemma UpwardStep(i: int, m: int)
    requires i < m
    ensures Upward(i, m) - {i} == Upward(i + 1, m)
  {
    UpwardMembers(i + 1, m, i);
  }

  /** The anchors of a handle list, in order: every third handle from 0. */
  function Anchors(h: seq<Vec3>): (r: seq<Vec3>)
    ensures |r| == (|h| + 2) / 3
    ensures forall k :: 0 <= k < |r| ==> r[k] == h[3 * k]
  {
    seq((|h| + 2) / 3, k requires 0 <= k < (|h| + 2) / 3 => h[3 * k])
  }

  /** The same length and the same value at every anchor index. */
  predicate SameAnchors(h: seq<Vec3>, h': seq<Vec3>) {
    |h| == |h'| && forall k :: 0 <= k < |h| && k % 3 == 0 ==> h[k] == h'[k]
  }

  lemma SameAnchorsTrans(h: seq<Vec3>, h': seq<Vec3>, h'': seq<Vec3>)
    requires SameAnchors(h, h') && SameAnchors(h', h'')
    ensures SameAnchors(h, h'')
  {
  }

  lemma SameAnchorsAnchors(h: seq<Vec3>, h': seq<Vec3>)
    requires SameAnchors(h, h')
    ensures Anchors(h) == Anchors(h')
  {
    assert forall k :: 0 <= k < (|h| + 2) / 3 ==> 3 * k < |h| && (3 * k) % 3 == 0;
  }

  // ---------------------------------------------------------------------------
  // Samples
  // ---------------------------------------------------------------------------

  /** The parameter of the j-th of p samples of a segment. */
  function SampleParam(p: nat, j: int): real {
    (1.0 / ((p + 1) as real)) * ((j + 1) as real)
  }

  /** Samples lie strictly inside the segment: the anchors are never sampled. */
  lemma SampleParamInside(p: nat, j: int)
    requires 0 <= j < p
    ensures 0.0 < SampleParam(p, j) < 1.0
  {
    var d := (p + 1) as real;
    var e := (j + 1) as real;
    assert 0.0 < e < d;
    assert SampleParam(p, j) == e / d;
  }

  /** The p samples of the segment with control points q. */
  function SegmentSamples(q: seq<Vec3>, p: nat): (r: seq<Vec3>)
    requires |q| >= 4
    ensures |r| == p
  {
    seq(p, j requires 0 <= j < p => BezierPoint(q, SampleParam(p, j)))
  }

  /** The layout of the flat sample list: p samples for each segment. */
  predicate SampleLayout(h: seq<Vec3>, sp: seq<Vec3>, p: nat) {
    |h| >= 4 && |h| % 3 != 2 && |sp| == (|h| / 3) * p
  }

  /** Block i of a flat list of p-sample blocks. */
  function Block(sp: seq<Vec3>, p: nat, i: int): seq<Vec3>
    requires 0 <= i && 0 <= i * p && i * p + p <= |sp|
  {
    sp[i * p .. i * p + p]
  }

  /** Block i holds the samples of segment i of h. */
  predicate BlockOk(h: seq<Vec3>, sp: seq<Vec3>, p: nat, i: int) {
    0 <= i && 3 * i + 2 < |h| && 0 <= i * p && i * p + p <= |sp| &&
    Block(sp, p, i) == SegmentSamples(Quad(h, i), p)
  }

  /** Every segment outside X has up-to-date samples. */
  predicate FreshExcept(h: seq<Vec3>, sp: seq<Vec3>, p: nat, X: set<int>) {
    forall i {:trigger BlockOk(h, sp, p, i)} :: 0 <= i < |h| / 3 && i !in X ==> BlockOk(h, sp, p, i)
  }

  /** The flat list with block i replaced by b. */
  function Overwrite(sp: seq<Vec3>, p: nat, i: int, b: seq<Vec3>): (r: seq<Vec3>)
    requires 0 <= i && 0 <= i * p && i * p + p <= |sp| && |b| == p
    ensures |r| == |sp|
  {
    sp[..i * p] + b + sp[i * p + p..]
  }

  function Zeros(p: nat): (r: seq<Vec3>)
    ensures |r| == p
  {
    seq(p, _ => Zero)
  }

  // ---------------------------------------------------------------------------
  // Block arithmetic
  // ---------------------------------------------------------------------------

  lemma BlockInBounds(i: int, m: int, p: nat)
    requires 0 <= i < m
    ensures 0 <= i * p && i * p + p <= m * p
  {
    assert (m - i - 1) * p >= 0;
    assert m * p == i * p + p + (m - i - 1) * p;
  }

  lemma BlockBefore(j: int, i: int, p: nat)
    requires 0 <= j < i
    ensures 0 <= j * p && j * p + p <= i * p
  {
    BlockInBounds(j, i, p);
  }

  lemma NextBlock(i: int, p: nat)
    ensures (i + 1) * p == i * p + p
    ensures (i - 1) * p == i * p - p
  {
  }

  lemma SliceLeft(a: seq<Vec3>, b: seq<Vec3>, lo: int, hi: int)
    requires 0 <= lo <= hi <= |a|
    ensures (a + b)[lo..hi] == a[lo..hi]
  {
  }

  lemma SliceRight(a: seq<Vec3>, b: seq<Vec3>, lo: int, hi: int)
    requires |a| <= lo <= hi <= |a| + |b|
    ensures (a + b)[lo..hi] == b[lo - |a|..hi - |a|]
  {
  }

  /** Reading block j of a list whose block i was replaced. */
  lemma {:induction false} BlockOfOverwrite(sp: seq<Vec3>, p: nat, i: int, b: seq<Vec3>, j: int)
    requires 0 <= i && 0 <= i * p && i * p + p <= |sp| && |b| == p
    requires 0 <= j && 0 <= j * p && j * p + p <= |sp|
    ensures Block(Overwrite(sp, p, i, b), p, j) == if j == i then b else Block(sp, p, j)
  {
    var pre, post := sp[..i * p], sp[i * p + p..];
    assert Overwrite(sp, p, i, b) == pre + (b + post);
    if j < i {
      BlockBefore(j, i, p);
      SliceLeft(pre, b + post, j * p, j * p + p);
    } else if j > i {
      BlockBefore(i, j, p);
      assert Overwrite(sp, p, i, b) == (pre + b) + post;
      SliceRight(pre + b, post, j * p, j * p + p);
    } else {
      SliceRight(pre, b + post, j * p, j * p + p);
      SliceLeft(b, post, 0, p);
    }
  }

  /** Blocks before an inserted block keep their position. */
  lemma {:induction false} BlockOfInsertBefore(sp: seq<Vec3>, p: nat, k: int, b: seq<Vec3>, j: int)
    requires 0 <= j < k && 0 <= k * p <= |sp| && |b| == p
    ensures 0 <= j * p && j * p + p <= k * p
    ensures (sp[..k * p] + b + sp[k * p..])[j * p .. j * p + p] == sp[j * p .. j * p + p]
  {
    BlockBefore(j, k, p);
    assert sp[..k * p] + b + sp[k * p..] == sp[..k * p] + (b + sp[k * p..]);
    SliceLeft(sp[..k * p], b + sp[k * p..], j * p, j * p + p);
  }

  /** Blocks after an inserted block move up by one block. */
  lemma {:induction false} BlockOfInsertAfter(sp: seq<Vec3>, p: nat, m: int, k: int, b: seq<Vec3>, j: int)
    requires |sp| == m * p && 0 <= k < j <= m && |b| == p
    ensures 0 <= k * p && 0 <= (j - 1) * p && (j - 1) * p + p <= |sp| && j * p == (j - 1) * p + p
    ensures (sp[..k * p] + b + sp[k * p..])[j * p .. j * p + p] == sp[(j - 1) * p .. (j - 1) * p + p]
  {
    BlockInBounds(j - 1, m, p);
    BlockBefore(k, j, p);
    NextBlock(j, p);
    var pre := sp[..k * p] + b;
    assert |pre| == k * p + p;
    SliceRight(pre, sp[k * p..], j * p, j * p + p);
    assert sp[k * p..][j * p - k * p - p .. j * p - k * p] == sp[(j - 1) * p .. (j - 1) * p + p];
  }

  /** The inserted block itself. */
  lemma {:induction false} BlockOfInsertAt(sp: seq<Vec3>, p: nat, k: int, b: seq<Vec3>)
    requires 0 <= k * p <= |sp| && |b| == p
    ensures (sp[..k * p] + b + sp[k * p..])[k * p .. k * p + p] == b
  {
    assert sp[..k * p] + b + sp[k * p..] == sp[..k * p] + (b + sp[k * p..]);
    SliceRight(sp[..k * p], b + sp[k * p..], k * p, k * p + p);
    SliceLeft(b, sp[k * p..], 0, p);
  }

  /** Blocks after a removed block move down by one block. */
  lemma {:induction false} BlockOfRemoveAfter(sp: seq<Vec3>, p: nat, m: int, k: int, j: int)
    requires |sp| == m * p && 0 <= k <= j < m - 1
    ensures 0 <= k * p && k * p + p <= |sp|
    ensures 0 <= j * p && j * p + p + p <= |sp| && (j + 1) * p == j * p + p
    ensures (sp[..k * p] + sp[k * p + p..])[j * p .. j * p + p] == sp[(j + 1) * p .. (j + 1) * p + p]
  {
    BlockInBounds(k, m, p);
    BlockInBounds(j + 1, m, p);
    NextBlock(j, p);
    if k < j { BlockBefore(k, j, p); }
    SliceRight(sp[..k * p], sp[k * p + p..], j * p, j * p + p);
  }

  /** Blocks before a removed block keep their position. */
  lemma {:induction false} BlockOfRemoveBefore(sp: seq<Vec3>, p: nat, k: int, j: int)
    requires 0 <= j < k && 0 <= k * p && k * p + p <= |sp|
    ensures 0 <= j * p && j * p + p <= k * p
    ensures (sp[..k * p] + sp[k * p + p..])[j * p .. j * p + p] == sp[j * p .. j * p + p]
  {
    BlockBefore(j, k, p);
    SliceLeft(sp[..k * p], sp[k * p + p..], j * p, j * p + p);
    assert sp[..k * p][j * p .. j * p + p] == sp[j * p .. j * p + p];
  }

  // ---------------------------------------------------------------------------
  // Freshness under list edits
  // ---------------------------------------------------------------------------

  lemma FreshMonotone(h: seq<Vec3>, sp: seq<Vec3>, p: nat, X: set<int>, Y: set<int>)
    requires FreshExcept(h, sp, p, X) && X <= Y
    ensures FreshExcept(h, sp, p, Y)
  {
  }

  /** Resampling segment i brings it up to date and leaves every other block alone. */
  lemma {:induction false} FreshAfterUpdate(h: seq<Vec3>, sp: seq<Vec3>, p: nat, X: set<int>, i: int)
    requires SampleLayout(h, sp, p) && 0 <= i < |h| / 3
    requires FreshExcept(h, sp, p, X)
    ensures 0 <= i * p && i * p + p <= |sp|
    ensures FreshExcept(h, Overwrite(sp, p, i, SegmentSamples(Quad(h, i), p)), p, X - {i})
  {
    var m := |h| / 3;
    BlockInBounds(i, m, p);
    var b := SegmentSamples(Quad(h, i), p);
    var r := Overwrite(sp, p, i, b);
    forall j | 0 <= j < m && j !in X - {i} ensures BlockOk(h, r, p, j) {
      BlockInBounds(j, m, p);
      BlockOfOverwrite(sp, p, i, b, j);
      if j != i {
        assert BlockOk(h, sp, p, j);
      }
    }
  }

  /** Resampling an up-to-date segment stores exactly what was stored. */
  lemma {:induction false} UpdateOfFreshIsIdentity(h: seq<Vec3>, sp: seq<Vec3>, p: nat, X: set<int>, i: int)
    requires SampleLayout(h, sp, p) && 0 <= i < |h| / 3 && i !in X
    requires FreshExcept(h, sp, p, X)
    ensures 0 <= i * p && i * p + p <= |sp|
    ensures Overwrite(sp, p, i, SegmentSamples(Quad(h, i), p)) == sp
  {
    BlockInBounds(i, |h| / 3, p);
    assert BlockOk(h, sp, p, i);
    assert sp == sp[..i * p] + sp[i * p .. i * p + p] + sp[i * p + p..];
  }

  /** Moving handle k makes at most the segments that read it stale. */
  lemma {:induction false} FreshAfterWrite(h: seq<Vec3>, sp: seq<Vec3>, p: nat, X: set<int>, k: int, v: Vec3)
    requires 0 <= k < |h| && FreshExcept(h, sp, p, X)
    ensures FreshExcept(h[k := v], sp, p, X + Touched(|h|, k))
  {
    var h' := h[k := v];
    forall j | 0 <= j < |h'| / 3 && j !in X + Touched(|h|, k) ensures BlockOk(h', sp, p, j) {
      assert BlockOk(h, sp, p, j);
      assert k !in QuadIndices(|h|, j);
      assert Quad(h', j) == Quad(h, j);
    }
  }
}

/** Freshness across the edits that add or remove whole segments. */
module SegmentEdits {
  import opened Vectors
  import opened Sampling

  /**
   * Appending two or three handles to an open path (a new segment, or the
   * segment closing a loop) and a block of placeholder samples leaves every
   * old segment up to date; only the new last segment is stale.
   */
  lemma {:induction false} FreshAfterExtend(h: seq<Vec3>, sp: seq<Vec3>, p: nat, e: seq<Vec3>)
    requires SampleLayout(h, sp, p) && |h| % 3 == 1 && 2 <= |e| <= 3
    requires FreshExcept(h, sp, p, {})
    ensures SampleLayout(h + e, sp + Zeros(p), p)
    ensures (|h + e|) / 3 == |h| / 3 + 1
    ensures FreshExcept(h + e, sp + Zeros(p), p, {|h| / 3})
  {
    var m := |h| / 3;
    var h2, sp2 := h + e, sp + Zeros(p);
    NextBlock(m + 1, p);
    forall j | 0 <= j < |h2| / 3 && j !in {m} ensures BlockOk(h2, sp2, p, j) {
      assert BlockOk(h, sp, p, j);
      assert Quad(h2, j) == Quad(h, j);
      SliceLeft(sp, Zeros(p), j * p, j * p + p);
    }
  }

  /**
   * Cutting the handle list back to an open path of L handles, and the
   * samples to L / 3 blocks, leaves every remaining segment up to date.
   */
  lemma {:induction false} FreshAfterTruncate(h: seq<Vec3>, sp: seq<Vec3>, p: nat, L: int)
    requires SampleLayout(h, sp, p) && L % 3 == 1 && 4 <= L < |h|
    requires FreshExcept(h, sp, p, {})
    ensures 0 <= (L / 3) * p <= |sp|
    ensures SampleLayout(h[..L], sp[..(L / 3) * p], p)
    ensures FreshExcept(h[..L], sp[..(L / 3) * p], p, {})
  {
    var m := L / 3;
    BlockInBounds(m - 1, |h| / 3, p);
    NextBlock(m, p);
    var h2, sp2 := h[..L], sp[..m * p];
    forall j | 0 <= j < m ensures BlockOk(h2, sp2, p, j) {
      assert BlockOk(h, sp, p, j);
      assert Quad(h2, j) == Quad(h, j);
      BlockBefore(j, m, p);
    }
  }

  /**
   * Inserting the triple (tangent, anchor, tangent) before handle 3s+2 and a
   * placeholder block at block s makes segments s and s+1 stale; the
   * segments before keep their samples and those after move up by one.
   */
  lemma {:induction false} FreshAfterInsertSegment(h: seq<Vec3>, sp: seq<Vec3>, p: nat, s: int, t: seq<Vec3>)
    requires SampleLayout(h, sp, p) && 0 <= s < |h| / 3 && |t| == 3
    requires FreshExcept(h, sp, p, {})
    ensures 0 <= s * p <= |sp|
    ensures SampleLayout(h[..3 * s + 2] + t + h[3 * s + 2..], sp[..s * p] + Zeros(p) + sp[s * p..], p)
    ensures |h[..3 * s + 2] + t + h[3 * s + 2..]| / 3 == |h| / 3 + 1
    ensures FreshExcept(h[..3 * s + 2] + t + h[3 * s + 2..], sp[..s * p] + Zeros(p) + sp[s * p..], p, {s, s + 1})
  {
    var m := |h| / 3;
    BlockInBounds(s, m, p);
    NextBlock(m + 1, p);
    var h2 := h[..3 * s + 2] + t + h[3 * s + 2..];
    var sp2 := sp[..s * p] + Zeros(p) + sp[s * p..];
    assert |h2| == |h| + 3;
    forall j | 0 <= j < |h2| / 3 && j !in {s, s + 1} ensures BlockOk(h2, sp2, p, j) {
      if j < s {
        assert BlockOk(h, sp, p, j);
        assert Quad(h2, j) == Quad(h, j);
        BlockOfInsertBefore(sp, p, s, Zeros(p), j);
      } else {
        assert BlockOk(h, sp, p, j - 1);
        assert Quad(h2, j) == Quad(h, j - 1) by {
          if 3 * j + 3 >= |h2| { assert 3 * j + 3 == |h2|; }
        }
        BlockOfInsertAfter(sp, p, m, s, Zeros(p), j);
      }
    }
  }

  /**
   * Removing handles [0, 3) (after, on a loop, copying handle 2 into the
   * closing handle) and block 0 shifts every segment down by one; only the
   * new last segment is stale.
   */
  lemma {:induction false} FreshAfterRemoveFirst(h: seq<Vec3>, sp: seq<Vec3>, p: nat, loop: bool)
    requires SampleLayout(h, sp, p) && HandleLayout(|h|, loop) && |h| >= (if loop then 9 else 7)
    requires FreshExcept(h, sp, p, {})
    ensures p <= |sp|
    ensures var g := if loop then h[|h| - 1 := h[2]] else h;
      SampleLayout(g[3..], sp[p..], p) && |g[3..]| / 3 == |h| / 3 - 1 &&
      FreshExcept(g[3..], sp[p..], p, {|h| / 3 - 2})
  {
    var m := |h| / 3;
    var g := if loop then h[|h| - 1 := h[2]] else h;
    var h2, sp2 := g[3..], sp[p..];
    BlockInBounds(0, m, p);
    NextBlock(m - 1, p);
    assert |sp2| == (m - 1) * p;
    assert sp2 == sp[..0 * p] + sp[0 * p + p..];
    forall j | 0 <= j < |h2| / 3 && j !in {m - 2} ensures BlockOk(h2, sp2, p, j) {
      assert BlockOk(h, sp, p, j + 1);
      QuadAfterRemoveFirst(h, g, j);
      BlockOfRemoveAfter(sp, p, m, 0, j);
    }
  }

  /** Away from the last handle, which a loop re-links, segment j after removing the first three handles is segment j + 1 before. */
  lemma QuadAfterRemoveFirst(h: seq<Vec3>, g: seq<Vec3>, j: int)
    requires |g| == |h| && 0 <= j && 3 * j + 7 < |h|
    requires forall k :: 0 <= k < |h| - 1 ==> g[k] == h[k]
    ensures Quad(g[3..], j) == Quad(h, j + 1)
  {
    var h2 := g[3..];
    assert Wrap(|h2|, 3 * j + 3) == 3 * j + 3;
    assert Wrap(|h|, 3 * (j + 1) + 3) == 3 * j + 6;
    assert h2[3 * j] == h[3 * j + 3] && h2[3 * j + 1] == h[3 * j + 4];
    assert h2[3 * j + 2] == h[3 * j + 5] && h2[3 * j + 3] == h[3 * j + 6];
  }

  /**
   * Removing the interior anchor a with its two tangents, and block a / 3,
   * makes segment a / 3 - 1 stale (its far end is now the next anchor); the
   * segments before keep their samples and those after move down by one.
   */
  lemma {:induction false} FreshAfterRemoveInterior(h: seq<Vec3>, sp: seq<Vec3>, p: nat, a: int)
    requires SampleLayout(h, sp, p) && a % 3 == 0 && 3 <= a && a + 3 <= |h| && |h| >= 7
    requires FreshExcept(h, sp, p, {})
    ensures 0 <= (a / 3) * p && (a / 3) * p + p <= |sp|
    ensures SampleLayout(h[..a - 1] + h[a + 2..], sp[..(a / 3) * p] + sp[(a / 3) * p + p..], p)
    ensures |h[..a - 1] + h[a + 2..]| / 3 == |h| / 3 - 1
    ensures FreshExcept(h[..a - 1] + h[a + 2..], sp[..(a / 3) * p] + sp[(a / 3) * p + p..], p, {a / 3 - 1})
  {
    var m, k := |h| / 3, a / 3;
    BlockInBounds(k, m, p);
    NextBlock(m - 1, p);
    var h2 := h[..a - 1] + h[a + 2..];
    var sp2 := sp[..k * p] + sp[k * p + p..];
    assert |h2| == |h| - 3;
    forall j | 0 <= j < |h2| / 3 && j !in {k - 1} ensures BlockOk(h2, sp2, p, j) {
      if j < k - 1 {
        assert BlockOk(h, sp, p, j);
        assert Quad(h2, j) == Quad(h, j);
        BlockOfRemoveBefore(sp, p, k, j);
      } else {
        assert BlockOk(h, sp, p, j + 1);
        assert Quad(h2, j) == Quad(h, j + 1) by {
          if 3 * j + 3 >= |h2| { assert 3 * j + 3 == |h2|; }
        }
        BlockOfRemoveAfter(sp, p, m, k, j);
      }
    }
  }
}
