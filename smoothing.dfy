/**
 * The tangent smoothing of the path editor, on values: where smoothing an
 * anchor puts its two tangents, and what it leaves alone. The engine's
 * vector normalisation and length are parameters, left uninterpreted.
 */
module Smoothing {
  import opened Vectors
  import opened Sampling

  /**
   * The position that smoothing anchor a of h gives the tangent on the given
   * side (0: before the anchor, 1: after it). The direction is the engine's
   * normalisation of the sum of the direction to the previous anchor and the
   * reversed direction to the next one, each present only if that neighbour
   * exists; the tangent sits at half the distance to the neighbour on its
   * own side, on the far side of the anchor for side 1, and on the anchor
   * itself when that neighbour does not exist.
   */
  function TangentTarget(normalized: Vec3 -> Vec3, magnitude: Vec3 -> real,
                         h: seq<Vec3>, loop: bool, a: int, side: int): Vec3
    requires |h| >= 3 && 0 <= a < |h|
  {
    var anchorPos := h[a];
    var hasPrev := a - 3 >= 0 || loop;
    var hasNext := a + 3 < |h| || loop;
    var offPrev := Sub(h[Wrap(|h|, a - 3)], anchorPos);
    var offNext := Sub(h[Wrap(|h|, a + 3)], anchorPos);
    var dirPrev := if hasPrev then Add(Zero, normalized(offPrev)) else Zero;
    var dirBoth := if hasNext then Sub(dirPrev, normalized(offNext)) else dirPrev;
    var dir := normalized(dirBoth);
    var dist := if side == 0 then (if hasPrev then magnitude(offPrev) else 0.0)
                else (if hasNext then -magnitude(offNext) else 0.0);
    Add(anchorPos, Scale(Scale(dir, dist), 0.5))
  }

  /**
   * h with the tangents of anchor a on the first `sides` sides (0, 1 or 2)
   * moved to their smoothed positions, in the order the editor writes them;
   * every target is computed from the handles before the first write.
   */
  function Smoothed(normalized: Vec3 -> Vec3, magnitude: Vec3 -> real,
                    h: seq<Vec3>, loop: bool, a: int, sides: int): (r: seq<Vec3>)
    requires |h| >= 3 && 0 <= a < |h| && 0 <= sides <= 2
    ensures |r| == |h|
    decreases sides
  {
    if sides == 0 then h
    else
      var k := a + 2 * (sides - 1) - 1;
      var r := Smoothed(normalized, magnitude, h, loop, a, sides - 1);
      if 0 <= k < |h| || loop then r[Wrap(|h|, k) := TangentTarget(normalized, magnitude, h, loop, a, sides - 1)] else r
  }

  /**
   * Smoothing anchor a sets each of its existing tangents (wrapping around a
   * loop) to its target and changes no other handle; in particular no
   * anchor moves.
   */
  lemma {:induction false} SmoothedTangents(normalized: Vec3 -> Vec3, magnitude: Vec3 -> real,
                                            h: seq<Vec3>, loop: bool, a: int)
    requires HandleLayout(|h|, loop) && 0 <= a < |h| && a % 3 == 0
    ensures (0 <= a - 1 < |h| || loop) ==>
      Smoothed(normalized, magnitude, h, loop, a, 2)[Wrap(|h|, a - 1)] == TangentTarget(normalized, magnitude, h, loop, a, 0)
    ensures (a + 1 < |h| || loop) ==>
      Smoothed(normalized, magnitude, h, loop, a, 2)[Wrap(|h|, a + 1)] == TangentTarget(normalized, magnitude, h, loop, a, 1)
    ensures forall k :: 0 <= k < |h| && Smoothed(normalized, magnitude, h, loop, a, 2)[k] != h[k] ==>
      ((0 <= a - 1 < |h| || loop) && k == Wrap(|h|, a - 1)) || ((a + 1 < |h| || loop) && k == Wrap(|h|, a + 1))
    ensures SameAnchors(Smoothed(normalized, magnitude, h, loop, a, 2), h)
  {
    TangentSlots(|h|, loop, a);
    var r1 := Smoothed(normalized, magnitude, h, loop, a, 1);
    assert r1 == if 0 <= a - 1 < |h| || loop then h[Wrap(|h|, a - 1) := TangentTarget(normalized, magnitude, h, loop, a, 0)] else h;
  }

  /**
   * The body of anchor smoothing on the handle list: the direction and the two
   * distances are computed from the neighbouring anchors that exist, then
   * each existing tangent is written at anchorPos + dir * dist[side] * 0.5.
   */
  method SmoothTangents(normalized: Vec3 -> Vec3, magnitude: Vec3 -> real,
                        handles: seq<Vec3>, isLoop: bool, a: int) returns (hs: seq<Vec3>)
    requires |handles| >= 3 && 0 <= a < |handles|
    ensures hs == Smoothed(normalized, magnitude, handles, isLoop, a, 2)
  {
    var n := |handles|;
    var anchorPos := handles[a];
    var dir := Zero;
    var dist := [0.0, 0.0];
    if a - 3 >= 0 || isLoop {
      var offset := Sub(handles[Wrap(n, a - 3)], anchorPos);
      dir := Add(dir, normalized(offset));
      dist := dist[0 := magnitude(offset)];
    }
    if a + 3 < n || isLoop {
      var offset := Sub(handles[Wrap(n, a + 3)], anchorPos);
      dir := Sub(dir, normalized(offset));
      dist := dist[1 := -magnitude(offset)];
    }
    dir := normalized(dir);
    assert forall side :: 0 <= side < 2 ==>
      Add(anchorPos, Scale(Scale(dir, dist[side]), 0.5)) == TangentTarget(normalized, magnitude, handles, isLoop, a, side);
    hs := handles;
    for i := 0 to 2
      invariant hs == Smoothed(normalized, magnitude, handles, isLoop, a, i)
    {
      hs := WriteTangent(normalized, magnitude, handles, isLoop, a, hs, i, Add(anchorPos, Scale(Scale(dir, dist[i]), 0.5)));
    }
  }

  /** One pass of the writing loop of SmoothTangents: side i's tangent, if it exists, gets its target. */
  method WriteTangent(normalized: Vec3 -> Vec3, magnitude: Vec3 -> real, handles: seq<Vec3>, isLoop: bool, a: int,
                      hs: seq<Vec3>, i: int, target: Vec3) returns (hs': seq<Vec3>)
    requires |handles| >= 3 && 0 <= a < |handles| && 0 <= i < 2
    requires hs == Smoothed(normalized, magnitude, handles, isLoop, a, i)
    requires target == TangentTarget(normalized, magnitude, handles, isLoop, a, i)
    ensures hs' == Smoothed(normalized, magnitude, handles, isLoop, a, i + 1)
  {
    var handleIndex := a + i * 2 - 1;
    hs' := hs;
    if (0 <= handleIndex < |handles|) || isLoop {
      hs' := hs[Wrap(|handles|, handleIndex) := target];
    }
  }

  /**
   * The end-tangent rule of an open path: tangent 1 goes halfway between
   * anchor 0 and tangent 2, then tangent n-2 halfway between the last anchor
   * and tangent n-3 (which, on a one-segment path, is the tangent just
   * written).
   */
  function EndsSmoothed(h: seq<Vec3>): (r: seq<Vec3>)
    requires |h| >= 4
    ensures |r| == |h|
  {
    var h1 := h[1 := Scale(Add(h[0], h[2]), 0.5)];
    h1[|h| - 2 := Scale(Add(h1[|h| - 1], h1[|h| - 3]), 0.5)]
  }

  function Midpoint(a: Vec3, b: Vec3): Vec3 {
    Scale(Add(a, b), 0.5)
  }

  /**
   * On a path of two or more segments each end tangent becomes the midpoint
   * of its anchor and the other tangent of its segment; on a single segment
   * the second write sees the first. Nothing else changes.
   */
  lemma EndTangentsAreMidpoints(h: seq<Vec3>)
    requires HandleLayout(|h|, false)
    ensures |h| >= 7 ==> EndsSmoothed(h)[1] == Midpoint(h[0], h[2])
    ensures |h| >= 7 ==> EndsSmoothed(h)[|h| - 2] == Midpoint(h[|h| - 1], h[|h| - 3])
    ensures |h| == 4 ==> EndsSmoothed(h)[1] == Midpoint(h[0], h[2]) &&
                         EndsSmoothed(h)[2] == Midpoint(h[3], Midpoint(h[0], h[2]))
    ensures forall k :: 0 <= k < |h| && k != 1 && k != |h| - 2 ==> EndsSmoothed(h)[k] == h[k]
  {
  }

  lemma {:induction false} FreshAfterEndsSmoothed(h: seq<Vec3>, sp: seq<Vec3>, p: nat, X: set<int>)
    requires HandleLayout(|h|, false) && FreshExcept(h, sp, p, X)
    ensures SameAnchors(EndsSmoothed(h), h)
    ensures FreshExcept(EndsSmoothed(h), sp, p, X + {0, |h| / 3 - 1})
  {
    var n := |h|;
    var h1 := h[1 := Scale(Add(h[0], h[2]), 0.5)];
    FreshAfterWrite(h, sp, p, X, 1, Scale(Add(h[0], h[2]), 0.5));
    TouchedTangent(n, 1);
    FreshAfterWrite(h1, sp, p, X + {0}, n - 2, Scale(Add(h1[n - 1], h1[n - 3]), 0.5));
    TouchedTangent(n, n - 2);
    FreshMonotone(EndsSmoothed(h), sp, p, X + {0} + {n / 3 - 1}, X + {0, n / 3 - 1});
  }

  // ---------------------------------------------------------------------------
  // Smoothing several anchors in turn
  // ---------------------------------------------------------------------------

  /**
   * h with anchors lo, lo + 3, ... below hi smoothed one after another, each
   * one only if it exists (0 <= j < |h|, or any j on a loop, wrapped).
   */
  function SmoothedRange(normalized: Vec3 -> Vec3, magnitude: Vec3 -> real,
                         h: seq<Vec3>, loop: bool, lo: int, hi: int): (r: seq<Vec3>)
    requires |h| >= 3 && lo >= -|h|
    ensures |r| == |h|
    decreases hi - lo
  {
    if hi < lo + 3 then h
    else AnchorSmoothed(normalized, magnitude, SmoothedRange(normalized, magnitude, h, loop, lo, hi - 3), loop, hi - 3)
  }

  /** h with anchor index i, wrapped, smoothed if it exists. */
  function AnchorSmoothed(normalized: Vec3 -> Vec3, magnitude: Vec3 -> real,
                          h: seq<Vec3>, loop: bool, i: int): (r: seq<Vec3>)
    requires |h| >= 3 && i >= -|h|
    ensures |r| == |h|
  {
    if 0 <= i < |h| || loop then Smoothed(normalized, magnitude, h, loop, Wrap(|h|, i), 2) else h
  }

  /** The anchor index that step j of a smoothing loop starting at lo visits. */
  function StepAnchor(lo: int, j: int): int {
    lo + 3 * j
  }

  lemma StepAnchorIsAnchor(lo: int, j: int)
    requires lo % 3 == 0
    ensures StepAnchor(lo, j) % 3 == 0
  {
  }

  /**
   * tr lists the handle lists that a loop smoothing anchors lo, lo + 3, ...
   * passes through, one step per entry. The steps are triggered only by
   * StepAnchor, so that they come into view where a step is taken.
   */
  ghost predicate SmoothingTrace(normalized: Vec3 -> Vec3, magnitude: Vec3 -> real,
                                 tr: seq<seq<Vec3>>, loop: bool, lo: int)
  {
    |tr| > 0 && |tr[0]| >= 3 && lo >= -|tr[0]| && lo % 3 == 0 &&
    (forall j :: 0 <= j < |tr| ==> |tr[j]| == |tr[0]|) &&
    forall j {:trigger StepAnchor(lo, j)} :: 0 <= j < |tr| - 1 ==>
      tr[j + 1] == AnchorSmoothed(normalized, magnitude, tr[j], loop, StepAnchor(lo, j))
  }

  /** The trace of the smoothing steps from lo up to hi ends at SmoothedRange. */
  lemma {:induction false} TraceOf(normalized: Vec3 -> Vec3, magnitude: Vec3 -> real,
                                   h: seq<Vec3>, loop: bool, lo: int, hi: int) returns (tr: seq<seq<Vec3>>)
    requires |h| >= 3 && lo >= -|h| && lo % 3 == 0 && lo <= hi && (hi - lo) % 3 == 0
    ensures SmoothingTrace(normalized, magnitude, tr, loop, lo) && 3 * (|tr| - 1) == hi - lo && tr[0] == h
    ensures tr[|tr| - 1] == SmoothedRange(normalized, magnitude, h, loop, lo, hi)
    decreases hi - lo
  {
    if hi == lo {
      tr := [h];
    } else {
      var t := TraceOf(normalized, magnitude, h, loop, lo, hi - 3);
      assert StepAnchor(lo, |t| - 1) == hi - 3;
      var next := AnchorSmoothed(normalized, magnitude, t[|t| - 1], loop, hi - 3);
      TraceExtends(normalized, magnitude, t, loop, lo, next);
      tr := t + [next];
    }
  }

  /** A trace followed by its next step is a trace. */
  lemma TraceExtends(normalized: Vec3 -> Vec3, magnitude: Vec3 -> real,
                     t: seq<seq<Vec3>>, loop: bool, lo: int, next: seq<Vec3>)
    requires SmoothingTrace(normalized, magnitude, t, loop, lo)
    requires next == AnchorSmoothed(normalized, magnitude, t[|t| - 1], loop, StepAnchor(lo, |t| - 1))
    ensures SmoothingTrace(normalized, magnitude, t + [next], loop, lo)
  {
    var tr := t + [next];
    forall j | 0 <= j < |tr| - 1
      ensures tr[j + 1] == AnchorSmoothed(normalized, magnitude, tr[j], loop, StepAnchor(lo, j))
    {
      assert tr[j] == t[j];
      if j + 1 < |t| {
        assert tr[j + 1] == t[j + 1];
      }
    }
  }

  /**
   * The neighbourhood rule of smooth mode: the anchors before, at and after
   * c that exist are smoothed in that order, then, on an open path, the two
   * end tangents.
   */
  function NeighbourhoodSmoothed(normalized: Vec3 -> Vec3, magnitude: Vec3 -> real,
                                 h: seq<Vec3>, loop: bool, c: int): (r: seq<Vec3>)
    requires |h| >= 4 && c >= 0
    ensures |r| == |h|
  {
    var s := SmoothedRange(normalized, magnitude, h, loop, c - 3, c + 6);
    if loop then s else EndsSmoothed(s)
  }

  /** The trace of a loop smoothing the anchors around c, and how it ends in NeighbourhoodSmoothed. */
  lemma NeighbourhoodTrace(normalized: Vec3 -> Vec3, magnitude: Vec3 -> real, h: seq<Vec3>, loop: bool, c: int)
    returns (tr: seq<seq<Vec3>>)
    requires |h| >= 4 && c >= 0 && c % 3 == 0
    ensures SmoothingTrace(normalized, magnitude, tr, loop, c - 3) && |tr| == 4 && tr[0] == h
    ensures NeighbourhoodSmoothed(normalized, magnitude, h, loop, c) == if loop then tr[3] else EndsSmoothed(tr[3])
  {
    tr := TraceOf(normalized, magnitude, h, loop, c - 3, c + 6);
  }

  /** Anchor m of a loop over every third handle: its index, and the bound the loop stops at. */
  lemma AnchorCount(n: int, m: int)
    requires 0 <= m
    ensures (3 * m) % 3 == 0
    ensures 3 * m < n ==> m < (n + 2) / 3
    ensures m <= (n + 2) / 3 ==> 3 * m < n + 3
    ensures n <= 3 * m < n + 3 ==> m == (n + 2) / 3
  {
  }

  /** Every anchor smoothed, first to last, then, on an open path, the two end tangents. */
  function AllSmoothed(normalized: Vec3 -> Vec3, magnitude: Vec3 -> real,
                       h: seq<Vec3>, loop: bool): (r: seq<Vec3>)
    requires |h| >= 4
    ensures |r| == |h|
  {
    var s := SmoothedRange(normalized, magnitude, h, loop, 0, 3 * ((|h| + 2) / 3));
    if loop then s else EndsSmoothed(s)
  }

  /** The trace of a loop smoothing every anchor, and how it ends in AllSmoothed. */
  lemma AllSmoothedTrace(normalized: Vec3 -> Vec3, magnitude: Vec3 -> real, h: seq<Vec3>, loop: bool)
    returns (tr: seq<seq<Vec3>>)
    requires HandleLayout(|h|, loop)
    ensures SmoothingTrace(normalized, magnitude, tr, loop, 0) && |tr| == (|h| + 2) / 3 + 1 && tr[0] == h
    ensures AllSmoothed(normalized, magnitude, h, loop) == if loop then tr[|tr| - 1] else EndsSmoothed(tr[|tr| - 1])
  {
    tr := TraceOf(normalized, magnitude, h, loop, 0, 3 * ((|h| + 2) / 3));
  }

  /** The tangent slots of anchor index j, if the anchor exists: the handles written by smoothing it. */
  function AnchorTangents(n: int, loop: bool, j: int): set<int>
    requires n > 0 && j >= -n
  {
    if 0 <= j < n || loop then
      var a := Wrap(n, j);
      (if 0 <= a - 1 < n || loop then {Wrap(n, a - 1)} else {}) +
      (if a + 1 < n || loop then {Wrap(n, a + 1)} else {})
    else {}
  }

  /** The tangent slots of the existing anchors lo, lo + 3, ... below hi. */
  function RangeTangents(n: int, loop: bool, lo: int, hi: int): set<int>
    requires n > 0 && lo >= -n
    decreases hi - lo
  {
    if hi < lo + 3 then {} else RangeTangents(n, loop, lo, hi - 3) + AnchorTangents(n, loop, hi - 3)
  }

  /** Each step of tr keeps the anchors and writes only the tangent slots of the anchor it visits. */
  ghost predicate StepFrames(tr: seq<seq<Vec3>>, loop: bool, lo: int) {
    |tr| > 0 && |tr[0]| > 0 && lo >= -|tr[0]| &&
    forall j {:trigger StepAnchor(lo, j)} :: 0 <= j < |tr| - 1 ==>
      SameAnchors(tr[j + 1], tr[j]) &&
      forall k :: 0 <= k < |tr[j]| && tr[j + 1][k] != tr[j][k] ==> k in AnchorTangents(|tr[0]|, loop, StepAnchor(lo, j))
  }

  lemma TraceStepFrames(normalized: Vec3 -> Vec3, magnitude: Vec3 -> real, tr: seq<seq<Vec3>>, loop: bool, lo: int)
    requires SmoothingTrace(normalized, magnitude, tr, loop, lo) && HandleLayout(|tr[0]|, loop)
    requires loop ==> lo + 3 * (|tr| - 1) <= 2 * |tr[0]|
    ensures StepFrames(tr, loop, lo)
  {
    forall j | 0 <= j < |tr| - 1
      ensures SameAnchors(tr[j + 1], tr[j]) &&
        forall k :: 0 <= k < |tr[j]| && tr[j + 1][k] != tr[j][k] ==> k in AnchorTangents(|tr[0]|, loop, StepAnchor(lo, j))
    {
      StepAnchorIsAnchor(lo, j);
      AnchorSmoothedFrame(normalized, magnitude, tr[j], loop, StepAnchor(lo, j));
    }
  }

  /** The entry m steps along a trace keeps the first entry's anchors and differs from it only in the tangent slots visited. */
  lemma {:induction false} TraceFrame(tr: seq<seq<Vec3>>, loop: bool, lo: int, m: int)
    requires StepFrames(tr, loop, lo) && 0 <= m < |tr|
    requires forall j :: 0 <= j < |tr| ==> |tr[j]| == |tr[0]|
    ensures SameAnchors(tr[m], tr[0])
    ensures forall k :: 0 <= k < |tr[0]| && tr[m][k] != tr[0][k] ==> k in RangeTangents(|tr[0]|, loop, lo, lo + 3 * m)
    decreases m
  {
    if m > 0 {
      TraceFrame(tr, loop, lo, m - 1);
      var j := StepAnchor(lo, m - 1);
      FrameCompose(tr[0], tr[m - 1], tr[m], RangeTangents(|tr[0]|, loop, lo, j), AnchorTangents(|tr[0]|, loop, j));
    }
  }

  /** Two edits that each keep the anchors and write only A and then B keep the anchors and write only A + B. */
  lemma FrameCompose(h: seq<Vec3>, r: seq<Vec3>, r': seq<Vec3>, A: set<int>, B: set<int>)
    requires SameAnchors(r, h) && SameAnchors(r', r)
    requires forall k :: 0 <= k < |h| && r[k] != h[k] ==> k in A
    requires forall k :: 0 <= k < |r| && r'[k] != r[k] ==> k in B
    ensures SameAnchors(r', h)
    ensures forall k :: 0 <= k < |h| && r'[k] != h[k] ==> k in A + B
  {
    SameAnchorsTrans(r', r, h);
  }

  /** Smoothing one anchor, if it exists, moves no anchor and writes only its tangent slots. */
  lemma AnchorSmoothedFrame(normalized: Vec3 -> Vec3, magnitude: Vec3 -> real, h: seq<Vec3>, loop: bool, j: int)
    requires HandleLayout(|h|, loop) && j >= -|h| && j % 3 == 0 && (loop ==> j < 2 * |h|)
    ensures var r := AnchorSmoothed(normalized, magnitude, h, loop, j);
      SameAnchors(r, h) &&
      forall k :: 0 <= k < |h| && r[k] != h[k] ==> k in AnchorTangents(|h|, loop, j)
  {
    var n := |h|;
    if 0 <= j < n || loop {
      WrapOfAnchor(n, loop, j);
      SmoothedTangents(normalized, magnitude, h, loop, Wrap(n, j));
    }
  }

  /**
   * Neighbourhood smoothing moves no anchor, and writes only the tangent
   * slots of the anchors before, at and after c and, on an open path, the
   * two end tangents.
   */
  lemma NeighbourhoodSmoothedFrame(normalized: Vec3 -> Vec3, magnitude: Vec3 -> real,
                                   h: seq<Vec3>, loop: bool, c: int)
    requires HandleLayout(|h|, loop) && c >= 0 && c % 3 == 0 && (loop ==> c <= |h|)
    ensures var r := NeighbourhoodSmoothed(normalized, magnitude, h, loop, c);
      SameAnchors(r, h) &&
      forall k :: 0 <= k < |h| && r[k] != h[k] ==>
        k in AnchorTangents(|h|, loop, c - 3) + AnchorTangents(|h|, loop, c) + AnchorTangents(|h|, loop, c + 3) ||
        (!loop && (k == 1 || k == |h| - 2))
  {
    var tr := NeighbourhoodTrace(normalized, magnitude, h, loop, c);
    TraceStepFrames(normalized, magnitude, tr, loop, c - 3);
    NeighbourhoodTraceFrame(tr, loop, c);
  }

  /** The frame of a three-step trace around c followed, on an open path, by end smoothing. */
  lemma NeighbourhoodTraceFrame(tr: seq<seq<Vec3>>, loop: bool, c: int)
    requires StepFrames(tr, loop, c - 3) && |tr| == 4 && HandleLayout(|tr[0]|, loop)
    requires forall j :: 0 <= j < |tr| ==> |tr[j]| == |tr[0]|
    ensures var h, r := tr[0], if loop then tr[3] else EndsSmoothed(tr[3]);
      SameAnchors(r, h) &&
      forall k :: 0 <= k < |h| && r[k] != h[k] ==>
        k in AnchorTangents(|h|, loop, c - 3) + AnchorTangents(|h|, loop, c) + AnchorTangents(|h|, loop, c + 3) ||
        (!loop && (k == 1 || k == |h| - 2))
  {
    TraceFrame(tr, loop, c - 3, 3);
    var h, s := tr[0], tr[3];
    var n := |h|;
    assert RangeTangents(n, loop, c - 3, c) == AnchorTangents(n, loop, c - 3) by {
      assert RangeTangents(n, loop, c - 3, c - 3) == {};
    }
    assert RangeTangents(n, loop, c - 3, c + 6) ==
      AnchorTangents(n, loop, c - 3) + AnchorTangents(n, loop, c) + AnchorTangents(n, loop, c + 3) by {
      assert RangeTangents(n, loop, c - 3, c + 3) == RangeTangents(n, loop, c - 3, c) + AnchorTangents(n, loop, c);
    }
    if !loop {
      EndTangentsAreMidpoints(s);
      EndsSmoothedKeepsAnchors(s);
      SameAnchorsTrans(EndsSmoothed(s), s, h);
    }
  }


  /**
   * The closing rule of smooth mode: once a loop is closed, its first
   * anchor and then its last are smoothed.
   */
  function ClosingSmoothed(normalized: Vec3 -> Vec3, magnitude: Vec3 -> real, h: seq<Vec3>): (r: seq<Vec3>)
    requires HandleLayout(|h|, true)
    ensures |r| == |h|
  {
    Smoothed(normalized, magnitude, Smoothed(normalized, magnitude, h, true, 0, 2), true, |h| - 3, 2)
  }

  /**
   * Closing smoothing moves no anchor and writes only the tangents on either
   * side of the first and of the last anchor.
   */
  lemma ClosingSmoothedFrame(normalized: Vec3 -> Vec3, magnitude: Vec3 -> real, h: seq<Vec3>)
    requires HandleLayout(|h|, true)
    ensures var r := ClosingSmoothed(normalized, magnitude, h);
      SameAnchors(r, h) &&
      forall k :: 0 <= k < |h| && r[k] != h[k] ==> k in {1, |h| - 4, |h| - 2, |h| - 1}
  {
    var n := |h|;
    var h1 := Smoothed(normalized, magnitude, h, true, 0, 2);
    assert AnchorSmoothed(normalized, magnitude, h, true, 0) == h1;
    assert AnchorSmoothed(normalized, magnitude, h1, true, n - 3) == ClosingSmoothed(normalized, magnitude, h);
    AnchorSmoothedFrame(normalized, magnitude, h, true, 0);
    AnchorSmoothedFrame(normalized, magnitude, h1, true, n - 3);
    FrameCompose(h, h1, ClosingSmoothed(normalized, magnitude, h), AnchorTangents(n, true, 0), AnchorTangents(n, true, n - 3));
  }

  /** Smoothing every anchor moves none of them. */
  lemma AllSmoothedKeepsAnchors(normalized: Vec3 -> Vec3, magnitude: Vec3 -> real, h: seq<Vec3>, loop: bool)
    requires HandleLayout(|h|, loop)
    ensures SameAnchors(AllSmoothed(normalized, magnitude, h, loop), h)
  {
    var tr := AllSmoothedTrace(normalized, magnitude, h, loop);
    AnchorCount(|h|, |tr| - 1);
    TraceStepFrames(normalized, magnitude, tr, loop, 0);
    FullTraceKeepsAnchors(tr, loop);
  }

  /** A trace from anchor 0 followed, on an open path, by end smoothing moves no anchor. */
  lemma FullTraceKeepsAnchors(tr: seq<seq<Vec3>>, loop: bool)
    requires StepFrames(tr, loop, 0) && HandleLayout(|tr[0]|, loop)
    requires forall j :: 0 <= j < |tr| ==> |tr[j]| == |tr[0]|
    ensures SameAnchors(if loop then tr[|tr| - 1] else EndsSmoothed(tr[|tr| - 1]), tr[0])
  {
    TraceFrame(tr, loop, 0, |tr| - 1);
    var s := tr[|tr| - 1];
    if !loop {
      EndsSmoothedKeepsAnchors(s);
      SameAnchorsTrans(EndsSmoothed(s), s, tr[0]);
    }
  }


  /** End smoothing moves no anchor. */
  lemma EndsSmoothedKeepsAnchors(h: seq<Vec3>)
    requires HandleLayout(|h|, false)
    ensures SameAnchors(EndsSmoothed(h), h)
  {
  }
}
