/**
 * The editable Bezier path: a list of handles (anchor, tangent, tangent,
 * anchor, ...), a flag that closes it into a loop, a flag that keeps every
 * tangent pair smoothed automatically, and a cache of sample points, a fixed
 * number per segment, that the editing operations keep in step with the
 * handles they move.
 *
 * The class invariant Valid() is the handle layout of Sampling.HandleLayout
 * together with a fresh sample cache. Internal steps that move handles
 * before resampling take a ghost set of the segments they may leave stale,
 * and promise which of those are fresh again afterwards.
 */
module Paths {
  import opened Vectors
  import opened Sampling
  import opened SegmentEdits
  import opened Smoothing
  import opened HandleEdits
  import opened Moving

  class Path {
    var handles: seq<Vec3>
    var segmentPoints: seq<Vec3>
    var pointsBySegment: int
    var isLoop: bool
    var isSmooth: bool
    /** The engine's vector normalisation and length, left uninterpreted. */
    const normalized: Vec3 -> Vec3
    const magnitude: Vec3 -> real

    /** Handle layout and sample-list length, without the freshness of the samples. */
    ghost predicate Shape()
      reads this
    {
      pointsBySegment >= 0 && HandleLayout(|handles|, isLoop) &&
      SampleLayout(handles, segmentPoints, pointsBySegment)
    }

    ghost predicate Valid()
      reads this
    {
      Shape() && FreshExcept(handles, segmentPoints, pointsBySegment, {})
    }

    /** A straight two-anchor path centred on center, with 20 samples per segment. */
    constructor (center: Vec3, normalized: Vec3 -> Vec3, magnitude: Vec3 -> real)
      ensures Valid()
      ensures handles == [Add(center, Left), Add(center, Scale(Left, 0.5)), Add(center, Scale(Right, 0.5)), Add(center, Right)]
      ensures pointsBySegment == 20 && !isLoop && !isSmooth
      ensures this.normalized == normalized && this.magnitude == magnitude
    {
      this.normalized := normalized;
      this.magnitude := magnitude;
      pointsBySegment := 20;
      isLoop := false;
      isSmooth := false;
      handles := [Add(center, Left), Add(center, Scale(Left, 0.5)), Add(center, Scale(Right, 0.5)), Add(center, Right)];
      segmentPoints := Zeros(20);
      new;
      UpdateSegmentPoints(0, {0});
    }

    // -------------------------------------------------------------------------
    // Readers
    // -------------------------------------------------------------------------

    /** The handle count is three per segment, plus the final anchor of an open path. */
    function NumSegments(): (r: int)
      reads this
      ensures HandleLayout(|handles|, isLoop) ==>
        r >= (if isLoop then 2 else 1) && |handles| == (if isLoop then 3 * r else 3 * r + 1)
    {
      |handles| / 3
    }

    /** A handle index taken modulo the handle count, for indices down to minus the count. */
    function LoopHandle(i: int): (r: int)
      reads this
      requires |handles| > 0 && i >= -|handles|
      ensures 0 <= r < |handles|
      ensures 0 <= i < |handles| ==> r == i
      ensures i < 0 ==> r == i + |handles|
      ensures |handles| <= i < 2 * |handles| ==> r == i - |handles|
    {
      Wrap(|handles|, i)
    }

    /** A segment index taken modulo the segment count, for indices down to minus the count. */
    function LoopSegment(i: int): (r: int)
      reads this
      requires NumSegments() > 0 && i >= -NumSegments()
      ensures 0 <= r < NumSegments()
      ensures 0 <= i < NumSegments() ==> r == i
      ensures i < 0 ==> r == i + NumSegments()
      ensures NumSegments() <= i < 2 * NumSegments() ==> r == i - NumSegments()
    {
      Wrap(NumSegments(), i)
    }

    /** The indexer: handle i, wrapping around the handle list. */
    function At(i: int): (v: Vec3)
      reads this
      requires |handles| > 0 && i >= -|handles|
      ensures v in handles
      ensures 0 <= i < |handles| ==> v == handles[i]
      ensures i < 0 ==> v == handles[i + |handles|]
      ensures |handles| <= i < 2 * |handles| ==> v == handles[i - |handles|]
    {
      handles[LoopHandle(i)]
    }

    /** The four control points of segment i; a loop's last segment ends on handle 0. */
    function GetSegmentHandles(i: int): (q: seq<Vec3>)
      reads this
      requires 0 <= i && 3 * i + 2 < |handles|
      ensures |q| == 4 && q[..3] == handles[3 * i .. 3 * i + 3]
      ensures 3 * i + 3 < |handles| ==> q[3] == handles[3 * i + 3]
      ensures 3 * i + 3 == |handles| ==> q[3] == handles[0]
    {
      Quad(handles, i)
    }

    /** The p cached samples of segment i. */
    function GetSegmentPoints(i: int): (r: seq<Vec3>)
      reads this
      requires 0 <= pointsBySegment && 0 <= i * pointsBySegment
      requires i * pointsBySegment + pointsBySegment <= |segmentPoints|
      ensures |r| == pointsBySegment
      ensures forall j :: 0 <= j < pointsBySegment ==> r[j] == segmentPoints[i * pointsBySegment + j]
    {
      segmentPoints[i * pointsBySegment .. i * pointsBySegment + pointsBySegment]
    }

    /**
     * In a valid path, sample j of segment i is the segment's curve at
     * t = (j + 1) / (p + 1): p points strictly inside the segment, evenly
     * spaced in t.
     */
    lemma SamplesOnCurve(i: int)
      requires Valid() && 0 <= i < NumSegments()
      ensures 0 <= i * pointsBySegment && i * pointsBySegment + pointsBySegment <= |segmentPoints|
      ensures forall j :: 0 <= j < pointsBySegment ==>
        GetSegmentPoints(i)[j] == BezierPoint(GetSegmentHandles(i), SampleParam(pointsBySegment, j)) &&
        0.0 < SampleParam(pointsBySegment, j) < 1.0
    {
      assert BlockOk(handles, segmentPoints, pointsBySegment, i);
      forall j | 0 <= j < pointsBySegment
        ensures 0.0 < SampleParam(pointsBySegment, j) < 1.0
      {
        SampleParamInside(pointsBySegment, j);
      }
    }

    // -------------------------------------------------------------------------
    // Resampling
    // -------------------------------------------------------------------------

    /** Recomputes the samples of segment i from its current handles. */
    method UpdateSegmentPoints(i: int, ghost X: set<int>)
      requires Shape() && 0 <= i < NumSegments()
      requires FreshExcept(handles, segmentPoints, pointsBySegment, X)
      modifies this
      ensures Shape() && handles == old(handles) && pointsBySegment == old(pointsBySegment)
      ensures isLoop == old(isLoop) && isSmooth == old(isSmooth)
      ensures 0 <= i * pointsBySegment && i * pointsBySegment + pointsBySegment <= |old(segmentPoints)|
      ensures segmentPoints == Overwrite(old(segmentPoints), pointsBySegment, i, SegmentSamples(Quad(handles, i), pointsBySegment))
      ensures FreshExcept(handles, segmentPoints, pointsBySegment, X - {i})
      ensures i !in X ==> segmentPoints == old(segmentPoints)
    {
      var p := pointsBySegment;
      FreshAfterUpdate(handles, segmentPoints, p, X, i);
      if i !in X {
        UpdateOfFreshIsIdentity(handles, segmentPoints, p, X, i);
      }
      var q := GetSegmentHandles(i);
      ghost var s := SegmentSamples(q, p);
      var base := i * p;
      var points := segmentPoints;
      var j := 0;
      while j < p
        invariant 0 <= j <= p
        invariant |points| == |segmentPoints|
        invariant forall k :: 0 <= k < |points| ==>
          points[k] == if base <= k < base + j then s[k - base] else segmentPoints[k]
      {
        var t := (1.0 / ((p + 1) as real)) * ((j + 1) as real);
        assert t == SampleParam(p, j);
        points := points[base + j := BezierPoint(q, t)];
        j := j + 1;
      }
      assert points == Overwrite(segmentPoints, p, i, s);
      segmentPoints := points;
    }

    /** Recomputes every segment's samples. */
    method UpdateAllSegmentsPoints()
      requires Shape()
      modifies this
      ensures Valid() && handles == old(handles) && pointsBySegment == old(pointsBySegment)
      ensures isLoop == old(isLoop) && isSmooth == old(isSmooth)
    {
      forall j | 0 <= j < NumSegments() ensures j in Upward(0, NumSegments()) {
        UpwardMembers(0, NumSegments(), j);
      }
      var i := 0;
      while i < NumSegments()
        invariant 0 <= i <= NumSegments()
        invariant Shape() && handles == old(handles) && pointsBySegment == old(pointsBySegment)
        invariant isLoop == old(isLoop) && isSmooth == old(isSmooth)
        invariant FreshExcept(handles, segmentPoints, pointsBySegment, Upward(i, NumSegments()))
      {
        UpdateSegmentPoints(i, Upward(i, NumSegments()));
        UpwardStep(i, NumSegments());
        i := i + 1;
      }
    }

    // -------------------------------------------------------------------------
    // Smoothing
    // -------------------------------------------------------------------------

    /**
     * Aligns the two tangents of anchor a and resamples both segments at a.
     * Only those two tangents change: the anchors stay where they are.
     */
    method SmoothAnchor(a: int, ghost X: set<int>)
      requires Shape() && 0 <= a < |handles| && a % 3 == 0
      requires FreshExcept(handles, segmentPoints, pointsBySegment, X)
      modifies this
      ensures Shape() && pointsBySegment == old(pointsBySegment)
      ensures isLoop == old(isLoop) && isSmooth == old(isSmooth)
      ensures handles == Smoothed(normalized, magnitude, old(handles), isLoop, a, 2)
      ensures SameAnchors(handles, old(handles))
      ensures FreshExcept(handles, segmentPoints, pointsBySegment, X - AnchorSegments(|handles|, a))
    {
      var n := |handles|;
      ghost var h0 := handles;
      ghost var Y := X + AnchorSegments(n, a);
      var hs := SmoothTangents(normalized, magnitude, handles, isLoop, a);
      SmoothedTangents(normalized, magnitude, h0, isLoop, a);
      FreshAfterNeighbourhoodWrites(h0, hs, segmentPoints, pointsBySegment, X, a, isLoop);
      NeighbourhoodTouched(n, isLoop, a, 0);
      FreshMonotone(hs, segmentPoints, pointsBySegment, X + AdjacentSegments(n, isLoop, a), Y);
      handles := hs;
      var next := LoopSegment(a / 3);
      var prev := LoopSegment(a / 3 - 1);
      UpdateSegmentPoints(next, Y);
      UpdateSegmentPoints(prev, Y - {next});
      assert AnchorSegments(n, a) == {next, prev};
      FreshMonotone(handles, segmentPoints, pointsBySegment, Y - {next} - {prev}, X - AnchorSegments(n, a));
    }

    /** On an open path, re-derives both end tangents from their neighbours. */
    method SmoothStartAndEndHandles(ghost X: set<int>)
      requires Shape() && FreshExcept(handles, segmentPoints, pointsBySegment, X)
      requires X <= (if isLoop then {} else {0, NumSegments() - 1})
      modifies this
      ensures Valid() && pointsBySegment == old(pointsBySegment)
      ensures isLoop == old(isLoop) && isSmooth == old(isSmooth)
      ensures handles == if isLoop then old(handles) else EndsSmoothed(old(handles))
      ensures SameAnchors(handles, old(handles))
      ensures isLoop ==> segmentPoints == old(segmentPoints)
    {
      if !isLoop {
        ghost var h0 := handles;
        FreshAfterEndsSmoothed(handles, segmentPoints, pointsBySegment, X);
        handles := handles[1 := Scale(Add(handles[0], handles[2]), 0.5)];
        handles := handles[|handles| - 2 := Scale(Add(handles[|handles| - 1], handles[|handles| - 3]), 0.5)];
        assert handles == EndsSmoothed(h0);
        var last := NumSegments() - 1;
        ghost var Y := X + {0, last};
        UpdateSegmentPoints(0, Y);
        UpdateSegmentPoints(last, Y - {0});
        FreshMonotone(handles, segmentPoints, pointsBySegment, Y - {0} - {last}, {});
      } else {
        FreshMonotone(handles, segmentPoints, pointsBySegment, X, {});
      }
    }

    /**
     * One step of a smoothing loop that follows the trace tr from anchor lo:
     * smooths anchor i, wrapped, when it exists, and so reaches entry k + 1.
     */
    method SmoothTraceStep(ghost tr: seq<seq<Vec3>>, ghost lo: int, ghost k: int, i: int, ghost stale: set<int>)
      requires Shape() && SmoothingTrace(normalized, magnitude, tr, isLoop, lo)
      requires 0 <= k < |tr| - 1 && handles == tr[k] && i == lo + 3 * k
      requires isLoop ==> i < 2 * |handles|
      requires FreshExcept(handles, segmentPoints, pointsBySegment, stale)
      modifies this
      ensures Shape() && pointsBySegment == old(pointsBySegment) && handles == tr[k + 1]
      ensures |handles| == old(|handles|)
      ensures FreshExcept(handles, segmentPoints, pointsBySegment, StaleAfter(stale, |handles|, isLoop, i))
      ensures isLoop == old(isLoop) && isSmooth == old(isSmooth)
    {
      ghost var n := |handles|;
      assert StepAnchor(lo, k) == i;
      StepAnchorIsAnchor(lo, k);
      if (0 <= i < |handles|) || isLoop {
        WrapOfAnchor(n, isLoop, i);
        SmoothAnchor(LoopHandle(i), stale);
      }
    }

    /**
     * Step k of the loop over the anchors around c: what the caller left
     * stale stays so until the anchor at c (step 1) is smoothed.
     */
    method SmoothNeighbourStep(c: int, ghost X: set<int>, ghost tr: seq<seq<Vec3>>, ghost k: int, i: int)
      requires Shape() && 0 <= c && c % 3 == 0 && (isLoop ==> c <= |handles|)
      requires X <= if c < |handles| || isLoop then AnchorSegments(|handles|, Wrap(|handles|, c)) else {}
      requires SmoothingTrace(normalized, magnitude, tr, isLoop, c - 3) && |tr| == 4
      requires 0 <= k < 3 && i == c - 3 + 3 * k && handles == tr[k]
      requires FreshExcept(handles, segmentPoints, pointsBySegment, Pending(X, c, i))
      modifies this
      ensures Shape() && pointsBySegment == old(pointsBySegment) && handles == tr[k + 1]
      ensures FreshExcept(handles, segmentPoints, pointsBySegment, Pending(X, c, i + 3))
      ensures isLoop == old(isLoop) && isSmooth == old(isSmooth)
    {
      ghost var n := |handles|;
      SmoothTraceStep(tr, c - 3, k, i, Pending(X, c, i));
      NeighbourStepStale(handles, segmentPoints, pointsBySegment, n, isLoop, X, c, k, i);
    }

    /**
     * Smooths the anchors at c - 3, c and c + 3 that exist, wrapping around a
     * loop. X is what the caller left stale: it must be resampled by
     * smoothing the anchor at c.
     */
    method SmoothAnchorsAround(c: int, ghost X: set<int>, ghost tr: seq<seq<Vec3>>)
      requires Shape() && 0 <= c && c % 3 == 0 && (isLoop ==> c <= |handles|)
      requires FreshExcept(handles, segmentPoints, pointsBySegment, X)
      requires X <= if c < |handles| || isLoop then AnchorSegments(|handles|, Wrap(|handles|, c)) else {}
      requires SmoothingTrace(normalized, magnitude, tr, isLoop, c - 3) && |tr| == 4 && tr[0] == handles
      modifies this
      ensures Valid() && pointsBySegment == old(pointsBySegment) && handles == tr[3]
      ensures isLoop == old(isLoop) && isSmooth == old(isSmooth)
    {
      ghost var k := 0;
      var i := c - 3;
      while i <= c + 3
        invariant 0 <= k <= 3 && i == c - 3 + 3 * k
        invariant Shape() && pointsBySegment == old(pointsBySegment) && handles == tr[k]
        invariant FreshExcept(handles, segmentPoints, pointsBySegment, Pending(X, c, i))
        invariant isLoop == old(isLoop) && isSmooth == old(isSmooth)
      {
        SmoothNeighbourStep(c, X, tr, k, i);
        i := i + 3;
        k := k + 1;
      }
    }

    /** Smooths the anchors around c, then the end tangents. */
    method SmoothNeighbourAnchors(c: int, ghost X: set<int>)
      requires Shape() && 0 <= c && c % 3 == 0 && (isLoop ==> c <= |handles|)
      requires FreshExcept(handles, segmentPoints, pointsBySegment, X)
      requires X <= if c < |handles| || isLoop then AnchorSegments(|handles|, Wrap(|handles|, c)) else {}
      modifies this
      ensures Valid() && pointsBySegment == old(pointsBySegment)
      ensures isLoop == old(isLoop) && isSmooth == old(isSmooth)
      ensures handles == NeighbourhoodSmoothed(normalized, magnitude, old(handles), isLoop, c)
      ensures SameAnchors(handles, old(handles))
    {
      ghost var tr := NeighbourhoodTrace(normalized, magnitude, handles, isLoop, c);
      SmoothAnchorsAround(c, X, tr);
      SmoothStartAndEndHandles({});
      NeighbourhoodSmoothedFrame(normalized, magnitude, old(handles), isLoop, c);
    }

    /** Smooths every anchor in order. */
    method SmoothEveryAnchor(ghost tr: seq<seq<Vec3>>)
      requires Valid() && SmoothingTrace(normalized, magnitude, tr, isLoop, 0)
      requires |tr| == (|handles| + 2) / 3 + 1 && tr[0] == handles
      modifies this
      ensures Valid() && pointsBySegment == old(pointsBySegment) && handles == tr[|tr| - 1]
      ensures isLoop == old(isLoop) && isSmooth == old(isSmooth)
    {
      ghost var count := |tr| - 1;
      ghost var m := 0;
      var i := 0;
      while i < |handles|
        invariant i == 3 * m && 0 <= m <= count
        invariant Shape() && pointsBySegment == old(pointsBySegment) && handles == tr[m]
        invariant FreshExcept(handles, segmentPoints, pointsBySegment, {})
        invariant isLoop == old(isLoop) && isSmooth == old(isSmooth)
      {
        AnchorCount(|handles|, m);
        SmoothTraceStep(tr, 0, m, i, {});
        assert StaleAfter({}, |handles|, isLoop, i) == {};
        i := i + 3;
        m := m + 1;
      }
      AnchorCount(|handles|, m);
    }

    /** Smooths every anchor, then the end tangents. */
    method SmoothAllAnchors()
      requires Valid()
      modifies this
      ensures Valid() && pointsBySegment == old(pointsBySegment)
      ensures isLoop == old(isLoop) && isSmooth == old(isSmooth)
      ensures handles == AllSmoothed(normalized, magnitude, old(handles), isLoop)
      ensures SameAnchors(handles, old(handles))
    {
      ghost var tr := AllSmoothedTrace(normalized, magnitude, handles, isLoop);
      SmoothEveryAnchor(tr);
      SmoothStartAndEndHandles({});
      AllSmoothedKeepsAnchors(normalized, magnitude, old(handles), isLoop);
    }

    // -------------------------------------------------------------------------
    // Editing
    // -------------------------------------------------------------------------

    /** The append step of AddSegment: the three new handles and an empty sample block for the new segment. */
    method AppendSegmentHandles(anchorPos: Vec3)
      requires Valid() && !isLoop
      modifies this
      ensures Shape() && pointsBySegment == old(pointsBySegment)
      ensures isLoop == old(isLoop) && isSmooth == old(isSmooth)
      ensures handles == old(handles) + Extension(old(handles), anchorPos)
      ensures Anchors(handles) == Anchors(old(handles)) + [anchorPos]
      ensures NumSegments() == old(NumSegments()) + 1
      ensures FreshExcept(handles, segmentPoints, pointsBySegment, {old(NumSegments())})
    {
      ghost var h0, sp0 := handles, segmentPoints;
      ghost var e := Extension(h0, anchorPos);
      handles := handles + [Sub(Scale(handles[|handles| - 1], 2.0), handles[|handles| - 2])];
      handles := handles + [Scale(Add(handles[|handles| - 1], anchorPos), 0.5)];
      handles := handles + [anchorPos];
      segmentPoints := segmentPoints + Zeros(pointsBySegment);
      assert handles == h0 + e;
      FreshAfterExtend(h0, sp0, pointsBySegment, e);
      AnchorsAfterAppend(h0, e);
    }

    /** Appends a segment from the last anchor of an open path to anchorPos. */
    method AddSegment(anchorPos: Vec3)
      requires Valid() && !isLoop
      modifies this
      ensures Valid() && pointsBySegment == old(pointsBySegment)
      ensures isLoop == old(isLoop) && isSmooth == old(isSmooth)
      ensures |handles| == |old(handles)| + 3
      ensures Anchors(handles) == Anchors(old(handles)) + [anchorPos]
      ensures !isSmooth ==> handles == old(handles) + Extension(old(handles), anchorPos)
      ensures isSmooth ==>
        handles == NeighbourhoodSmoothed(normalized, magnitude, old(handles) + Extension(old(handles), anchorPos), false, |old(handles)| + 2)
    {
      var added := NumSegments();
      AppendSegmentHandles(anchorPos);
      ghost var h1 := handles;
      if isSmooth {
        SmoothNeighbourAnchors(|handles| - (if isLoop then 3 else 1), {added});
        SameAnchorsAnchors(handles, h1);
        UpdateSegmentPoints(NumSegments() - 2, {});
      }
      UpdateSegmentPoints(NumSegments() - 1, if isSmooth then {} else {added});
    }
 
    /** The insertion step of a split: the new handles and an empty sample block for the new segment. */
    method InsertSegmentHandles(anchorPos: Vec3, s: int)
      requires Valid() && 0 <= s < NumSegments()
      modifies this
      ensures Shape() && pointsBySegment == old(pointsBySegment)
      ensures isLoop == old(isLoop) && isSmooth == old(isSmooth)
      ensures handles == Split(old(handles), s, anchorPos)
      ensures FreshExcept(handles, segmentPoints, pointsBySegment, {s, s + 1})
    {
      var p := pointsBySegment;
      FreshAfterInsertSegment(handles, segmentPoints, p, s, [Zero, anchorPos, Zero]);
      handles := handles[..s * 3 + 2] + [Zero, anchorPos, Zero] + handles[s * 3 + 2..];
      segmentPoints := segmentPoints[..s * p] + Zeros(p) + segmentPoints[s * p..];
    }

    /**
     * The smoothing step of a split at anchor c: in smooth mode the whole
     * neighbourhood and the end tangents, otherwise only the tangents of c.
     */
    method SmoothSplitAnchor(c: int, ghost X: set<int>)
      requires Shape() && 0 <= c < |handles| && c % 3 == 0
      requires FreshExcept(handles, segmentPoints, pointsBySegment, X) && X <= AnchorSegments(|handles|, c)
      modifies this
      ensures Valid() && pointsBySegment == old(pointsBySegment)
      ensures isLoop == old(isLoop) && isSmooth == old(isSmooth)
      ensures Anchors(handles) == Anchors(old(handles)) && |handles| == |old(handles)| && handles[c] == old(handles)[c]
      ensures !isSmooth ==> handles == Smoothed(normalized, magnitude, old(handles), isLoop, c, 2)
      ensures isSmooth ==> handles == NeighbourhoodSmoothed(normalized, magnitude, old(handles), isLoop, c)
    {
      if isSmooth {
        SmoothNeighbourAnchors(c, X);
      } else {
        SmoothAnchor(c, X);
        FreshMonotone(handles, segmentPoints, pointsBySegment, X - AnchorSegments(|handles|, c), {});
      }
      SameAnchorsAnchors(handles, old(handles));
    }

    /**
     * Inserts anchor anchorPos in the middle of segment segmentIndex, then
     * smooths around it: just that anchor's tangents, or, in smooth mode,
     * its neighbourhood and the end tangents.
     */
    method SplitSegment(anchorPos: Vec3, segmentIndex: int)
      requires Valid() && 0 <= segmentIndex < NumSegments()
      modifies this
      ensures Valid() && pointsBySegment == old(pointsBySegment)
      ensures isLoop == old(isLoop) && isSmooth == old(isSmooth)
      ensures |handles| == |old(handles)| + 3
      ensures Anchors(handles) == Anchors(old(handles))[..segmentIndex + 1] + [anchorPos] + Anchors(old(handles))[segmentIndex + 1..]
      ensures handles[segmentIndex * 3 + 3] == anchorPos
      ensures !isSmooth ==>
        handles == Smoothed(normalized, magnitude, Split(old(handles), segmentIndex, anchorPos), isLoop, segmentIndex * 3 + 3, 2)
      ensures isSmooth ==>
        handles == NeighbourhoodSmoothed(normalized, magnitude, Split(old(handles), segmentIndex, anchorPos), isLoop, segmentIndex * 3 + 3)
    {
      ghost var h0 := handles;
      var s := segmentIndex;
      InsertSegmentHandles(anchorPos, s);
      AnchorsAfterSplit(h0, s, anchorPos);
      ghost var h1 := handles;
      var c := s * 3 + 3;
      SegmentsAtSplitAnchor(|handles|, s);
      SmoothSplitAnchor(c, {s, s + 1});
    }

    /** Removes the first anchor; a loop first re-links its closing tangent to the next segment's. */
    method RemoveFirstAnchor()
      requires Valid() && (NumSegments() > 2 || (!isLoop && NumSegments() > 1))
      modifies this
      ensures Valid() && pointsBySegment == old(pointsBySegment)
      ensures isLoop == old(isLoop) && isSmooth == old(isSmooth)
      ensures handles == (if isLoop then old(handles)[|old(handles)| - 1 := old(handles)[2]] else old(handles))[3..]
    {
      var p := pointsBySegment;
      FreshAfterRemoveFirst(handles, segmentPoints, p, isLoop);
      if isLoop {
        handles := handles[|handles| - 1 := handles[2]];
      }
      handles := handles[3..];
      segmentPoints := segmentPoints[p..];
      var last := NumSegments() - 1;
      UpdateSegmentPoints(last, {last});
    }

    /** Removes the last anchor of an open path with the two tangents before it. */
    method RemoveLastAnchor()
      requires Valid() && !isLoop && NumSegments() > 1
      modifies this
      ensures Valid() && pointsBySegment == old(pointsBySegment)
      ensures isLoop == old(isLoop) && isSmooth == old(isSmooth)
      ensures handles == old(handles)[..|old(handles)| - 3]
    {
      ghost var h0, sp0 := handles, segmentPoints;
      var p := pointsBySegment;
      var a := |handles| - 1;
      FreshAfterTruncate(h0, sp0, p, |h0| - 3);
      NextBlock(a / 3 - 1, p);
      handles := handles[..a - 2] + handles[a + 1..];
      segmentPoints := segmentPoints[..(a / 3 - 1) * p] + segmentPoints[(a / 3 - 1) * p + p..];
      assert handles == h0[..|h0| - 3];
      assert segmentPoints == sp0[..((|h0| - 3) / 3) * p];
    }

    /** Removes an anchor other than the first (and the last of an open path) with the tangent on either side. */
    method RemoveInteriorAnchor(a: int)
      requires Valid() && a % 3 == 0 && 3 <= a && a + 3 <= |handles| && |handles| >= 7
      modifies this
      ensures Valid() && pointsBySegment == old(pointsBySegment)
      ensures isLoop == old(isLoop) && isSmooth == old(isSmooth)
      ensures handles == old(handles)[..a - 1] + old(handles)[a + 2..]
    {
      var p := pointsBySegment;
      FreshAfterRemoveInterior(handles, segmentPoints, p, a);
      handles := handles[..a - 1] + handles[a + 2..];
      segmentPoints := segmentPoints[..a / 3 * p] + segmentPoints[a / 3 * p + p..];
      var before := a / 3 - 1;
      UpdateSegmentPoints(before, {before});
    }

    /** The removal step of a delete, in the three cases of Anchors.RemovedAnchor. */
    method RemoveAnchor(anchorIndex: int)
      requires Valid() && 0 <= anchorIndex < |handles| && anchorIndex % 3 == 0
      requires NumSegments() > 2 || (!isLoop && NumSegments() > 1)
      modifies this
      ensures Valid() && pointsBySegment == old(pointsBySegment)
      ensures isLoop == old(isLoop) && isSmooth == old(isSmooth)
      ensures handles == RemovedAnchor(old(handles), isLoop, anchorIndex)
      ensures Anchors(handles) == Anchors(old(handles))[..anchorIndex / 3] + Anchors(old(handles))[anchorIndex / 3 + 1..]
    {
      AnchorsAfterDelete(handles, isLoop, anchorIndex);
      if anchorIndex == 0 {
        RemoveFirstAnchor();
      } else if anchorIndex == |handles| - 1 && !isLoop {
        RemoveLastAnchor();
      } else {
        RemoveInteriorAnchor(anchorIndex);
      }
    }

    /**
     * Deletes the anchor at anchorIndex with its two tangents, when the path
     * keeps at least one segment (two on a loop); otherwise nothing changes.
     */
    method DeleteSegment(anchorIndex: int)
      requires Valid() && 0 <= anchorIndex < |handles| && anchorIndex % 3 == 0
      modifies this
      ensures Valid() && pointsBySegment == old(pointsBySegment)
      ensures isLoop == old(isLoop) && isSmooth == old(isSmooth)
      ensures !(old(NumSegments()) > 2 || (!isLoop && old(NumSegments()) > 1)) ==>
        handles == old(handles) && segmentPoints == old(segmentPoints)
      ensures (old(NumSegments()) > 2 || (!isLoop && old(NumSegments()) > 1)) ==>
        |handles| == |old(handles)| - 3 &&
        Anchors(handles) == Anchors(old(handles))[..anchorIndex / 3] + Anchors(old(handles))[anchorIndex / 3 + 1..]
      ensures (old(NumSegments()) > 2 || (!isLoop && old(NumSegments()) > 1)) && !isSmooth ==>
        handles == RemovedAnchor(old(handles), isLoop, anchorIndex)
      ensures (old(NumSegments()) > 2 || (!isLoop && old(NumSegments()) > 1)) && isSmooth ==>
        handles == NeighbourhoodSmoothed(normalized, magnitude, RemovedAnchor(old(handles), isLoop, anchorIndex), isLoop, anchorIndex)
    {
      if NumSegments() > 2 || (!isLoop && NumSegments() > 1) {
        RemoveAnchor(anchorIndex);
        ghost var h1 := handles;
        if isSmooth {
          SmoothNeighbourAnchors(anchorIndex, {});
          SameAnchorsAnchors(handles, h1);
        }
      }
    }
 
    /** Resamples the segments on either side of handle k's anchor position that exist. */
    method ResampleAround(k: int, ghost X: set<int>)
      requires Shape() && k >= 0
      requires FreshExcept(handles, segmentPoints, pointsBySegment, X) && X <= AdjacentSegments(|handles|, isLoop, k)
      modifies this
      ensures Valid() && handles == old(handles) && pointsBySegment == old(pointsBySegment)
      ensures isLoop == old(isLoop) && isSmooth == old(isSmooth)
      ensures X == {} ==> segmentPoints == old(segmentPoints)
    {
      ghost var Y := X;
      if k / 3 < NumSegments() || isLoop {
        var next := LoopSegment(k / 3);
        UpdateSegmentPoints(next, Y);
        Y := Y - {next};
      }
      if k / 3 - 1 >= 0 || isLoop {
        var prev := LoopSegment(k / 3 - 1);
        UpdateSegmentPoints(prev, Y);
        Y := Y - {prev};
      }
      FreshMonotone(handles, segmentPoints, pointsBySegment, Y, {});
    }

    /** In smooth mode, puts anchor i at pos and re-smooths its neighbourhood. */
    method MoveAnchorSmooth(i: int, pos: Vec3)
      requires Valid() && isSmooth && 0 <= i < |handles| && i % 3 == 0
      modifies this
      ensures Valid() && pointsBySegment == old(pointsBySegment)
      ensures isLoop == old(isLoop) && isSmooth == old(isSmooth)
      ensures |handles| == |old(handles)|
      ensures Anchors(handles) == Anchors(old(handles))[i / 3 := pos]
      ensures handles == NeighbourhoodSmoothed(normalized, magnitude, old(handles)[i := pos], isLoop, i)
    {
      ghost var n := |handles|;
      ghost var h1 := handles[i := pos];
      FreshAfterWrite(handles, segmentPoints, pointsBySegment, {}, i, pos);
      NeighbourhoodTouched(n, isLoop, i, 0);
      AnchorsAfterWrite(handles, i, pos);
      handles := handles[i := pos];
      SmoothNeighbourAnchors(i, Touched(n, i));
      SameAnchorsAnchors(handles, h1);
    }

    /** Without smoothing, moves handle i as Moving.MovedFree describes; returns the anchor to resample around. */
    method MoveFreeHandle(i: int, pos: Vec3) returns (a: int)
      requires Valid() && 0 <= i < |handles|
      modifies this
      ensures Shape() && pointsBySegment == old(pointsBySegment) && segmentPoints == old(segmentPoints)
      ensures isLoop == old(isLoop) && isSmooth == old(isSmooth)
      ensures handles == MovedFree(normalized, magnitude, old(handles), isLoop, i, pos)
      ensures a == MoveAnchor(i)
      ensures FreshExcept(handles, segmentPoints, pointsBySegment, AdjacentSegments(|handles|, isLoop, a))
    {
      FreshAfterMove(normalized, magnitude, handles, segmentPoints, pointsBySegment, isLoop, i, pos);
      handles, a := MoveFree(normalized, magnitude, handles, isLoop, i, pos);
    }

    /**
     * Moves handle handleIndex to pos. In smooth mode only anchors can be
     * moved (a tangent move changes nothing) and the neighbourhood is
     * re-smoothed; otherwise the move follows Moving.MovedFree. The segments
     * around the moved anchor are then resampled.
     */
    method MovePoint(handleIndex: int, pos: Vec3)
      requires Valid() && 0 <= handleIndex < |handles|
      modifies this
      ensures Valid() && pointsBySegment == old(pointsBySegment)
      ensures isLoop == old(isLoop) && isSmooth == old(isSmooth)
      ensures |handles| == |old(handles)|
      ensures isSmooth && handleIndex % 3 != 0 ==> handles == old(handles) && segmentPoints == old(segmentPoints)
      ensures !isSmooth ==> handles == MovedFree(normalized, magnitude, old(handles), isLoop, handleIndex, pos)
      ensures isSmooth && handleIndex % 3 == 0 ==>
        handles == NeighbourhoodSmoothed(normalized, magnitude, old(handles)[handleIndex := pos], isLoop, handleIndex)
      ensures handleIndex % 3 == 0 ==> Anchors(handles) == Anchors(old(handles))[handleIndex / 3 := pos]
      ensures handleIndex % 3 != 0 ==> Anchors(handles) == Anchors(old(handles))
    {
      ghost var h0 := handles;
      var i := handleIndex;
      ghost var X: set<int> := {};
      if i % 3 == 0 || !isSmooth {
        if isSmooth {
          MoveAnchorSmooth(i, pos);
        } else {
          AnchorsAfterMove(normalized, magnitude, h0, isLoop, i, pos);
          i := MoveFreeHandle(i, pos);
          X := AdjacentSegments(|handles|, isLoop, i);
        }
      }
      ResampleAround(i, X);
    }
 
    /** Moves every anchor, first to last, onto height zero. */
    method FlattenAnchors()
      requires Valid()
      modifies this
      ensures Valid() && pointsBySegment == old(pointsBySegment)
      ensures isLoop == old(isLoop) && isSmooth == old(isSmooth)
      ensures |handles| == |old(handles)|
      ensures Anchors(handles) == FlatPrefix(Anchors(old(handles)), |Anchors(old(handles))|)
    {
      ghost var A0 := Anchors(handles);
      ghost var m := 0;
      var i := 0;
      while i < |handles|
        invariant i == 3 * m && 0 <= m <= |A0|
        invariant Valid() && pointsBySegment == old(pointsBySegment)
        invariant isLoop == old(isLoop) && isSmooth == old(isSmooth)
        invariant |handles| == |old(handles)|
        invariant Anchors(handles) == FlatPrefix(A0, m)
      {
        FlatPrefixStep(A0, m);
        assert i / 3 == m && handles[i] == FlatPrefix(A0, m)[m];
        MovePoint(i, Vec3(handles[i].x, 0.0, handles[i].z));
        i := i + 3;
        m := m + 1;
      }
    }

    /** Moves every tangent, first to last, onto height zero; anchors stay. */
    method FlattenTangents()
      requires Valid()
      modifies this
      ensures Valid() && pointsBySegment == old(pointsBySegment)
      ensures isLoop == old(isLoop) && isSmooth == old(isSmooth)
      ensures |handles| == |old(handles)| && Anchors(handles) == Anchors(old(handles))
    {
      var i := 0;
      while i < |handles|
        invariant Valid() && pointsBySegment == old(pointsBySegment)
        invariant isLoop == old(isLoop) && isSmooth == old(isSmooth)
        invariant |handles| == |old(handles)| && Anchors(handles) == Anchors(old(handles))
      {
        if i % 3 != 0 {
          MovePoint(i, Vec3(handles[i].x, 0.0, handles[i].z));
        }
        i := i + 1;
      }
    }

    /** Flattens every anchor onto height zero, then, without smoothing, every tangent in turn. */
    method Flatten()
      requires Valid()
      modifies this
      ensures Valid() && pointsBySegment == old(pointsBySegment)
      ensures isLoop == old(isLoop) && isSmooth == old(isSmooth)
      ensures |handles| == |old(handles)|
      ensures Anchors(handles) == FlatPrefix(Anchors(old(handles)), |Anchors(old(handles))|)
      ensures forall k :: 0 <= k < |Anchors(handles)| ==> Anchors(handles)[k].y == 0.0
    {
      FlattenAnchors();
      if !isSmooth {
        FlattenTangents();
      }
    }

    /** Closing an open path: adds the two closing tangents and the closing segment's samples. */
    method CloseLoop()
      requires isLoop && pointsBySegment >= 0 && HandleLayout(|handles|, false)
      requires SampleLayout(handles, segmentPoints, pointsBySegment)
      requires FreshExcept(handles, segmentPoints, pointsBySegment, {})
      modifies this
      ensures Valid() && pointsBySegment == old(pointsBySegment)
      ensures isLoop == old(isLoop) && isSmooth == old(isSmooth)
      ensures |handles| == |old(handles)| + 2 && Anchors(handles) == Anchors(old(handles))
      ensures !isSmooth ==> handles == old(handles) + Closure(old(handles))
      ensures isSmooth ==> handles == ClosingSmoothed(normalized, magnitude, old(handles) + Closure(old(handles)))
    {
      ghost var h0, sp0 := handles, segmentPoints;
      var added := NumSegments();
      handles := handles + [Sub(Scale(handles[|handles| - 1], 2.0), handles[|handles| - 2])];
      handles := handles + [Sub(Scale(handles[0], 2.0), handles[1])];
      segmentPoints := segmentPoints + Zeros(pointsBySegment);
      assert handles == h0 + Closure(h0);
      FreshAfterExtend(h0, sp0, pointsBySegment, Closure(h0));
      AnchorsAfterClose(h0, Closure(h0));
      ghost var h1 := handles;
      SmoothClosingAnchors(added);
      SameAnchorsAnchors(handles, h1);
      UpdateSegmentPoints(NumSegments() - 1, if isSmooth then {} else {added});
    }

    /** In smooth mode, smooths the first anchor and the last, which was just joined up to it. */
    method SmoothClosingAnchors(ghost last: int)
      requires Shape() && isLoop && last == NumSegments() - 1
      requires FreshExcept(handles, segmentPoints, pointsBySegment, {last})
      modifies this
      ensures Shape() && pointsBySegment == old(pointsBySegment)
      ensures isLoop == old(isLoop) && isSmooth == old(isSmooth)
      ensures SameAnchors(handles, old(handles))
      ensures !isSmooth ==> handles == old(handles) && segmentPoints == old(segmentPoints)
      ensures isSmooth ==> handles == ClosingSmoothed(normalized, magnitude, old(handles))
      ensures FreshExcept(handles, segmentPoints, pointsBySegment, if isSmooth then {} else {last})
    {
      if isSmooth {
        SmoothAnchor(0, {last});
        assert {last} - AnchorSegments(|handles|, 0) == {};
        SmoothAnchor(|handles| - 3, {});
      }
    }

    /** Opening a loop: drops the two closing tangents and the closing segment's samples. */
    method OpenLoop()
      requires !isLoop && pointsBySegment >= 0 && HandleLayout(|handles|, true)
      requires SampleLayout(handles, segmentPoints, pointsBySegment)
      requires FreshExcept(handles, segmentPoints, pointsBySegment, {})
      modifies this
      ensures Valid() && pointsBySegment == old(pointsBySegment)
      ensures isLoop == old(isLoop) && isSmooth == old(isSmooth)
      ensures |handles| == |old(handles)| - 2 && Anchors(handles) == Anchors(old(handles))
      ensures !isSmooth ==> handles == old(handles)[..|old(handles)| - 2]
      ensures isSmooth ==> handles == EndsSmoothed(old(handles)[..|old(handles)| - 2])
    {
      ghost var h0, sp0 := handles, segmentPoints;
      var p := pointsBySegment;
      FreshAfterTruncate(h0, sp0, p, |h0| - 2);
      NextBlock(|h0| / 3 - 1, p);
      AnchorsAfterOpen(h0);
      handles := handles[..|handles| - 2];
      segmentPoints := segmentPoints[..|segmentPoints| - p];
      assert segmentPoints == sp0[..((|h0| - 2) / 3) * p];
      ghost var h1 := handles;
      if isSmooth {
        SmoothStartAndEndHandles({});
        SameAnchorsAnchors(handles, h1);
      }
    }

    /** Brings the handles in line with a just-flipped loop flag. */
    method ToggleLoop()
      requires pointsBySegment >= 0 && HandleLayout(|handles|, !isLoop)
      requires SampleLayout(handles, segmentPoints, pointsBySegment)
      requires FreshExcept(handles, segmentPoints, pointsBySegment, {})
      modifies this
      ensures Valid() && pointsBySegment == old(pointsBySegment)
      ensures isLoop == old(isLoop) && isSmooth == old(isSmooth)
      ensures Anchors(handles) == Anchors(old(handles))
      ensures isLoop ==> |handles| == |old(handles)| + 2
      ensures !isLoop ==> |handles| == |old(handles)| - 2
      ensures isLoop && !isSmooth ==> handles == old(handles) + Closure(old(handles))
      ensures !isLoop && !isSmooth ==> handles == old(handles)[..|old(handles)| - 2]
      ensures isLoop && isSmooth ==> handles == ClosingSmoothed(normalized, magnitude, old(handles) + Closure(old(handles)))
      ensures !isLoop && isSmooth ==> handles == EndsSmoothed(old(handles)[..|old(handles)| - 2])
    {
      if isLoop {
        CloseLoop();
      } else {
        OpenLoop();
      }
    }

    /** The IsLoop setter: a change of the flag closes or opens the path. */
    method SetIsLoop(value: bool)
      requires Valid()
      modifies this
      ensures Valid() && isLoop == value
      ensures pointsBySegment == old(pointsBySegment) && isSmooth == old(isSmooth)
      ensures Anchors(handles) == Anchors(old(handles))
      ensures value == old(isLoop) ==> handles == old(handles) && segmentPoints == old(segmentPoints)
      ensures value && !old(isLoop) && !isSmooth ==> handles == old(handles) + Closure(old(handles))
      ensures !value && old(isLoop) && !isSmooth ==> handles == old(handles)[..|old(handles)| - 2]
      ensures value && !old(isLoop) && isSmooth ==>
        handles == ClosingSmoothed(normalized, magnitude, old(handles) + Closure(old(handles)))
      ensures !value && old(isLoop) && isSmooth ==> handles == EndsSmoothed(old(handles)[..|old(handles)| - 2])
    {
      if isLoop != value {
        isLoop := value;
        ToggleLoop();
      }
    }

    /** The IsSmooth setter: switching smoothing on smooths every anchor. */
    method SetIsSmooth(value: bool)
      requires Valid()
      modifies this
      ensures Valid() && isSmooth == value
      ensures pointsBySegment == old(pointsBySegment) && isLoop == old(isLoop)
      ensures SameAnchors(handles, old(handles))
      ensures (value == old(isSmooth) || !value) ==> handles == old(handles) && segmentPoints == old(segmentPoints)
      ensures value && !old(isSmooth) ==> handles == AllSmoothed(normalized, magnitude, old(handles), isLoop)
    {
      if isSmooth != value {
        isSmooth := value;
        if isSmooth {
          SmoothAllAnchors();
        }
      }
    }

    /**
     * The PointsBySegment setter, corrected: a negative count is refused and
     * leaves the path as it was; any other new count rebuilds every
     * segment's samples at that density.
     */
    method SetPointsBySegment(value: int) returns (accepted: bool)
      requires Valid()
      modifies this
      ensures Valid() && handles == old(handles)
      ensures isLoop == old(isLoop) && isSmooth == old(isSmooth)
      ensures accepted <==> value >= 0
      ensures accepted ==> pointsBySegment == value
      ensures !accepted ==> pointsBySegment == old(pointsBySegment) && segmentPoints == old(segmentPoints)
      ensures value == old(pointsBySegment) ==> segmentPoints == old(segmentPoints)
    {
      if value < 0 {
        return false;
      }
      if pointsBySegment != value {
        pointsBySegment := value;
        segmentPoints := Zeros(NumSegments() * pointsBySegment);
        UpdateAllSegmentsPoints();
      }
      return true;
    }

    /**
     * The PointsBySegment setter as the editor writes it: the new count is
     * stored before the sample list of that size is allocated, so a negative
     * count makes the allocation throw (reported as thrown) after the field
     * has changed, leaving a negative count beside the old samples.
     */
    method SetPointsBySegmentAsWritten(value: int) returns (thrown: bool)
      requires Valid()
      modifies this
      ensures handles == old(handles) && isLoop == old(isLoop) && isSmooth == old(isSmooth)
      ensures thrown <==> value != old(pointsBySegment) && value < 0
      ensures pointsBySegment == value
      ensures !thrown ==> Valid()
      ensures thrown ==> segmentPoints == old(segmentPoints) && !Shape()
    {
      thrown := false;
      if pointsBySegment != value {
        pointsBySegment := value;
        if value < 0 {
          assert NumSegments() * pointsBySegment < 0;
          thrown := true;
          return;
        }
        segmentPoints := Zeros(NumSegments() * pointsBySegment);
        UpdateAllSegmentsPoints();
      }
    }
  }
}
