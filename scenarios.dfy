/**
 * Concrete editing sessions on a fresh path centred anywhere, with the
 * lengths and values they end in. The engine's normalisation and length are
 * parameters: none of these outcomes depends on them.
 */
module Scenarios {
  import opened Vectors
  import opened Sampling
  import opened HandleEdits
  import opened Paths

  /** The first sample of the default path centred at the origin: its curve at t = 1/21. */
  lemma DefaultFirstSample()
    ensures BezierPoint([Left, Scale(Left, 0.5), Scale(Right, 0.5), Right], 1.0 / 21.0) == Vec3(-8569.0 / 9261.0, 0.0, 0.0)
  {
  }

  /**
   * The default path has one segment and 20 samples; the first sample is at
   * t = 1/21, on the line through the anchors at -8569/9261 from the centre.
   */
  method DefaultPath(center: Vec3, normalized: Vec3 -> Vec3, magnitude: Vec3 -> real) returns (count: int, samples: int, first: Vec3)
    ensures count == 1 && samples == 20
    ensures first == Add(center, Vec3(-8569.0 / 9261.0, 0.0, 0.0))
  {
    var path := new Path(center, normalized, magnitude);
    path.SamplesOnCurve(0);
    count := path.NumSegments();
    samples := |path.segmentPoints|;
    first := path.segmentPoints[0];
    assert path.GetSegmentPoints(0)[0] == first;
    assert SampleParam(20, 0) == 1.0 / 21.0;
    assert path.GetSegmentHandles(0) == [Add(center, Left), Add(center, Scale(Left, 0.5)), Add(center, Scale(Right, 0.5)), Add(center, Right)];
    BezierTranslate(center, Left, Scale(Left, 0.5), Scale(Right, 0.5), Right, 1.0 / 21.0);
    DefaultFirstSample();
  }

  /** Appending an anchor to the default path gives two segments, seven handles and 40 samples. */
  method AppendToDefault(center: Vec3, normalized: Vec3 -> Vec3, magnitude: Vec3 -> real) returns (count: int, handleCount: int, samples: int)
    ensures count == 2 && handleCount == 7 && samples == 40
  {
    var path := new Path(center, normalized, magnitude);
    path.AddSegment(Vec3(2.0, 0.0, 0.0));
    count := path.NumSegments();
    handleCount := |path.handles|;
    samples := |path.segmentPoints|;
  }

  /**
   * Closing a two-segment path into a loop and opening it again restores its
   * handle count and segment count, and, without smoothing, the handles
   * themselves.
   */
  method LoopRoundTrip(center: Vec3, normalized: Vec3 -> Vec3, magnitude: Vec3 -> real) returns (before: seq<Vec3>, closed: int, after: seq<Vec3>, count: int)
    ensures |before| == 7 && closed == 9 && after == before && count == 2
  {
    var path := new Path(center, normalized, magnitude);
    path.AddSegment(Vec3(2.0, 0.0, 0.0));
    before := path.handles;
    path.SetIsLoop(true);
    closed := |path.handles|;
    path.SetIsLoop(false);
    after := path.handles;
    count := path.NumSegments();
  }

  /**
   * On any valid open path without smoothing, closing the loop and opening
   * it again gives back the handles and the segment count.
   */
  method CloseThenOpen(path: Path)
    requires path.Valid() && !path.isLoop && !path.isSmooth
    modifies path
    ensures path.Valid() && !path.isLoop && !path.isSmooth
    ensures path.handles == old(path.handles) && path.NumSegments() == old(path.NumSegments())
  {
    ghost var h0 := path.handles;
    path.SetIsLoop(true);
    assert path.handles == h0 + Closure(h0);
    path.SetIsLoop(false);
    assert path.handles == (h0 + Closure(h0))[..|h0|];
  }

  /** Deleting an anchor of a one-segment open path changes nothing. */
  method DeleteOnlySegment(center: Vec3, normalized: Vec3 -> Vec3, magnitude: Vec3 -> real) returns (before: seq<Vec3>, after: seq<Vec3>, samplesBefore: seq<Vec3>, samplesAfter: seq<Vec3>)
    ensures after == before && samplesAfter == samplesBefore && |after| == 4
  {
    var path := new Path(center, normalized, magnitude);
    before, samplesBefore := path.handles, path.segmentPoints;
    path.DeleteSegment(3);
    after, samplesAfter := path.handles, path.segmentPoints;
  }

  /** Resampling a segment whose handles have not moved leaves every sample as it was. */
  method ResampleTwice(center: Vec3, normalized: Vec3 -> Vec3, magnitude: Vec3 -> real) returns (once: seq<Vec3>, twice: seq<Vec3>)
    ensures twice == once && |once| == 40
  {
    var path := new Path(center, normalized, magnitude);
    path.AddSegment(Vec3(2.0, 0.0, 0.0));
    path.UpdateSegmentPoints(1, {});
    once := path.segmentPoints;
    path.UpdateSegmentPoints(1, {});
    twice := path.segmentPoints;
  }

  /**
   * Setting a negative sample count with the setter as written throws after
   * the count has been stored: the path is left with count -1 beside its 20
   * old samples, which no count of samples per segment explains. The
   * corrected setter refuses the value and keeps the path valid.
   */
  method NegativeCount(center: Vec3, normalized: Vec3 -> Vec3, magnitude: Vec3 -> real)
    returns (thrown: bool, storedCount: int, samples: int, accepted: bool, keptCount: int)
    ensures thrown && storedCount == -1 && samples == 20
    ensures !accepted && keptCount == 20
  {
    var broken := new Path(center, normalized, magnitude);
    thrown := broken.SetPointsBySegmentAsWritten(-1);
    storedCount, samples := broken.pointsBySegment, |broken.segmentPoints|;
    var kept := new Path(center, normalized, magnitude);
    accepted := kept.SetPointsBySegment(-1);
    keptCount := kept.pointsBySegment;
  }
}
