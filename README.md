# Floww path editor core, modelled in Dafny

Floww's track editor keeps a composite cubic Bezier path, the `Path` class. It holds a list of handles: anchor, tangent, tangent, anchor, and so on. Every third handle is an anchor the curve passes through. The two handles between consecutive anchors are the tangents that shape that segment.

The class also holds:
- a flag that closes the path into a loop;
- a flag that keeps every anchor's tangents smoothed automatically;
- a cache of sample points, a fixed number per segment, stored segment by segment.

The editing operations are add, split, delete, move, flatten, loop toggling, smoothing and resampling. Each changes the handle list in place, then recomputes the samples of the segments it touched.

The model is the class `Paths.Path` (path.dfy). Its fields are the handle list and the sample list (as `seq`), the sample count per segment, and the two flags. Each method changes them as the original does.

Its invariant `Valid()` has two parts:
- **Shape.** The handle count is `3N + 1` for an open path with N segments and `3N` for a loop. There are at least one segment (two on a loop) and `N * pointsBySegment` samples.
- **Freshness.** Every stored sample block equals the samples of its segment's current handles. Sample j of segment i is the segment's Bezier curve at `t = (j + 1) / (p + 1)`.

Every public operation keeps `Valid()`. Internal steps carry a ghost set of the segments they may leave stale and say which of those they refresh. This shows that each operation resamples enough to keep every stored sample on its segment's curve.

The value-level modules hold what the class methods are proved against:
- `Vectors`: points and the Bernstein evaluation.
- `Sampling` and `SegmentEdits`: index wrap-around, the block layout of samples, and what each list edit does to freshness.
- `Smoothing`: anchor smoothing and end-tangent smoothing on a handle list.
- `HandleEdits`: the handle lists after append, split, delete and loop closing, and the anchors each one keeps.
- `Moving`: the non-smooth move of a handle.

`Scenarios` states the outcome of concrete editing sessions.

Three facts about the code:
- **Handle count.** An open path has `3 * NumSegments + 1` handles, since `NumSegments` is `handles.Count / 3`.
- **Sample count.** The setter accepts a count of zero; a negative count throws after the field is stored (see Findings).
- **First sample.** The default path's first sample is exactly -8569/9261 from the centre in x (`Scenarios.DefaultPath`).

In smooth mode every editing operation states its exact handle list. That list is a composition of the `Smoothing` functions: `NeighbourhoodSmoothed`, `AllSmoothed`, `ClosingSmoothed` and `EndsSmoothed`, applied to the list after the edit. Lemmas beside them bound which handles that composition may change.

## Model

| member | source | states |
|---|---|---|
| Vectors.BezierPoint | Assets/Scripts/Path/Utility/MathUtility.cs:5-12 | the cubic Bernstein combination of the first four control points at t; its properties are the three lemmas below |
| Vectors.BezierEndpoints | Assets/Scripts/Path/Utility/MathUtility.cs:5-12 | the curve is at its first control point at t = 0 and at its last at t = 1 |
| Vectors.BezierOfPointIsPoint | Assets/Scripts/Path/Utility/MathUtility.cs:5-12 | four equal control points give that point for every t (the Bernstein weights sum to one) |
| Vectors.BezierTranslate | Assets/Scripts/Path/Utility/MathUtility.cs:5-12 | moving all four control points by c moves every curve point by c |
| Vectors.Flat | Assets/Scripts/Path/Path.cs:184 | the flattened point has height 0 and keeps x and z |
| Sampling.Wrap | Assets/Scripts/Path/Path.cs:285-290 | the wrapped index lies in [0, n); it is i inside the range, i + n below it, i - n in [n, 2n) |
| Sampling.WrapIsRemainder | Assets/Scripts/Path/Path.cs:285-290 | for i >= -n the wrap equals both (i + n) % n and i % n, which C# and Dafny agree on there |
| Sampling.QuadsShareAnchors | Assets/Scripts/Path/Path.cs:91-93 | each segment ends on the anchor the next one starts on; a loop's last segment ends on handle 0, an open path's on the last handle |
| Sampling.TouchedTangent | Assets/Scripts/Path/Path.cs:91-93 | a tangent is read by exactly one segment, its own |
| Sampling.TouchedAnchor | Assets/Scripts/Path/Path.cs:91-93 | an anchor is read only by the segment it starts and the one it ends (the last segment for anchor 0 of a loop) |
| Sampling.NeighbourhoodTouched | Assets/Scripts/Path/Path.cs:174-179 | every handle within two places of an anchor is read only by the segments adjacent to it, which the two guarded resamples at the end of a move refresh; those lie among the two segments SmoothAnchor resamples |
| Sampling.WrapOfAnchor | Assets/Scripts/Path/Path.cs:225-227 | wrapping an anchor index of the neighbourhood loop yields an anchor index |
| Sampling.TangentSlots | Assets/Scripts/Path/Path.cs:260-264 | the handles before and after an anchor wrap to tangent indices, and which ones |
| Sampling.FreshAfterNeighbourhoodWrites | Assets/Scripts/Path/Path.cs:145-179 | writing only an anchor and its two tangents stales no segment but the ones adjacent to the anchor |
| Sampling.SampleParam | Assets/Scripts/Path/Path.cs:280 | the parameter (1 / (p + 1)) * (j + 1) of sample j; SampleParamInside bounds it |
| Sampling.SampleParamInside | Assets/Scripts/Path/Path.cs:280 | every sample parameter lies strictly between 0 and 1 |
| Sampling.SegmentSamples | Assets/Scripts/Path/Path.cs:277-283 | the p samples of one segment, sample j being the segment's curve at SampleParam(p, j) |
| Sampling.FreshAfterUpdate | Assets/Scripts/Path/Path.cs:277-283 | resampling segment i makes it fresh and leaves every other block as it was |
| Sampling.UpdateOfFreshIsIdentity | Assets/Scripts/Path/Path.cs:277-283 | resampling a fresh segment leaves the sample list unchanged (resampling is idempotent) |
| Sampling.FreshAfterWrite | Assets/Scripts/Path/Path.cs:148 | writing one handle stales only the segments that read it |
| SegmentEdits.FreshAfterExtend | Assets/Scripts/Path/Path.cs:99-103 | appending a segment's handles, or the two closing tangents, with an empty block gives the new layout with only the new last segment stale |
| SegmentEdits.FreshAfterTruncate | Assets/Scripts/Path/Path.cs:132-133 | cutting the handle list and the sample list back to a shorter open path keeps every remaining segment fresh |
| SegmentEdits.FreshAfterInsertSegment | Assets/Scripts/Path/Path.cs:113-114 | inserting a triple inside segment s with an empty block stales exactly segments s and s + 1; the others keep their samples, shifted |
| SegmentEdits.FreshAfterRemoveFirst | Assets/Scripts/Path/Path.cs:124-129 | removing the first anchor (after re-linking a loop's closing tangent) and block 0 stales only the new last segment |
| SegmentEdits.FreshAfterRemoveInterior | Assets/Scripts/Path/Path.cs:135-136 | removing an interior anchor with its tangents and its block stales only the segment before it |
| Smoothing.TangentTarget | Assets/Scripts/Path/Path.cs:244-263 | the value written at tangent side 0 or 1 of anchor a: anchorPos + dir * dist * 0.5. Here dir is the normalized offset to the previous anchor minus the normalized offset to the next, each only if that neighbour exists, normalized again. dist is the previous offset's magnitude on side 0 and minus the next offset's magnitude on side 1, or 0 when that neighbour is absent |
| Smoothing.Smoothed | Assets/Scripts/Path/Path.cs:260-264 | the handles after the first `sides` passes of the tangent loop, each writing its TangentTarget at the wrapped index when that index exists or the path is a loop; the length is kept |
| Smoothing.SmoothedTangents | Assets/Scripts/Path/Path.cs:243-265 | smoothing anchor a writes each existing tangent of a as anchorPos + dir * dist * 0.5 and changes no other handle, so no anchor moves |
| Smoothing.SmoothTangents | Assets/Scripts/Path/Path.cs:243-265 | the loop over the two sides computes the smoothed handle list |
| Smoothing.WriteTangent | Assets/Scripts/Path/Path.cs:261-264 | one pass of the tangent loop turns the list after i passes into the list after i + 1 |
| Smoothing.EndsSmoothed | Assets/Scripts/Path/Path.cs:235-236 | handle 1 and then handle Count - 2 set to the midpoints of their neighbours, in that order; the length is kept |
| Smoothing.EndTangentsAreMidpoints | Assets/Scripts/Path/Path.cs:233-236 | on an open path the first and last tangents become midpoints of their neighbours, with the 4-handle case chained; nothing else changes |
| Smoothing.FreshAfterEndsSmoothed | Assets/Scripts/Path/Path.cs:233-239 | end smoothing keeps the anchors and stales only the first and last segments |
| Smoothing.AnchorSmoothed | Assets/Scripts/Path/Path.cs:226-227 | one step of a smoothing loop: anchor index i is smoothed, wrapped, when it exists or the path is a loop, and otherwise nothing changes |
| Smoothing.AnchorSmoothedFrame | Assets/Scripts/Path/Path.cs:243-265 | one anchor smoothing keeps every anchor and writes only that anchor's tangents |
| Smoothing.SmoothedRange | Assets/Scripts/Path/Path.cs:225-229 | the anchors lo, lo + 3, ... below hi smoothed one after another in that order |
| Smoothing.NeighbourhoodSmoothed | Assets/Scripts/Path/Path.cs:224-231 | anchors c - 3, c and c + 3 smoothed in turn, followed on an open path by end-tangent smoothing |
| Smoothing.NeighbourhoodSmoothedFrame | Assets/Scripts/Path/Path.cs:224-231 | neighbourhood smoothing keeps every anchor and changes only the tangents of anchors c - 3, c and c + 3 (wrapped, where present) and, on an open path, handles 1 and Count - 2 |
| Smoothing.AllSmoothed | Assets/Scripts/Path/Path.cs:217-222 | every anchor 0, 3, ... below the handle count smoothed in turn, followed on an open path by end-tangent smoothing |
| Smoothing.AllSmoothedKeepsAnchors | Assets/Scripts/Path/Path.cs:217-222 | smoothing every anchor keeps every anchor |
| Smoothing.ClosingSmoothed | Assets/Scripts/Path/Path.cs:202-205 | on a loop, anchor 0 and then anchor Count - 3 smoothed |
| Smoothing.ClosingSmoothedFrame | Assets/Scripts/Path/Path.cs:202-205 | the closing smoothing keeps every anchor and changes only handles 1, Count - 4, Count - 2 and Count - 1 |
| HandleEdits.Extension | Assets/Scripts/Path/Path.cs:100-102 | the three appended handles: the last anchor's reflection of the last tangent, the midpoint of that and pos, then pos |
| HandleEdits.Closure | Assets/Scripts/Path/Path.cs:198-199 | the two closing tangents: the last anchor's reflection of its tangent, then anchor 0's reflection of handle 1 |
| HandleEdits.AnchorsAfterAppend | Assets/Scripts/Path/Path.cs:99-102 | appending a segment appends its end anchor to the anchor list |
| HandleEdits.AnchorsAfterClose | Assets/Scripts/Path/Path.cs:198-199 | adding the closing tangents keeps the anchor list |
| HandleEdits.AnchorsAfterOpen | Assets/Scripts/Path/Path.cs:208 | dropping the closing tangents keeps the anchor list |
| HandleEdits.AnchorsAfterInsert | Assets/Scripts/Path/Path.cs:113 | inserting a triple after tangent 3s + 1 inserts its middle handle as anchor s + 1 |
| HandleEdits.Split | Assets/Scripts/Path/Path.cs:113 | the triple zero, anchorPos, zero inserted before handle 3s + 2, which puts anchorPos at 3s + 3 |
| HandleEdits.AnchorsAfterSplit | Assets/Scripts/Path/Path.cs:113 | a split inserts the new anchor at position s + 1 of the anchor list |
| HandleEdits.SplitKeepsOldHandles | Assets/Scripts/Path/Path.cs:112-119 | after a split and the smoothing of the new anchor, every old handle keeps its value and order on both sides of the inserted triple, and the new anchor is at 3s + 3 |
| HandleEdits.AnchorsAfterRemoveFirst | Assets/Scripts/Path/Path.cs:128 | removing the first three handles removes the first anchor |
| HandleEdits.AnchorsAfterRemoveLast | Assets/Scripts/Path/Path.cs:132 | removing an open path's last three handles removes its last anchor |
| HandleEdits.AnchorsAfterRemoveInterior | Assets/Scripts/Path/Path.cs:135 | removing an interior anchor and the tangent on either side removes exactly that anchor |
| HandleEdits.RemovedAnchor | Assets/Scripts/Path/Path.cs:124-136 | the handles after deleting anchor a through the three branches of the original: the first anchor (a loop re-links its closing tangent to handle 2 first), an open path's last anchor, or an interior anchor with a tangent on either side; three handles fewer |
| HandleEdits.AnchorsAfterDelete | Assets/Scripts/Path/Path.cs:122-138 | whichever branch applies, deletion removes exactly anchor a / 3 from the anchor list |
| HandleEdits.AnchorsAfterWrite | Assets/Scripts/Path/Path.cs:148 | writing an anchor replaces that entry of the anchor list; writing a tangent leaves the list alone |
| HandleEdits.FlatPrefixStep | Assets/Scripts/Path/Path.cs:183-185 | flattening the next anchor extends the flattened prefix of the anchor list by one |
| Moving.MoveAnchor | Assets/Scripts/Path/Path.cs:161-163 | the anchor a handle belongs to is an anchor index within one place of it |
| Moving.MovedFree | Assets/Scripts/Path/Path.cs:147-170 | the handles after a non-smooth move of handle i to pos, writes in the original's order; the length is kept. MovedFreeEffect states what it changes |
| Moving.MovedFreeEffect | Assets/Scripts/Path/Path.cs:147-170 | a non-smooth move puts pos at i. An anchor's existing tangents keep their offsets from it. A tangent's anchor stays, and its opposite tangent is set along the direction from pos to the anchor at its old distance. No other handle changes, and no anchor but a moved one |
| Moving.AnchorsAfterMove | Assets/Scripts/Path/Path.cs:147-170 | a non-smooth anchor move puts pos into the anchor list; a tangent move leaves the list alone |
| Moving.FreshAfterMove | Assets/Scripts/Path/Path.cs:145-179 | a non-smooth move stales at most the segments adjacent to the moved handle's anchor |
| Moving.MoveFree | Assets/Scripts/Path/Path.cs:147-170 | the editor's sequence of writes computes Moving.MovedFree and returns the anchor index the resampling uses |
| Paths.Path.Valid | Assets/Scripts/Path/Path.cs:271-283 | the class invariant: a handle count that fits NumSegments segments (open or loop), a non-negative sample count, one block of samples per segment, and every block equal to its segment's SegmentSamples |
| Paths.Path.constructor | Assets/Scripts/Path/Path.cs:21-32 | four handles around the centre, 20 samples per segment, open and not smooth, and a valid path |
| Paths.Path.NumSegments | Assets/Scripts/Path/Path.cs:46-50 | on a valid layout, three handles per segment, plus the final anchor of an open path |
| Paths.Path.LoopHandle | Assets/Scripts/Path/Path.cs:285-287 | the handle index wrapped into range, for indices down to minus the count |
| Paths.Path.LoopSegment | Assets/Scripts/Path/Path.cs:288-290 | the segment index wrapped into range for indices from minus the count up to twice the count: i inside the range, i + N below it, i - N above it |
| Paths.Path.At | Assets/Scripts/Path/Path.cs:34-38 | the indexer returns the handle at the wrapped index |
| Paths.Path.GetSegmentHandles | Assets/Scripts/Path/Path.cs:91-93 | the segment's three own handles and the next anchor, handle 0 for a loop's last segment |
| Paths.Path.GetSegmentPoints | Assets/Scripts/Path/Path.cs:95-97 | the p samples of block i |
| Paths.Path.SamplesOnCurve | Assets/Scripts/Path/Path.cs:277-283 | in a valid path each stored sample is its segment's curve at a parameter strictly inside (0, 1) |
| Paths.Path.UpdateSegmentPoints | Assets/Scripts/Path/Path.cs:277-283 | block i is overwritten with the segment's samples, and nothing else changes; the segment becomes fresh |
| Paths.Path.UpdateAllSegmentsPoints | Assets/Scripts/Path/Path.cs:271-275 | resampling every segment makes the path valid without moving a handle |
| Paths.Path.SmoothAnchor | Assets/Scripts/Path/Path.cs:243-269 | the handles become Smoothing.Smoothed of the old ones (anchors unchanged) and both segments at the anchor are fresh again |
| Paths.Path.SmoothStartAndEndHandles | Assets/Scripts/Path/Path.cs:233-241 | an open path's handles become Smoothing.EndsSmoothed of the old ones; a loop is left as it was |
| Paths.Path.SmoothTraceStep | Assets/Scripts/Path/Path.cs:218-219 | one step of the all-anchors loop moves the handles one step along the smoothing trace and adds at most the smoothed anchor's two segments to the stale set |
| Paths.Path.SmoothNeighbourStep | Assets/Scripts/Path/Path.cs:226-228 | one step of the neighbourhood loop: an existing anchor, wrapped, is smoothed, and the segments still pending shrink accordingly |
| Paths.Path.SmoothAnchorsAround | Assets/Scripts/Path/Path.cs:225-230 | the three steps of the neighbourhood loop and the end smoothing give the trace's last list and a valid path |
| Paths.Path.SmoothNeighbourAnchors | Assets/Scripts/Path/Path.cs:224-231 | the handles become Smoothing.NeighbourhoodSmoothed of the old ones, every anchor is kept, and the path is valid |
| Paths.Path.SmoothEveryAnchor | Assets/Scripts/Path/Path.cs:218-221 | the loop over every anchor, then end smoothing, reaches the last list of the all-anchors trace with a valid path |
| Paths.Path.SmoothAllAnchors | Assets/Scripts/Path/Path.cs:217-222 | the handles become Smoothing.AllSmoothed of the old ones, every anchor is kept, and the path is valid |
| Paths.Path.AppendSegmentHandles | Assets/Scripts/Path/Path.cs:100-103 | the handles become the old ones followed by HandleEdits.Extension, the new anchor is appended to the anchor list, and only the new segment is stale |
| Paths.Path.AddSegment | Assets/Scripts/Path/Path.cs:99-110 | three handles more and the new anchor appended to the anchor list; the handles are the old ones followed by HandleEdits.Extension, and in smooth mode that list with the neighbourhood of the new last anchor smoothed (Smoothing.NeighbourhoodSmoothed) |
| Paths.Path.InsertSegmentHandles | Assets/Scripts/Path/Path.cs:113-114 | the handles become HandleEdits.Split of the old ones, with segments s and s + 1 stale |
| Paths.Path.SmoothSplitAnchor | Assets/Scripts/Path/Path.cs:115-119 | smooth mode gives Smoothing.NeighbourhoodSmoothed of the handles around the new anchor, otherwise only the new anchor's tangents are smoothed (Smoothing.Smoothed); anchors stay |
| Paths.Path.SplitSegment | Assets/Scripts/Path/Path.cs:112-120 | three handles more and anchorPos inserted at position s + 1 of the anchor list; the handles are HandleEdits.Split of the old ones with the new anchor smoothed, or in smooth mode with its neighbourhood smoothed |
| Paths.Path.RemoveFirstAnchor | Assets/Scripts/Path/Path.cs:124-130 | the first anchor goes, after a loop's closing tangent is re-linked, and the new last segment is resampled |
| Paths.Path.RemoveLastAnchor | Assets/Scripts/Path/Path.cs:131-133 | an open path loses its last three handles and its last block |
| Paths.Path.RemoveInteriorAnchor | Assets/Scripts/Path/Path.cs:134-137 | the anchor and the tangent on either side go, and the segment before is resampled |
| Paths.Path.RemoveAnchor | Assets/Scripts/Path/Path.cs:124-138 | the three-way branch: the handles become HandleEdits.RemovedAnchor of the old ones, exactly that anchor leaves the anchor list, and the path is valid |
| Paths.Path.DeleteSegment | Assets/Scripts/Path/Path.cs:122-143 | below the minimum segment count nothing changes. Otherwise three handles fewer and exactly that anchor removed from the anchor list; the handles are HandleEdits.RemovedAnchor of the old ones, and in smooth mode that list with the neighbourhood of the deleted index smoothed |
| Paths.Path.ResampleAround | Assets/Scripts/Path/Path.cs:174-179 | resampling the existing segments at an anchor refreshes every segment a move there can stale |
| Paths.Path.MoveAnchorSmooth | Assets/Scripts/Path/Path.cs:146-151 | in smooth mode the handles become the old ones with pos at i and the neighbourhood of i smoothed (Smoothing.NeighbourhoodSmoothed); the anchor list gets pos, and the path is valid |
| Paths.Path.MoveFreeHandle | Assets/Scripts/Path/Path.cs:152-170 | without smoothing the handles become Moving.MovedFree of the old ones, and only the anchor's adjacent segments are stale |
| Paths.Path.MovePoint | Assets/Scripts/Path/Path.cs:145-180 | a tangent move in smooth mode changes nothing. A smooth anchor move gives the old handles with pos written and the neighbourhood smoothed; without smoothing the handles are Moving.MovedFree of the old ones. An anchor move puts pos into the anchor list and a tangent move keeps it. The path stays valid |
| Paths.Path.FlattenAnchors | Assets/Scripts/Path/Path.cs:183-185 | every anchor is replaced by its flattened self |
| Paths.Path.FlattenTangents | Assets/Scripts/Path/Path.cs:187-193 | moving every tangent keeps the anchor list and the path valid |
| Paths.Path.Flatten | Assets/Scripts/Path/Path.cs:182-194 | every anchor keeps x and z and ends at height 0 |
| Paths.Path.CloseLoop | Assets/Scripts/Path/Path.cs:197-206 | two handles more and the same anchors; the handles are the old ones followed by HandleEdits.Closure, in smooth mode with Smoothing.ClosingSmoothed applied |
| Paths.Path.SmoothClosingAnchors | Assets/Scripts/Path/Path.cs:202-205 | in smooth mode the handles become Smoothing.ClosingSmoothed of the old ones, both anchors at the closing segment are smoothed, and that segment is refreshed; otherwise nothing changes |
| Paths.Path.OpenLoop | Assets/Scripts/Path/Path.cs:207-213 | two handles fewer and the same anchors; the handles are the old ones minus the two closing tangents, in smooth mode with Smoothing.EndsSmoothed applied |
| Paths.Path.ToggleLoop | Assets/Scripts/Path/Path.cs:196-215 | closes or opens the path to match the flag, keeping the anchors; the handles are those CloseLoop or OpenLoop give, in both modes |
| Paths.Path.SetIsLoop | Assets/Scripts/Path/Path.cs:69-74 | the current value changes nothing; a change closes the path (the old handles, HandleEdits.Closure, and in smooth mode Smoothing.ClosingSmoothed) or opens it (the old handles minus the closing tangents, in smooth mode with Smoothing.EndsSmoothed), with the anchors kept |
| Paths.Path.SetIsSmooth | Assets/Scripts/Path/Path.cs:81-88 | the current value, or switching smoothing off, changes nothing; switching it on makes the handles Smoothing.AllSmoothed of the old ones and keeps the anchors |
| Paths.Path.SetPointsBySegment | Assets/Scripts/Path/Path.cs:56-62 | the corrected setter accepts exactly the non-negative counts and rebuilds the samples at that density; the current value changes no sample |
| Paths.Path.SetPointsBySegmentAsWritten | Assets/Scripts/Path/Path.cs:56-62 | as written: a new negative count is stored and then the allocation throws, leaving a path whose sample list does not fit its count |
| Scenarios.DefaultPath | Assets/Scripts/Path/Path.cs:21-32 | the default path has one segment and 20 samples, the first at -8569/9261 along x from the centre |
| Scenarios.AppendToDefault | Assets/Scripts/Path/Path.cs:99-110 | appending to the default path gives two segments, seven handles and 40 samples |
| Scenarios.LoopRoundTrip | Assets/Scripts/Path/Path.cs:196-215 | closing and opening a two-segment path restores its handles exactly |
| Scenarios.CloseThenOpen | Assets/Scripts/Path/Path.cs:196-215 | on any open path without smoothing, closing and then opening restores the handles and the segment count |
| Scenarios.DeleteOnlySegment | Assets/Scripts/Path/Path.cs:122-123 | deleting on a one-segment path changes neither list |
| Scenarios.ResampleTwice | Assets/Scripts/Path/Path.cs:277-283 | resampling a segment twice gives the same samples as once |
| Scenarios.NegativeCount | Assets/Scripts/Path/Path.cs:56-62 | the setter as written leaves count -1 beside 20 samples; the corrected one refuses -1 |

## Left out

- The editor front end (Assets/Scripts/Path/Editor/PathEditor.cs), the mouse ray cast, the path component and the car scripts are not part of this model. They only call the `Path` operations or have no discrete logic of their own.
- Points are triples of reals, so single-precision rounding is not modelled and every linear identity holds exactly.
- The engine's `normalized` and `magnitude` are uninterpreted functions. Smoothed handles are stated exactly, as compositions of the `Smoothing` functions over them, and the lemmas bound which handles each composition changes. Nothing is proved that depends on what the two functions compute: tangent colinearity, preserved distances, or tangent continuity after smoothing.
- Paths.Path.Flatten: the contract covers the anchors only. The tangents are rewritten through the polar rule of a non-smooth move, which goes through `normalized`, so their final heights are not stated.
- Integer overflow of 32-bit `int` is not modelled: `NumSegments * pointsBySegment` and index arithmetic are unbounded integers.
- Paths.Path.AddSegment: requires an open path. The editor offers adding a segment only when the path is not a loop (Assets/Scripts/Path/Editor/PathEditor.cs:68).
- Paths.Path.DeleteSegment: requires an anchor index. The editor passes the index of the anchor nearest the mouse (Assets/Scripts/Path/Editor/PathEditor.cs:74-77).
- Paths.Path.ToggleLoop is the original's `ToogleLoop`. Its two branches are the methods `CloseLoop` and `OpenLoop`.
- Several operations are split into small methods: AddSegment's three appends, SplitSegment, DeleteSegment's three branches, MovePoint's two modes and its final resampling, both loops of Flatten, and the loop bodies of SmoothAllAnchors and SmoothNeighbourAnchors. The two smoothing loops follow a ghost trace, the list of handle lists after each step. Each piece is one contiguous part of the original method, called in the original order. The loop that writes an anchor's two tangents is the value-level `Smoothing.SmoothTangents`, whose result `SmoothAnchor` assigns to the handle list.
- Out-of-range indices are excluded by `requires` rather than modelled as the exceptions `List<T>` throws: on MovePoint, SplitSegment, DeleteSegment, GetSegmentHandles, GetSegmentPoints and At. The editor passes only indices of existing handles and segments. LoopHandle and LoopSegment take indices from minus the count upward, the only ones the class passes them.
- `NumHandles` is the plain handle count and has no contract of its own.

## Findings

| source | as written | input that shows it | evidently intended | confidence | as-written member | corrected member |
|---|---|---|---|---|---|---|
| Assets/Scripts/Path/Path.cs:56-62 | the setter stores the new count before allocating `new Vector3[NumSegments * pointsBySegment]` | setting PointsBySegment to -1 on the default path: the allocation throws after the count became -1, leaving count -1 beside 20 samples and every later resample or sample read inconsistent | a negative count is refused (or checked before the field changes), so the path stays consistent | medium, not executed | Paths.Path.SetPointsBySegmentAsWritten | Paths.Path.SetPointsBySegment |
