# CPACS wing component: state, caches and orchestration

This project models the wing component of the TiGL geometry library, `CCPACSWing`. It covers the parts of the wing that
do not depend on geometry:

- the component transformation: its composition order and its inverse;
- the dirty flags that drive lazy rebuilding of the cached shapes;
- the order in which cross-section wires are collected for lofting;
- the control-surface (trailing edge device) pipeline, which cuts devices out of the wing, caches their lofts and
  assembles a compound of deflected devices and the residual wing;
- the ordered searches over segments (point location, guide curves);
- the reference-area sum and the wingspan axis selection;
- the 1-based, bounds-checked element access of `CCPACSWingSectionElements`.

The geometry kernel (OpenCASCADE) is kept opaque.

- A shape is a handle: `Null`, a kernel shape, or a compound.
- The kernel's transform, wire test, loft, cut and common are fields of a `Kernel` value. These are total functions,
  and nothing is known about them unless a lemma's requires says so. Every result therefore holds for every kernel.
- The segments' own geometric queries (point membership, eta/xsi, top surface, projected area) are the `SegmentQueries`
  value in the same way.
- A transformation is the list of its primitive operations, in application order. Its inverse is the reversed list of
  inverted primitives. `Apply` gives the list a meaning under any interpretation of the primitives.

Modules:

- `Transformations` (`transformations.dfy`): primitives, inverse, and the wing matrix.
- `GeometryKernel` (`geometry_kernel.dfy`): shapes, the kernel, errors and results.
- `WingParts` (`wing_parts.dfy`): connections, segments, component segments and devices.
- `Lofting` (`lofting.dfy`): `transformToWingCoords` and the section wires as functions.
- `FlapPipeline` (`flap_pipeline.dfy`): the flap pipeline as a fold over the wing's state, with its properties.
- `WingQueries` (`wing_queries.dfy`): the searches, the area sum and the wingspan selection.
- `SectionElements` (`section_elements.dfy`): the section element list.
- `CpacsWing` (`wing.dfy`): the class `Wing`, holding the fields the C++ object updates in place. Its methods are
  proved against the functions above.

A thrown `CTiglError` is an `Err` value (code and message). A method that only throws or returns nothing gives an
`Outcome`. A method whose error leaves the wing as it was states `unchanged(this)` for that case.

## Model

| member | source | states |
|---|---|---|
| Transformations.Inverted | src/wing/CCPACSWing.cpp:144 | the inverse has the same length and its i-th primitive is the inverse of the i-th primitive from the end |
| Transformations.InvertedInvolution | src/wing/CCPACSWing.cpp:144 | inverting the back transformation gives the transformation again |
| Transformations.InvertedConcat | src/wing/CCPACSWing.cpp:126-145 | the inverse of "a then b" is the inverse of b followed by the inverse of a |
| Transformations.ApplyConcat | src/wing/CCPACSWing.cpp:126-145 | applying "a then b" to a point applies a first and b second |
| Transformations.InvertedUndoes | src/wing/CCPACSWing.cpp:126-145 | when each primitive of the transformation and its inverse undo each other, backTransformation after transformation, and before it, is the identity on every point |
| Transformations.WingMatrixOrder | src/wing/CCPACSWing.cpp:126-145 | the wing matrix is exactly scale, rotation about z, y and x, then translation |
| Transformations.WingMatrix | src/wing/CCPACSWing.cpp:126-142 | the wing matrix from the three vectors; its order is stated by WingMatrixOrder and its inverse by WingMatrixRoundTrip |
| Transformations.WingMatrixRoundTrip | src/wing/CCPACSWing.cpp:126-145 | with non-zero scale factors, componentwise scaling, additive translation and reversible rotations, the wing's backTransformation undoes its transformation and the other way round |
| Transformations.WingBackTransformation | src/wing/CCPACSWing.cpp:126-145 | the back transformation is translate back, un-rotate x, y, z, then the reciprocal scaling |
| Lofting.TransformToWingCoords | src/wing/CCPACSWing.cpp:61-80 | element, then section, then positioning transformation; the result is a wire, or the wrong-shape-type error |
| Lofting.TransformToWingCoordsComposes | src/wing/CCPACSWing.cpp:61-80 | with a kernel whose transform composes, the three steps are one transformation in the order element, section, positioning |
| Lofting.TransformedWires | src/wing/CCPACSWing.cpp:442-448 | one wire per section, in order, or the wrong-shape-type error of the first section that is not a wire; the same loop builds the shell wires at lines 467-475 |
| Lofting.TransformedWiresPrefixErr | src/wing/CCPACSWing.cpp:442-454 | a failure among the first wires is the failure of the whole collection (the first throw wins) |
| Lofting.TransformedWiresAt | src/wing/CCPACSWing.cpp:442-454 | the wires exist exactly when every section transforms to a wire, and then the i-th wire is the i-th section's |
| Lofting.SectionWires | src/wing/CCPACSWing.cpp:437-454 | the wires of one loft through every section, or the first error; its content is stated by SectionWiresOrder |
| Lofting.SectionWiresOrder | src/wing/CCPACSWing.cpp:437-491 | for N segments: wires exist iff N >= 1 and every connection yields a wire; then there are N + 1 of them, the inner connection of segments 1..N in order and then the outer connection of segment N |
| Lofting.FusedShape | src/wing/CCPACSWing.cpp:437-459 | the fused loft exists iff the section wires do; it is the solid loft through them moved by the wing matrix; otherwise the loft error |
| Lofting.ShellWires | src/wing/CCPACSWing.cpp:462-486 | the upper wires are collected before the lower ones; the pair exists only when both do, and the first failure is the result |
| Lofting.ShellShapes | src/wing/CCPACSWing.cpp:462-491 | both shells exist iff the upper and the lower wires do; each is the non-solid loft through its wires moved by the wing matrix |
| FlapPipeline.Deflection | src/wing/CCPACSWing.cpp:380 | a device's deflection is its map entry, and 0.0 when the map has none |
| FlapPipeline.Deflect | src/wing/CCPACSWing.cpp:378-383 | a device's loft moved by the device transformation for its looked-up deflection (0 when absent) |
| FlapPipeline.WingLoft | src/wing/CCPACSWing.cpp:345-350 | the shape the next device is cut from: the cut-out shape when there is one, otherwise the wing loft |
| FlapPipeline.Residual | src/wing/CCPACSWing.cpp:390-393 | the residual wing: the last cut, or the wing loft when no device made or met one |
| FlapPipeline.VisitOrder | src/wing/CCPACSWing.cpp:336-388 | the order the two loops visit devices: component segments first to last, each one's devices last to first |
| FlapPipeline.VisitDevice | src/wing/CCPACSWing.cpp:343-386 | one device step keeps the uid and prism, adds exactly one deflected loft, counts a cut/common only for an uncached device, whose cached loft is the common part and whose new cut-out shape is the cut of its prism with the current wing shape, leaves a cached device and the cut-out shape alone, and ends with the last residual equal to the cut-out shape after a cut |
| FlapPipeline.Pipeline | src/wing/CCPACSWing.cpp:327-399 | the whole run keeps the number of component segments and adds one part per device |
| FlapPipeline.FlapCompound | src/wing/CCPACSWing.cpp:390-398 | the compound of the deflected parts and the residual; its content is stated by PipelineCompound |
| FlapPipeline.VisitDown | src/wing/CCPACSWing.cpp:342-387 | counting down from device j keeps the device count and leaves devices after j as they were |
| FlapPipeline.VisitSegments | src/wing/CCPACSWing.cpp:336-388 | visiting component segments 1..i keeps their number and leaves the later ones as they were |
| FlapPipeline.VisitDownKeeps | src/wing/CCPACSWing.cpp:342-387 | the inner loop changes no device's uid or cut-out prism |
| FlapPipeline.VisitDownParts | src/wing/CCPACSWing.cpp:380-386 | the inner loop appends, device j down to device 1, each device's final loft moved by its deflection |
| FlapPipeline.VisitSegmentsParts | src/wing/CCPACSWing.cpp:336-388 | the outer loop appends one deflected loft per device of the visited component segments, in visit order |
| FlapPipeline.PipelineCompound | src/wing/CCPACSWing.cpp:327-399 | the compound is exactly one deflected shape per device, in visit order (segments ascending, devices descending), each the device's cached loft, followed by the residual wing |
| FlapPipeline.VisitDownCounts | src/wing/CCPACSWing.cpp:356-378 | one cut/common pair per device whose loft was null; after any device the last residual is the cut-out shape |
| FlapPipeline.VisitDownCached | src/wing/CCPACSWing.cpp:373-377 | over cached devices the inner loop changes no device and no cut-out shape and performs no cut/common |
| FlapPipeline.VisitDownFills | src/wing/CCPACSWing.cpp:356-372 | with a kernel whose common part is never null, every visited device has a loft afterwards |
| FlapPipeline.VisitSegmentsCounts | src/wing/CCPACSWing.cpp:336-388 | cut/common pairs equal the uncached devices visited; with none visited, nothing changes |
| FlapPipeline.VisitSegmentsCached | src/wing/CCPACSWing.cpp:336-388 | over cached component segments the pipeline leaves them and the cut-out shape alone and performs no cut/common |
| FlapPipeline.VisitSegmentsFills | src/wing/CCPACSWing.cpp:356-372 | with a kernel whose common part is never null, every device of a visited component segment is cached afterwards |
| FlapPipeline.PipelineCaches | src/wing/CCPACSWing.cpp:356-372 | with a kernel whose common part is never null, every device's loft is cached after one run |
| FlapPipeline.PipelineIdempotent | src/wing/CCPACSWing.cpp:327-399 | with a kernel whose common part is never null, repeating the pipeline with the same deflections performs no new cut/common, changes no cached shape and returns the same compound; with a cut that is never null, at least one device and a cut-out shape found or made, this holds also when the rerun reads a different wing loft |
| FlapPipeline.VisitSegmentsIgnoresWingLoft | src/wing/CCPACSWing.cpp:345-351 | once a cut-out shape exists (cut never null) the loop gives the same result for every wing loft and keeps the cut-out shape set |
| FlapPipeline.VisitSegmentsSetsCutOut | src/wing/CCPACSWing.cpp:356-372 | with a cut that is never null, a run that starts with a cut-out shape or meets an uncached device ends with one |
| FlapPipeline.RerunIgnoresWingLoft | src/wing/CCPACSWing.cpp:345-397 | after a run that visited a device and found or made a cut-out shape, a rerun gives the same state and compound whatever wing loft it reads |
| FlapPipeline.PipelineBooleanOps | src/wing/CCPACSWing.cpp:356-372 | the cut/common pairs of a run are exactly the devices whose loft was null |
| FlapPipeline.VisitDownChain | src/wing/CCPACSWing.cpp:345-366 | over uncached devices, each device is cut from the residual of the one before: the wing shape is the chain of cuts in visit order |
| FlapPipeline.VisitSegmentsChain | src/wing/CCPACSWing.cpp:336-388 | the chain of cuts carries across component segments in visit order |
| FlapPipeline.PipelineFirstRun | src/wing/CCPACSWing.cpp:327-399 | on a first run (no cut-out shape, no cached device, a kernel whose cut is never null) the residual wing is the wing loft cut by every device's prism in visit order, with one cut/common per device |
| FlapPipeline.VisitDownCommon | src/wing/CCPACSWing.cpp:356-372 | over uncached devices, each device caches the common part of its prism with the wing shape cut by the devices visited before it in the inner loop |
| FlapPipeline.VisitSegmentsCommon | src/wing/CCPACSWing.cpp:336-388 | over fresh component segments, device m of segment s caches the common part of its prism with the wing shape cut by all devices of earlier segments, then by those above m in s |
| FlapPipeline.PipelineFirstRunCaches | src/wing/CCPACSWing.cpp:327-399 | on a first run (cut never null) every device keeps its count and caches the common part of its prism with the wing loft cut by every device visited before it |
| FlapPipeline.VisitDownSameDeflections | src/wing/CCPACSWing.cpp:380 | the map matters only through each device's looked-up deflection |
| FlapPipeline.VisitSegmentsSameDeflections | src/wing/CCPACSWing.cpp:380 | two maps that agree on every device's deflection give the same run |
| FlapPipeline.ExtendFlapMap | src/wing/CCPACSWing.cpp:319-324 | the named device gets the percentage and every other device 0.0 |
| FlapPipeline.ExtendFlapZeroIsUndeflected | src/wing/CCPACSWing.cpp:319-324 | extending a flap by 0 gives what the empty map gives |
| FlapPipeline.PipelineStateIndependent | src/wing/CCPACSWing.cpp:342-386 | the state a run leaves (device lofts, cut-out and clean shapes, last residual, cut/common count) is the same for every deflection map |
| FlapPipeline.PipelineRedeflects | src/wing/CCPACSWing.cpp:327-399 | a run with new deflections after a run with any deflections (common never null) does no cut/common, keeps the devices and the cut-out shape, and returns the cached lofts moved by the new deflections followed by the earlier residual; under the conditions of PipelineIdempotent, also when the rerun reads a different wing loft |
| FlapPipeline.ExtendFlapThenRetract | src/wing/CCPACSWing.cpp:319-399 | ExtendFlap(uid, p) then ExtendFlap(uid, 0) (common never null) does no cut/common on the second call, leaves the state of an undeflected run and returns the undeflected compound; under the conditions of PipelineIdempotent, also when the second call reads a different wing loft |
| FlapPipeline.PipelineResidual | src/wing/CCPACSWing.cpp:390-393 | the residual is the current wing shape whenever a device was visited or the run started without a cut-out shape |
| FlapPipeline.PipelineWithoutDevices | src/wing/CCPACSWing.cpp:390-398 | with no devices the state is untouched and the compound is the wing loft alone |
| SectionElements.Int32Of | src/wing/CCPACSWingSectionElements.cpp:37 | the cast keeps sizes below 2^31, never exceeds the size and agrees with it modulo 2^32 |
| SectionElements.GetSectionElementCount | src/wing/CCPACSWingSectionElements.cpp:35-38 | the count is the number of stored elements (below 2^31) |
| SectionElements.GetSectionElement | src/wing/CCPACSWingSectionElements.cpp:41-48 | success only for 1 <= index <= size, with the element at position index - 1; otherwise the index error; for a list below 2^31 elements, success exactly in that range |
| SectionElements.ReadBack | src/wing/CCPACSWingSectionElements.cpp:41-48 | reading every index 1..count gives the elements in order; an index <= 0 or > count is an index error |
| SectionElements.OversizedUnreadable | src/wing/CCPACSWingSectionElements.cpp:35-48 | with 2^31 up to 2^32 - 1 elements the count is negative and every index is rejected |
| WingQueries.Max | src/wing/CCPACSWing.cpp:56-59 | the maximum bounds both values and is one of them |
| WingQueries.ReferenceAreaSum | src/wing/CCPACSWing.cpp:568-576 | the reference area of the wing: the segments' areas added first to last, 0 for no segment; its properties are stated by ReferenceAreaConcat and ReferenceAreaNonNegative |
| WingQueries.WingspanOfBox | src/wing/CCPACSWing.cpp:620-663 | no symmetry: the largest extent; x-y plane: the z extent; x-z plane: the y extent; y-z plane: xmax - ymin, equal to the x extent exactly when xmin == ymin |
| WingQueries.ReferenceAreaConcat | src/wing/CCPACSWing.cpp:568-576 | the area of a concatenation of segment lists is the sum of their areas |
| WingQueries.ReferenceAreaNonNegative | src/wing/CCPACSWing.cpp:568-576 | with non-negative segment areas the total is non-negative and at least each segment's area |
| WingQueries.FirstSegmentOn | src/wing/CCPACSWing.cpp:740-763 | -1 exactly when the point is on no segment; otherwise the lowest 1-based index whose segment contains the point |
| WingQueries.GuideCurveOwner | src/wing/CCPACSWing.cpp:766-775 | the position of the first segment holding the uid; no earlier segment holds it |
| WingQueries.FindGuideCurve | src/wing/CCPACSWing.cpp:766-775 | the error exactly when no segment holds the uid, with the message naming it; otherwise the first holder's curve |
| CpacsWing.Wing.constructor | src/wing/CCPACSWing.cpp:85-94 | all rebuild flags set, the back transformation the identity, then Cleanup: identity, unit scaling, zero rotation and translation, invalidated |
| CpacsWing.Wing.Invalidate | src/wing/CCPACSWing.cpp:103-108 | sets invalidated and invalidates the segments, then the positionings |
| CpacsWing.Wing.Cleanup | src/wing/CCPACSWing.cpp:111-123 | empty name, identity, unit scaling, zero rotation and translation, then Invalidate |
| CpacsWing.Wing.BuildMatrix | src/wing/CCPACSWing.cpp:126-145 | transformation becomes the wing matrix of the current scaling, rotation and translation, and backTransformation its inverse |
| CpacsWing.Wing.Update | src/wing/CCPACSWing.cpp:148-158 | a valid wing is unchanged (so a second Update is a no-op); an invalidated one gets a fresh matrix and inverse, is validated and has both loft rebuild flags set |
| CpacsWing.Wing.Translate | src/wing/CCPACSWing.cpp:539-546 | adds the offset, invalidates the segments and component segments, and ends validated with the new matrix and both rebuild flags set |
| CpacsWing.Wing.SetSymmetryAxis | src/wing/CCPACSWing.cpp:605-618 | the wing, every segment and every component segment get the axis; nothing else in them changes |
| CpacsWing.Wing.GetWingTransformation | src/wing/CCPACSWing.cpp:496-500 | updates, then returns the current wing matrix |
| CpacsWing.Wing.CollectLoftWires | src/wing/CCPACSWing.cpp:440-454 | the wires collected are exactly the section wires of the whole profiles, or their error |
| CpacsWing.Wing.BuildFusedSegments | src/wing/CCPACSWing.cpp:437-459 | returns the fused shape of the current matrix; an error leaves the wing unchanged |
| CpacsWing.Wing.CollectShellWires | src/wing/CCPACSWing.cpp:464-486 | the wires collected are exactly both shells' section wires, or their error |
| CpacsWing.Wing.CollectStartWires | src/wing/CCPACSWing.cpp:467-475 | the inner wires of segments 1..N for both shells, in order, or a failure of one of the shells' wires |
| CpacsWing.Wing.BuildUpperLowerShells | src/wing/CCPACSWing.cpp:462-491 | stores both shells of the current matrix; an error leaves the wing unchanged |
| CpacsWing.Wing.PlaceShells | src/wing/CCPACSWing.cpp:487-490 | each shell is stored moved by the wing matrix |
| CpacsWing.Wing.GetLoftWithLeadingEdge | src/wing/CCPACSWing.cpp:309-316 | rebuilds only while rebuildFusedSegWEdge is set, which is clear afterwards; otherwise returns the cached shape unchanged |
| CpacsWing.Wing.EnsureShells | src/wing/CCPACSWing.cpp:402-409 | the shells are rebuilt only while rebuildShells is set, which is clear afterwards |
| CpacsWing.Wing.GetUpperShape | src/wing/CCPACSWing.cpp:402-409 | the upper shell, rebuilt with the lower one only while the shared flag is set |
| CpacsWing.Wing.GetLowerShape | src/wing/CCPACSWing.cpp:412-419 | the lower shell, rebuilt with the upper one only while the shared flag is set |
| CpacsWing.Wing.BuildFusedSegmentsWithFlaps | src/wing/CCPACSWing.cpp:327-399 | the new cut-out and clean shapes, device lofts and returned compound are those of the pipeline; the compound is stored in loft |
| CpacsWing.Wing.CutDevices | src/wing/CCPACSWing.cpp:342-387 | one component segment's devices, last to first, as the pipeline's inner loop |
| CpacsWing.Wing.CutDevice | src/wing/CCPACSWing.cpp:343-386 | one device: cut and common only without a cached loft, then deflected and added |
| CpacsWing.Wing.ExtendFlap | src/wing/CCPACSWing.cpp:319-324 | the pipeline with only the named device deflected |
| CpacsWing.Wing.GetWingWithoutFlaps | src/wing/CCPACSWing.cpp:426-434 | runs the undeflected pipeline only when no cut-out shape is stored, and returns the stored cut-out shape |
| CpacsWing.Wing.GetSegmentEtaXsi | src/wing/CCPACSWing.cpp:740-763 | the first segment containing the point, with its eta, xsi and top answer; -1 with the outputs untouched when there is none |
| CpacsWing.Wing.GetGuideCurve | src/wing/CCPACSWing.cpp:766-775 | the curve of the first segment holding the uid, or the missing-curve error |
| CpacsWing.Wing.GetReferenceArea | src/wing/CCPACSWing.cpp:568-576 | the sum of the segments' reference areas, first to last |

## Left out

- ReadCPACS (document reading through TIXI) and UID registration are not modelled. The constructor's list arguments
  stand in for the segments and component segments that reading fills in. The rest of what reading does (Cleanup, the
  writes of name, translation, scaling and rotation, SetSymmetryAxis, then Update) is left to a caller, through the
  modelled methods and fields.
- Geometry: lofting, boolean operations, transforms and bounding boxes are opaque kernel operations, so nothing is
  proved about actual shapes. The ruled flag, the precision and CheckCompatibility of the loft generator are not
  modelled. A shape type other than a wire is the kernel's `isWire` answer.
- GetWingMAC, GetVolume, GetSurfaceArea and GetWettedArea are left out. They are floating-point integrations done by the
  kernel.
- `double` is modelled as `real`, so there is no rounding.
- A zero scale factor has no inverse: `Recip` maps 0 to 0. `InvertedUndoes` therefore asks only that the primitives
  the transformation contains are undone by their inverses, and `WingMatrixRoundTrip` gives the wing's round trip for
  non-zero scale factors only. Rotations are reversible by assumption, since trigonometry is not modelled.
- PipelineIdempotent: a rerun in the source reads GetLoft afresh, and GetLoft may by then return the compound stored
  in `loft` by the first run. The lemma covers a rerun with a different wing loft only when the first run visited a
  device and found or cut a cut-out shape. With no device (or no cut-out shape) that rerun lofts the stored compound
  again, giving a compound that holds the first one; this is not stated. GetLoft's own rebuild (BuildLoft, then
  BuildFusedSegments, then GetWingTransformation and Update) writes fields outside the frame of
  `BuildFusedSegmentsWithFlaps`, and it is not modelled.
- PipelineRedeflects: the rerun with a different wing loft is covered under the same conditions as PipelineIdempotent.
- ExtendFlapThenRetract: the second call with a different wing loft is covered under the same conditions as
  PipelineIdempotent.
- CpacsWing.Wing.constructor: the default-constructed back transformation is taken as the identity, since
  CTiglTransformation is not part of this model.
- GetWingspan: only the axis selection is modelled, as `WingQueries.WingspanOfBox` over given extents. The box
  accumulation over the segment lofts and their mirrored lofts is kernel work.
- The base component class (`CTiglAbstractGeometricComponent`) is not part of this model:
  - its `GetLoft` is a parameter, `wingLoft`, of the flap methods (see the PipelineIdempotent line above);
  - its `Translate` is taken as adding the offset to the translation;
  - `Reset` in Cleanup is not modelled;
  - the symmetry axis is taken already parsed from its string form.
- Trailing edge devices are held by value inside the component segments. The device class is not part of this model,
  and its deflection transformation is the opaque `DeviceDeflection` value.
- `std::map::operator[]` inserts a 0.0 entry for a missing device into the map. The map is a by-value copy, so only the
  value read is modelled.
- The `splitWingInUpperAndLower` flag is passed but never used by the source, and is ignored here.
- `GetSegment(0)`, reached with no segments, throws from the segment list, which is not part of this model. Its error
  is modelled as `NoSuchSegment`, with an assumed message.
- GetSectionElement with `index` equal to INT_MIN makes `index--` overflow, which is undefined behaviour in C++. The
  model computes `index - 1` without wrap-around.
- The rebuildFusedSegments flag is set by Update but read only by the base class, which is not part of this model.
  Update never sets rebuildFusedSegWEdge, so a stale leading-edge loft persists after an update; this is modelled as
  written.
- GetWingWithoutFlaps returns a null shape when the wing has no devices (`FlapPipeline.PipelineWithoutDevices`). This is
  modelled as written.
- The Y-Z case of GetWingspan returns `xmax - ymin`, which is modelled as written.
- Thin forwarding getters are not modelled: GetName, GetSection, GetSegment, GetComponentSegment, GetUpperPoint,
  GetLowerPoint, the segment surfaces and GetPositioningTransformation. They only forward to child collections.
- The destructor's Cleanup is not modelled, because no state outlives it.
