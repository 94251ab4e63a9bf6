/**
 * The value computations of the wing's queries: the axis selection of
 * GetWingspan and the sum behind GetReferenceArea.
 */
module WingQueries {
  import opened Transformations
  import opened GeometryKernel
  import opened WingParts

  /** The extents of a bounding box, as the kernel reports them. */
  datatype BoundingBox = BoundingBox(xmin: real, ymin: real, zmin: real, xmax: real, ymax: real, zmax: real)

  function Max(a: real, b: real): (m: real)
    ensures m >= a && m >= b
    ensures m == a || m == b
  {
    if a > b then a else b
  }

  /**
   * The span GetWingspan reads off the box of the segment lofts: with no
   * symmetry the largest of the three extents; with the x-y or x-z plane the
   * extent normal to it; with the y-z plane xmax - ymin, as the source
   * computes it, which is the x extent only when xmin and ymin coincide.
   */
  function WingspanOfBox(axis: Symmetry, box: BoundingBox): (span: real)
    ensures axis == NoSymmetry ==>
      span >= box.xmax - box.xmin && span >= box.ymax - box.ymin && span >= box.zmax - box.zmin
      && (span == box.xmax - box.xmin || span == box.ymax - box.ymin || span == box.zmax - box.zmin)
    ensures axis == XYPlane ==> span == box.zmax - box.zmin
    ensures axis == XZPlane ==> span == box.ymax - box.ymin
    ensures axis == YZPlane ==> (span == box.xmax - box.xmin <==> box.xmin == box.ymin)
    ensures axis == YZPlane ==> span - (box.xmax - box.xmin) == box.xmin - box.ymin
  {
    match axis
    case NoSymmetry => Max(box.xmax - box.xmin, Max(box.ymax - box.ymin, box.zmax - box.zmin))
    case XYPlane => box.zmax - box.zmin
    case XZPlane => box.ymax - box.ymin
    case YZPlane => box.xmax - box.ymin
  }

  /** GetReferenceArea: the segments' projected areas, summed first to last. */
  function ReferenceAreaSum(q: SegmentQueries, segs: seq<Segment>, symPlane: Symmetry): real
    decreases |segs|
  {
    if segs == [] then 0.0 else ReferenceAreaSum(q, segs[..|segs| - 1], symPlane) + q.referenceArea(segs[|segs| - 1], symPlane)
  }

  /** The sum over a concatenation is the sum of the sums. */
  lemma {:induction false} ReferenceAreaConcat(q: SegmentQueries, a: seq<Segment>, b: seq<Segment>, symPlane: Symmetry)
    ensures ReferenceAreaSum(q, a + b, symPlane) == ReferenceAreaSum(q, a, symPlane) + ReferenceAreaSum(q, b, symPlane)
    decreases |b|
  {
    if b == [] {
      assert a + b == a;
    } else {
      assert (a + b)[..|a + b| - 1] == a + b[..|b| - 1];
      ReferenceAreaConcat(q, a, b[..|b| - 1], symPlane);
    }
  }

  /** Segments of non-negative area give a non-negative, monotone total. */
  lemma {:induction false} ReferenceAreaNonNegative(q: SegmentQueries, segs: seq<Segment>, symPlane: Symmetry)
    requires forall j :: 0 <= j < |segs| ==> q.referenceArea(segs[j], symPlane) >= 0.0
    ensures ReferenceAreaSum(q, segs, symPlane) >= 0.0
    ensures forall j :: 0 <= j < |segs| ==> ReferenceAreaSum(q, segs, symPlane) >= q.referenceArea(segs[j], symPlane)
    decreases |segs|
  {
    if segs != [] {
      var init := segs[..|segs| - 1];
      assert forall j :: 0 <= j < |init| ==> init[j] == segs[j];
      ReferenceAreaNonNegative(q, init, symPlane);
    }
  }

  /**
   * GetSegmentEtaXsi's search: the 1-based index of the first segment the
   * point lies on, or -1 when it lies on none.
   */
  function FirstSegmentOn(q: SegmentQueries, segs: seq<Segment>, p: Point): (index: int)
    ensures index == -1 <==> forall j :: 0 <= j < |segs| ==> !q.isOn(segs[j], p)
    ensures index != -1 ==>
      1 <= index <= |segs| && q.isOn(segs[index - 1], p)
      && forall j :: 0 <= j < index - 1 ==> !q.isOn(segs[j], p)
    decreases |segs|
  {
    if segs == [] then -1
    else if q.isOn(segs[0], p) then 1
    else
      var rest := FirstSegmentOn(q, segs[1..], p);
      assert forall j :: 1 <= j < |segs| ==> segs[j] == segs[1..][j - 1];
      if rest == -1 then -1 else rest + 1
  }

  /** The 0-based position of the first segment holding a guide curve `uid`, or |segs|. */
  function GuideCurveOwner(segs: seq<Segment>, uid: string): (i: nat)
    ensures i <= |segs|
    ensures i < |segs| ==> uid in segs[i].guideCurves
    ensures forall j :: 0 <= j < i ==> uid !in segs[j].guideCurves
    decreases |segs|
  {
    if segs == [] || uid in segs[0].guideCurves then 0
    else
      assert forall j :: 1 <= j < |segs| ==> segs[j] == segs[1..][j - 1];
      GuideCurveOwner(segs[1..], uid) + 1
  }

  function GuideCurveMissing(uid: string): Error {
    Error(TiglError, "Error: Guide Curve with UID " + uid + " does not exists")
  }

  /**
   * GetGuideCurve's search: the curve of the first segment that has `uid`,
   * or the missing-curve error when none has it.
   */
  function FindGuideCurve(segs: seq<Segment>, uid: string): (r: Result<GuideCurve>)
    ensures r.Err? <==> forall j :: 0 <= j < |segs| ==> uid !in segs[j].guideCurves
    ensures r.Err? ==> r.error == GuideCurveMissing(uid)
    ensures r.Ok? ==> var i := GuideCurveOwner(segs, uid);
      i < |segs| && r.value == segs[i].guideCurves[uid]
  {
    var i := GuideCurveOwner(segs, uid);
    if i == |segs| then Err(GuideCurveMissing(uid)) else Ok(segs[i].guideCurves[uid])
  }
}
