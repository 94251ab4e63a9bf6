/**
 * CCPACSWing: the wing's transformation state, its dirty flags and cached
 * shapes, and the operations that drive them. The geometry kernel and the
 * segments' own geometry are the opaque `kernel` and `queries` values.
 */
module CpacsWing {
  import opened Transformations
  import opened GeometryKernel
  import opened WingParts
  import opened Lofting
  import opened FlapPipeline
  import opened WingQueries

  /** A call the wing makes into one of its child collections' Invalidate. */
  datatype ChildInvalidation = SegmentsInvalidated | PositioningsInvalidated | ComponentSegmentsInvalidated

  const CleanupInvalidations := [SegmentsInvalidated, PositioningsInvalidated]

  const TranslateInvalidations := [SegmentsInvalidated, ComponentSegmentsInvalidated]

  class Wing {
    const kernel: Kernel
    const queries: SegmentQueries

    var name: string
    var translation: Point
    var scaling: Point
    var rotation: Point
    var transformation: Transformation
    var backTransformation: Transformation
    var symmetryAxis: Symmetry

    var invalidated: bool
    var rebuildFusedSegments: bool
    var rebuildFusedSegWEdge: bool
    var rebuildShells: bool

    var segments: seq<Segment>
    var componentSegments: seq<ComponentSegment>

    var fusedSegmentWithEdge: Shape
    var upperShape: Shape
    var lowerShape: Shape
    var loft: Shape
    var wingCutOutShape: Shape
    var wingCleanShape: Shape

    /** The Invalidate calls made into the child collections, in order. */
    ghost var childInvalidations: seq<ChildInvalidation>

    /** Once validated, the matrices are those of the current scaling, rotation and translation. */
    ghost predicate Valid()
      reads this`invalidated, this`transformation, this`backTransformation, this`scaling, this`rotation, this`translation
    {
      !invalidated ==>
        transformation == WingMatrix(scaling, rotation, translation)
        && backTransformation == Inverted(transformation)
    }

    /**
     * What Update leaves: a validated wing whose matrices are current; when
     * it was invalidated, both loft rebuild flags set; otherwise nothing
     * changed.
     */
    twostate predicate Updated()
      reads this`invalidated, this`transformation, this`backTransformation, this`scaling, this`rotation, this`translation,
            this`rebuildFusedSegments, this`rebuildShells
    {
      !invalidated
      && (old(invalidated) ==>
            transformation == WingMatrix(scaling, rotation, translation)
            && backTransformation == Inverted(transformation)
            && rebuildFusedSegments && rebuildShells)
      && (!old(invalidated) ==>
            transformation == old(transformation) && backTransformation == old(backTransformation)
            && rebuildFusedSegments == old(rebuildFusedSegments) && rebuildShells == old(rebuildShells))
    }

    /**
     * The state a flap pipeline run with `deflections` leaves, `r` being its
     * result: the cut-out and clean shapes and the device lofts of the run,
     * and its compound stored in `loft`.
     */
    twostate predicate PipelineRan(wingLoft: Shape, deflections: map<string, real>, r: Shape)
      reads this`wingCutOutShape, this`wingCleanShape, this`componentSegments, this`loft
    {
      var run := Pipeline(kernel, wingLoft, deflections, old(wingCutOutShape), old(wingCleanShape), old(componentSegments));
      wingCutOutShape == run.0.cutOut && wingCleanShape == run.0.clean && componentSegments == run.1
      && r == FlapCompound(wingLoft, run.0) && loft == r
    }

    /**
     * A wing over the given child lists: every rebuild flag set, then
     * Cleanup. The lists stand for what reading the document fills in.
     */
    constructor(kernel: Kernel, queries: SegmentQueries, segments: seq<Segment>, componentSegments: seq<ComponentSegment>)
      ensures this.kernel == kernel && this.queries == queries
      ensures this.segments == segments && this.componentSegments == componentSegments
      ensures name == "" && transformation == Identity && backTransformation == Identity
      ensures translation == Point(0.0, 0.0, 0.0) && scaling == Point(1.0, 1.0, 1.0) && rotation == Point(0.0, 0.0, 0.0)
      ensures invalidated && rebuildFusedSegments && rebuildFusedSegWEdge && rebuildShells
      ensures fusedSegmentWithEdge == Null && upperShape == Null && lowerShape == Null
      ensures loft == Null && wingCutOutShape == Null && wingCleanShape == Null
      ensures symmetryAxis == NoSymmetry
      ensures childInvalidations == CleanupInvalidations
      ensures Valid()
    {
      this.kernel := kernel;
      this.queries := queries;
      this.segments := segments;
      this.componentSegments := componentSegments;
      rebuildFusedSegments := true;
      rebuildFusedSegWEdge := true;
      rebuildShells := true;
      symmetryAxis := NoSymmetry;
      fusedSegmentWithEdge, upperShape, lowerShape := Null, Null, Null;
      loft, wingCutOutShape, wingCleanShape := Null, Null, Null;
      childInvalidations := [];
      backTransformation := Identity;
      new;
      Cleanup();
    }

    /** Marks the wing invalid and invalidates the segments and the positionings. */
    method Invalidate()
      modifies this`invalidated, this`childInvalidations
      ensures invalidated
      ensures childInvalidations == old(childInvalidations) + CleanupInvalidations
      ensures Valid()
    {
      invalidated := true;
      childInvalidations := childInvalidations + [SegmentsInvalidated];
      childInvalidations := childInvalidations + [PositioningsInvalidated];
    }

    /** Resets name and transformation data, then invalidates. */
    method Cleanup()
      modifies this`name, this`transformation, this`translation, this`scaling, this`rotation,
               this`invalidated, this`childInvalidations
      ensures name == "" && transformation == Identity
      ensures translation == Point(0.0, 0.0, 0.0) && scaling == Point(1.0, 1.0, 1.0) && rotation == Point(0.0, 0.0, 0.0)
      ensures invalidated
      ensures childInvalidations == old(childInvalidations) + CleanupInvalidations
      ensures Valid()
    {
      name := "";
      transformation := Identity;
      translation := Point(0.0, 0.0, 0.0);
      scaling := Point(1.0, 1.0, 1.0);
      rotation := Point(0.0, 0.0, 0.0);
      Invalidate();
    }

    /**
     * From the identity: scale, rotate about z, y and x, translate; then the
     * inverse. The order is spelled out by WingMatrixOrder; for non-zero
     * scale factors the inverse undoes it by WingMatrixRoundTrip.
     */
    method BuildMatrix()
      modifies this`transformation, this`backTransformation
      ensures transformation == WingMatrix(scaling, rotation, translation)
      ensures backTransformation == Inverted(transformation)
    {
      transformation := Identity;
      transformation := Then(transformation, Scale(scaling));
      transformation := Then(transformation, RotateZ(rotation.z));
      transformation := Then(transformation, RotateY(rotation.y));
      transformation := Then(transformation, RotateX(rotation.x));
      transformation := Then(transformation, Op.Translate(translation));
      backTransformation := Inverted(transformation);
    }

    /**
     * Rebuilds the matrices if invalidated and sets both loft rebuild flags;
     * a valid wing is left as it is, so a second Update changes nothing.
     * rebuildFusedSegWEdge is not touched.
     */
    method Update()
      modifies this`transformation, this`backTransformation, this`invalidated, this`rebuildFusedSegments, this`rebuildShells
      ensures Updated()
      ensures !old(invalidated) ==> unchanged(this)
      ensures old(invalidated) || old(Valid()) ==> Valid()
    {
      if !invalidated {
        return;
      }
      BuildMatrix();
      invalidated := false;
      rebuildFusedSegments := true;
      rebuildShells := true;
    }

    /**
     * Moves the wing by `trans`, invalidates the segments and the component
     * segments, and updates: the matrices then include the new translation
     * and both loft rebuild flags are set.
     */
    method Translate(trans: Point)
      modifies this`translation, this`invalidated, this`childInvalidations,
               this`transformation, this`backTransformation, this`rebuildFusedSegments, this`rebuildShells
      ensures translation == Plus(old(translation), trans)
      ensures !invalidated && rebuildFusedSegments && rebuildShells
      ensures transformation == WingMatrix(scaling, rotation, translation)
      ensures backTransformation == Inverted(transformation)
      ensures childInvalidations == old(childInvalidations) + TranslateInvalidations
      ensures Valid()
    {
      translation := Plus(translation, trans);
      invalidated := true;
      childInvalidations := childInvalidations + [SegmentsInvalidated];
      childInvalidations := childInvalidations + [ComponentSegmentsInvalidated];
      Update();
    }

    /** Sets the symmetry axis of the wing, of every segment and of every component segment. */
    method SetSymmetryAxis(axis: Symmetry)
      modifies this`symmetryAxis, this`segments, this`componentSegments
      ensures symmetryAxis == axis
      ensures |segments| == |old(segments)|
      ensures forall k :: 0 <= k < |segments| ==> segments[k] == old(segments)[k].(symmetry := axis)
      ensures |componentSegments| == |old(componentSegments)|
      ensures forall k :: 0 <= k < |componentSegments| ==> componentSegments[k] == old(componentSegments)[k].(symmetry := axis)
    {
      symmetryAxis := axis;
      var i := 1;
      while i <= |segments|
        invariant 1 <= i <= |segments| + 1
        invariant symmetryAxis == axis && componentSegments == old(componentSegments)
        invariant |segments| == |old(segments)|
        invariant forall k :: 0 <= k < i - 1 ==> segments[k] == old(segments)[k].(symmetry := axis)
        invariant forall k :: i - 1 <= k < |segments| ==> segments[k] == old(segments)[k]
      {
        segments := segments[i - 1 := segments[i - 1].(symmetry := axis)];
        i := i + 1;
      }
      i := 1;
      while i <= |componentSegments|
        invariant 1 <= i <= |componentSegments| + 1
        invariant symmetryAxis == axis && |segments| == |old(segments)|
        invariant forall k :: 0 <= k < |segments| ==> segments[k] == old(segments)[k].(symmetry := axis)
        invariant |componentSegments| == |old(componentSegments)|
        invariant forall k :: 0 <= k < i - 1 ==> componentSegments[k] == old(componentSegments)[k].(symmetry := axis)
        invariant forall k :: i - 1 <= k < |componentSegments| ==> componentSegments[k] == old(componentSegments)[k]
      {
        componentSegments := componentSegments[i - 1 := componentSegments[i - 1].(symmetry := axis)];
        i := i + 1;
      }
    }

    /** Updates, then returns the wing matrix of the current scaling, rotation and translation. */
    method GetWingTransformation() returns (t: Transformation)
      requires Valid()
      modifies this`transformation, this`backTransformation, this`invalidated, this`rebuildFusedSegments, this`rebuildShells
      ensures Updated() && Valid()
      ensures t == transformation && t == WingMatrix(scaling, rotation, translation)
    {
      Update();
      t := transformation;
    }

    /**
     * The wires BuildFusedSegments lofts through: the inner wire of segments
     * 1..N, then the outer wire of segment N, each in wing coordinates.
     */
    method CollectLoftWires() returns (res: Result<seq<Shape>>)
      ensures res == SectionWires(kernel, segments, Whole)
    {
      ghost var ps := Sections(segments, Whole);
      var n := |segments|;
      var generator: seq<Shape> := [];
      var i := 1;
      while i <= n
        invariant 1 <= i <= n + 1
        invariant TransformedWires(kernel, ps[..i - 1]) == Ok(generator)
      {
        var start := segments[i - 1].inner;
        var wire := TransformToWingCoords(kernel, start, start.profile.wire);
        SectionAt(segments, Whole, i - 1);
        WiresStep(kernel, ps, i, generator);
        if wire.Err? {
          return Err(wire.error);
        }
        generator := generator + [wire.value];
        i := i + 1;
      }
      if n == 0 {
        return Err(NoSuchSegment);
      }
      var end := segments[n - 1].outer;
      var endWire := TransformToWingCoords(kernel, end, end.profile.wire);
      SectionAt(segments, Whole, n);
      WiresStep(kernel, ps, n + 1, generator);
      assert ps[..n + 1] == ps;
      if endWire.Err? {
        return Err(endWire.error);
      }
      res := Ok(generator + [endWire.value]);
    }

    /**
     * The solid loft through the section wires, moved by the wing matrix; a
     * failure leaves the wing untouched. The flag (split into upper and
     * lower) is not used.
     */
    method BuildFusedSegments(split: bool) returns (r: Result<Shape>)
      requires Valid()
      modifies this`transformation, this`backTransformation, this`invalidated, this`rebuildFusedSegments, this`rebuildShells
      ensures Valid()
      ensures r == FusedShape(kernel, segments, WingMatrix(scaling, rotation, translation))
      ensures r.Ok? ==> Updated()
      ensures r.Err? ==> unchanged(this)
    {
      var wires := CollectLoftWires();
      if wires.Err? {
        return Err(wires.error);
      }
      var shape := kernel.loft(wires.value, true);
      var t := GetWingTransformation();
      r := Ok(kernel.transform(Matrix(t), shape));
    }

    /**
     * The wires of both shells, collected as BuildUpperLowerShells does: per
     * segment the upper then the lower inner wire, then both outer wires of
     * the last segment. Any failure is the shells' loft error.
     */
    method CollectShellWires() returns (res: Result<(seq<Shape>, seq<Shape>)>)
      ensures res == ShellWires(kernel, segments)
    {
      ghost var pu, pl := Sections(segments, Upper), Sections(segments, Lower);
      var n := |segments|;
      SectionsPrefix(segments, Upper, n);
      SectionsPrefix(segments, Lower, n);
      var ok, generatorUp, generatorLow := CollectStartWires(pu, pl);
      if !ok {
        ShellWiresErr(kernel, segments);
        return Err(WrongShapeType);
      }
      if n == 0 {
        return Err(NoSuchSegment);
      }
      var end := segments[n - 1].outer;
      SectionAt(segments, Upper, n);
      SectionAt(segments, Lower, n);
      var endUpWire := TransformToWingCoords(kernel, end, end.profile.upperWire);
      var endLowWire := TransformToWingCoords(kernel, end, end.profile.lowerWire);
      WiresStep(kernel, pu, n + 1, generatorUp);
      WiresStep(kernel, pl, n + 1, generatorLow);
      assert pu[..n + 1] == pu && pl[..n + 1] == pl;
      if endUpWire.Err? || endLowWire.Err? {
        ShellWiresErr(kernel, segments);
        return if endUpWire.Err? then Err(endUpWire.error) else Err(endLowWire.error);
      }
      ShellWiresOk(kernel, segments, generatorUp + [endUpWire.value], generatorLow + [endLowWire.value]);
      res := Ok((generatorUp + [endUpWire.value], generatorLow + [endLowWire.value]));
    }

    /**
     * The loop of CollectShellWires over segments 1..N: the upper, then the
     * lower inner wire of each, stopping at the first failure (`ok` false).
     * `pu` and `pl` are the sections of the two shells.
     */
    method CollectStartWires(ghost pu: seq<(Connection, Shape)>, ghost pl: seq<(Connection, Shape)>)
      returns (ok: bool, generatorUp: seq<Shape>, generatorLow: seq<Shape>)
      requires |pu| >= |segments| && |pl| >= |segments|
      requires forall j :: 0 <= j < |segments| ==>
        pu[j] == (segments[j].inner, segments[j].inner.profile.upperWire)
        && pl[j] == (segments[j].inner, segments[j].inner.profile.lowerWire)
      ensures ok ==>
        TransformedWires(kernel, pu[..|segments|]) == Ok(generatorUp)
        && TransformedWires(kernel, pl[..|segments|]) == Ok(generatorLow)
      ensures !ok ==> TransformedWires(kernel, pu).Err? || TransformedWires(kernel, pl).Err?
    {
      var n := |segments|;
      generatorUp, generatorLow := [], [];
      var i := 1;
      while i <= n
        invariant 1 <= i <= n + 1
        invariant TransformedWires(kernel, pu[..i - 1]) == Ok(generatorUp)
        invariant TransformedWires(kernel, pl[..i - 1]) == Ok(generatorLow)
      {
        var start := segments[i - 1].inner;
        var upperWire := TransformToWingCoords(kernel, start, start.profile.upperWire);
        WiresStep(kernel, pu, i, generatorUp);
        if upperWire.Err? {
          return false, generatorUp, generatorLow;
        }
        var lowerWire := TransformToWingCoords(kernel, start, start.profile.lowerWire);
        WiresStep(kernel, pl, i, generatorLow);
        if lowerWire.Err? {
          return false, generatorUp, generatorLow;
        }
        generatorUp := generatorUp + [upperWire.value];
        generatorLow := generatorLow + [lowerWire.value];
        i := i + 1;
      }
      ok := true;
    }

    /**
     * The upper and lower shells: each lofted (not as a solid) through its
     * wires and moved by the wing matrix; a failure leaves the wing untouched.
     */
    method BuildUpperLowerShells() returns (r: Outcome)
      requires Valid()
      modifies this`upperShape, this`lowerShape,
               this`transformation, this`backTransformation, this`invalidated, this`rebuildFusedSegments, this`rebuildShells
      ensures Valid()
      ensures var s := ShellShapes(kernel, segments, WingMatrix(scaling, rotation, translation));
        (s.Ok? ==> r == Done && upperShape == s.value.0 && lowerShape == s.value.1 && Updated())
        && (s.Err? ==> r == Failed(s.error) && unchanged(this))
    {
      var wires := CollectShellWires();
      if wires.Err? {
        return Failed(wires.error);
      }
      var lowShell := kernel.loft(wires.value.1, false);
      var upShell := kernel.loft(wires.value.0, false);
      PlaceShells(upShell, lowShell);
      r := Done;
    }

    /** Stores both lofted shells, each moved by the wing transformation. */
    method PlaceShells(upShell: Shape, lowShell: Shape)
      requires Valid()
      modifies this`upperShape, this`lowerShape,
               this`transformation, this`backTransformation, this`invalidated, this`rebuildFusedSegments, this`rebuildShells
      ensures Valid() && Updated()
      ensures upperShape == kernel.transform(Matrix(WingMatrix(scaling, rotation, translation)), upShell)
      ensures lowerShape == kernel.transform(Matrix(WingMatrix(scaling, rotation, translation)), lowShell)
    {
      var t := GetWingTransformation();
      upperShape := kernel.transform(Matrix(t), upShell);
      t := GetWingTransformation();
      lowerShape := kernel.transform(Matrix(t), lowShell);
    }

    /**
     * The loft with leading edge: rebuilt only while rebuildFusedSegWEdge is
     * set, which is clear afterwards; otherwise the cached shape as it is.
     */
    method GetLoftWithLeadingEdge() returns (r: Result<Shape>)
      requires Valid()
      modifies this`fusedSegmentWithEdge, this`rebuildFusedSegWEdge,
               this`transformation, this`backTransformation, this`invalidated, this`rebuildFusedSegments, this`rebuildShells
      ensures Valid()
      ensures !old(rebuildFusedSegWEdge) ==> r == Ok(fusedSegmentWithEdge) && unchanged(this)
      ensures old(rebuildFusedSegWEdge) ==>
        var f := FusedShape(kernel, segments, WingMatrix(scaling, rotation, translation));
        r == f
        && (f.Ok? ==> fusedSegmentWithEdge == f.value && !rebuildFusedSegWEdge && Updated())
        && (f.Err? ==> unchanged(this))
    {
      if rebuildFusedSegWEdge {
        var built := BuildFusedSegments(true);
        if built.Err? {
          return built;
        }
        fusedSegmentWithEdge := built.value;
      }
      rebuildFusedSegWEdge := false;
      r := Ok(fusedSegmentWithEdge);
    }

    /**
     * Both shells rebuilt only while rebuildShells is set, which is clear
     * afterwards (also when the rebuild's own update set it again).
     */
    method EnsureShells() returns (r: Outcome)
      requires Valid()
      modifies this`upperShape, this`lowerShape,
               this`transformation, this`backTransformation, this`invalidated, this`rebuildFusedSegments, this`rebuildShells
      ensures Valid()
      ensures !old(rebuildShells) ==> r == Done && unchanged(this)
      ensures old(rebuildShells) ==>
        var s := ShellShapes(kernel, segments, WingMatrix(scaling, rotation, translation));
        (s.Ok? ==> r == Done && upperShape == s.value.0 && lowerShape == s.value.1 && !rebuildShells
                   && !invalidated
                   && (old(invalidated) ==> rebuildFusedSegments)
                   && (!old(invalidated) ==> rebuildFusedSegments == old(rebuildFusedSegments)
                                             && transformation == old(transformation)))
        && (s.Err? ==> r == Failed(s.error) && unchanged(this))
    {
      if rebuildShells {
        r := BuildUpperLowerShells();
        if r.Failed? {
          return;
        }
      }
      rebuildShells := false;
      r := Done;
    }

    /** The upper shell, through the shared rebuildShells flag. */
    method GetUpperShape() returns (r: Result<Shape>)
      requires Valid()
      modifies this`upperShape, this`lowerShape,
               this`transformation, this`backTransformation, this`invalidated, this`rebuildFusedSegments, this`rebuildShells
      ensures Valid()
      ensures !old(rebuildShells) ==> r == Ok(upperShape) && unchanged(this)
      ensures old(rebuildShells) ==>
        var s := ShellShapes(kernel, segments, WingMatrix(scaling, rotation, translation));
        (s.Ok? ==> r == Ok(s.value.0) && upperShape == s.value.0 && lowerShape == s.value.1 && !rebuildShells
                   && !invalidated
                   && (old(invalidated) ==> rebuildFusedSegments)
                   && (!old(invalidated) ==> rebuildFusedSegments == old(rebuildFusedSegments)
                                             && transformation == old(transformation)))
        && (s.Err? ==> r == Err(s.error) && unchanged(this))
    {
      var built := EnsureShells();
      if built.Failed? {
        return Err(built.error);
      }
      r := Ok(upperShape);
    }

    /** The lower shell, through the shared rebuildShells flag. */
    method GetLowerShape() returns (r: Result<Shape>)
      requires Valid()
      modifies this`upperShape, this`lowerShape,
               this`transformation, this`backTransformation, this`invalidated, this`rebuildFusedSegments, this`rebuildShells
      ensures Valid()
      ensures !old(rebuildShells) ==> r == Ok(lowerShape) && unchanged(this)
      ensures old(rebuildShells) ==>
        var s := ShellShapes(kernel, segments, WingMatrix(scaling, rotation, translation));
        (s.Ok? ==> r == Ok(s.value.1) && upperShape == s.value.0 && lowerShape == s.value.1 && !rebuildShells
                   && !invalidated
                   && (old(invalidated) ==> rebuildFusedSegments)
                   && (!old(invalidated) ==> rebuildFusedSegments == old(rebuildFusedSegments)
                                             && transformation == old(transformation)))
        && (s.Err? ==> r == Err(s.error) && unchanged(this))
    {
      var built := EnsureShells();
      if built.Failed? {
        return Err(built.error);
      }
      r := Ok(lowerShape);
    }

    /**
     * The control-surface pipeline: component segments 1..C, devices from
     * the last to the first, cut/common only for a device without a cached
     * loft, every device loft moved by its deflection into one compound with
     * the residual wing, stored in `loft`. `wingLoft` is the wing's plain
     * loft; the split flag is not used.
     */
    method BuildFusedSegmentsWithFlaps(split: bool, flapStatus: map<string, real>, wingLoft: Shape) returns (r: Shape)
      modifies this`wingCutOutShape, this`wingCleanShape, this`componentSegments, this`loft
      ensures PipelineRan(wingLoft, flapStatus, r)
    {
      var compound: seq<Shape> := [];
      var wingLoftCut := Null;
      ghost var ops: nat := 0;
      ghost var cs0 := componentSegments;
      ghost var init := FlapRun(wingCutOutShape, wingCleanShape, Null, [], 0);
      var i := 1;
      while i <= |componentSegments|
        invariant 1 <= i <= |cs0| + 1
        invariant (FlapRun(wingCutOutShape, wingCleanShape, wingLoftCut, compound, ops), componentSegments)
               == VisitSegments(kernel, wingLoft, flapStatus, init, cs0, i - 1)
      {
        VisitSegmentsNext(kernel, wingLoft, flapStatus, init, cs0, i,
                          FlapRun(wingCutOutShape, wingCleanShape, wingLoftCut, compound, ops), componentSegments);
        compound, wingLoftCut, ops := CutDevices(i, flapStatus, wingLoft, compound, wingLoftCut, ops);
        i := i + 1;
      }
      assert Pipeline(kernel, wingLoft, flapStatus, old(wingCutOutShape), old(wingCleanShape), cs0)
          == (FlapRun(wingCutOutShape, wingCleanShape, wingLoftCut, compound, ops), componentSegments);
      if wingLoftCut == Null {
        wingLoftCut := wingLoft;
      }
      loft := Compound(compound + [wingLoftCut]);
      r := loft;
    }

    /**
     * The inner loop of the pipeline, over the devices of component segment
     * `i` (1-based) from the last to the first.
     */
    method CutDevices(i: nat, flapStatus: map<string, real>, wingLoft: Shape, compound0: seq<Shape>, wingLoftCut0: Shape, ghost ops0: nat)
      returns (compound: seq<Shape>, wingLoftCut: Shape, ghost ops: nat)
      requires 1 <= i <= |componentSegments|
      modifies this`wingCutOutShape, this`wingCleanShape, this`componentSegments
      ensures var devs := old(componentSegments)[i - 1].devices;
        var res := VisitDown(kernel, wingLoft, flapStatus,
                             FlapRun(old(wingCutOutShape), old(wingCleanShape), wingLoftCut0, compound0, ops0), devs, |devs|);
        FlapRun(wingCutOutShape, wingCleanShape, wingLoftCut, compound, ops) == res.0
        && componentSegments == old(componentSegments)[i - 1 := old(componentSegments)[i - 1].(devices := res.1)]
    {
      compound, wingLoftCut, ops := compound0, wingLoftCut0, ops0;
      ghost var csStart := componentSegments;
      ghost var runStart := FlapRun(wingCutOutShape, wingCleanShape, wingLoftCut, compound, ops);
      var devices := componentSegments[i - 1].devices;
      var j := |devices|;
      while j > 0
        invariant 0 <= j <= |devices| == |csStart[i - 1].devices|
        invariant componentSegments == csStart[i - 1 := csStart[i - 1].(devices := devices)]
        invariant VisitDown(kernel, wingLoft, flapStatus, FlapRun(wingCutOutShape, wingCleanShape, wingLoftCut, compound, ops), devices, j)
               == VisitDown(kernel, wingLoft, flapStatus, runStart, csStart[i - 1].devices, |csStart[i - 1].devices|)
      {
        VisitDownUnfold(kernel, wingLoft, flapStatus, FlapRun(wingCutOutShape, wingCleanShape, wingLoftCut, compound, ops), devices, j);
        var device := devices[j - 1];
        var cutDevice;
        cutDevice, wingLoftCut, compound, ops := CutDevice(device, flapStatus, wingLoft, wingLoftCut, compound, ops);
        if device.loft == Null {
          devices := devices[j - 1 := cutDevice];
          componentSegments := componentSegments[i - 1 := componentSegments[i - 1].(devices := devices)];
        } else {
          assert devices[j - 1 := cutDevice] == devices;
        }
        j := j - 1;
      }
    }

    /**
     * One device of the inner loop: cut out of the current wing shape and
     * its loft cached when it has none, then moved by its deflection and
     * added to the compound.
     */
    method CutDevice(device: Device, flapStatus: map<string, real>, wingLoft: Shape,
                     ghost wingLoftCut0: Shape, compound0: seq<Shape>, ghost ops0: nat)
      returns (cutDevice: Device, wingLoftCut: Shape, compound: seq<Shape>, ghost ops: nat)
      modifies this`wingCutOutShape, this`wingCleanShape
      ensures var step := VisitDevice(kernel, wingLoft, flapStatus,
                                      FlapRun(old(wingCutOutShape), old(wingCleanShape), wingLoftCut0, compound0, ops0), device);
        FlapRun(wingCutOutShape, wingCleanShape, wingLoftCut, compound, ops) == step.0 && cutDevice == step.1
    {
      cutDevice, compound, ops := device, compound0, ops0;
      var wingShape := if wingCutOutShape != Null then wingCutOutShape else wingLoft;
      if wingCleanShape == Null {
        wingCleanShape := wingShape;
      }
      var deviceShape;
      if cutDevice.loft == Null {
        wingLoftCut := kernel.cut(wingShape, cutDevice.cutOutShape);
        deviceShape := kernel.common(wingShape, cutDevice.cutOutShape);
        wingCutOutShape := wingLoftCut;
        cutDevice := cutDevice.(loft := deviceShape);
        ops := ops + 1;
      } else {
        wingLoftCut := wingCutOutShape;
        deviceShape := cutDevice.loft;
      }
      deviceShape := kernel.transform(DeviceDeflection(cutDevice.uid, Deflection(flapStatus, cutDevice.uid)), deviceShape);
      compound := compound + [deviceShape];
    }
  
    /** The pipeline with only `flapUid` deflected, by `percent`; every other device at zero. */
    method ExtendFlap(flapUid: string, percent: real, wingLoft: Shape) returns (r: Shape)
      modifies this`wingCutOutShape, this`wingCleanShape, this`componentSegments, this`loft
      ensures PipelineRan(wingLoft, ExtendFlapMap(flapUid, percent), r)
    {
      r := BuildFusedSegmentsWithFlaps(false, ExtendFlapMap(flapUid, percent), wingLoft);
    }

    /**
     * The wing with the device prisms cut away: the pipeline runs, undeflected,
     * only while no cut-out shape is stored; the stored shape is returned.
     */
    method GetWingWithoutFlaps(wingLoft: Shape) returns (r: Shape)
      modifies this`wingCutOutShape, this`wingCleanShape, this`componentSegments, this`loft
      ensures old(wingCutOutShape) != Null ==> r == wingCutOutShape && unchanged(this)
      ensures old(wingCutOutShape) == Null ==>
        var run := Pipeline(kernel, wingLoft, map[], Null, old(wingCleanShape), old(componentSegments));
        r == wingCutOutShape && wingCutOutShape == run.0.cutOut && wingCleanShape == run.0.clean
        && componentSegments == run.1 && loft == FlapCompound(wingLoft, run.0)
    {
      if wingCutOutShape == Null {
        var _ := BuildFusedSegmentsWithFlaps(false, map[], wingLoft);
      }
      r := wingCutOutShape;
    }

    /**
     * The 1-based index of the first segment the point lies on, with that
     * segment's eta, xsi and top-surface answer; -1 with the outputs as they
     * came in when the point lies on no segment.
     */
    method GetSegmentEtaXsi(point: Point, eta0: real, xsi0: real, onTop0: bool)
      returns (index: int, eta: real, xsi: real, onTop: bool)
      ensures index == FirstSegmentOn(queries, segments, point)
      ensures index == -1 ==> eta == eta0 && xsi == xsi0 && onTop == onTop0
      ensures index != -1 ==>
        (eta, xsi) == queries.etaXsi(segments[index - 1], point)
        && onTop == queries.isOnTop(segments[index - 1], point)
    {
      eta, xsi, onTop := eta0, xsi0, onTop0;
      var segmentFound := -1;
      var iSeg := 1;
      while iSeg <= |segments|
        invariant 1 <= iSeg <= |segments| + 1
        invariant segmentFound == -1
        invariant forall j :: 0 <= j < iSeg - 1 ==> !queries.isOn(segments[j], point)
      {
        if queries.isOn(segments[iSeg - 1], point) {
          segmentFound := iSeg;
          break;
        }
        iSeg := iSeg + 1;
      }
      if segmentFound <= 0 {
        return -1, eta, xsi, onTop;
      }
      var segment := segments[segmentFound - 1];
      eta, xsi := queries.etaXsi(segment, point).0, queries.etaXsi(segment, point).1;
      onTop := queries.isOnTop(segment, point);
      index := segmentFound;
    }

    /** The guide curve `uid` of the first segment that has one, or the missing-curve error. */
    method GetGuideCurve(uid: string) returns (r: Result<GuideCurve>)
      ensures r == FindGuideCurve(segments, uid)
    {
      var i := 1;
      while i <= |segments|
        invariant 1 <= i <= |segments| + 1
        invariant forall j :: 0 <= j < i - 1 ==> uid !in segments[j].guideCurves
      {
        if uid in segments[i - 1].guideCurves {
          return Ok(segments[i - 1].guideCurves[uid]);
        }
        i := i + 1;
      }
      r := Err(GuideCurveMissing(uid));
    }

    /** The segments' reference areas in the plane `symPlane`, summed from the first segment. */
    method GetReferenceArea(symPlane: Symmetry) returns (refArea: real)
      ensures refArea == ReferenceAreaSum(queries, segments, symPlane)
    {
      refArea := 0.0;
      var i := 1;
      while i <= |segments|
        invariant 1 <= i <= |segments| + 1
        invariant refArea == ReferenceAreaSum(queries, segments[..i - 1], symPlane)
      {
        assert segments[..i][..i - 1] == segments[..i - 1];
        refArea := refArea + queries.referenceArea(segments[i - 1], symPlane);
        i := i + 1;
      }
      assert segments[..|segments|] == segments;
    }
  }
}
