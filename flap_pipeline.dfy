/**
 * The control-surface pipeline of CCPACSWing::BuildFusedSegmentsWithFlaps as
 * a function of the wing's cached state. Component segments are visited
 * first to last and, within each, the trailing edge devices last to first. A
 * device whose loft is still null is cut out of the current wing shape (the
 * residual of the previous cut, or the plain wing loft while there is none):
 * the cut becomes the new residual and the common part becomes the device's
 * cached loft. Every device's loft is then moved by its deflection, looked up
 * in the deflection map (0 when the device is absent).
 */
module FlapPipeline {
  import opened GeometryKernel
  import opened WingParts

  /**
   * The pipeline's running state: the wing's wingCutOutShape and
   * wingCleanShape fields, the local wingLoftCut (last residual), the shapes
   * added to the compound, and the number of cut/common pairs performed.
   */
  datatype FlapRun = FlapRun(cutOut: Shape, clean: Shape, lastCut: Shape, parts: seq<Shape>, booleanOps: nat)

  /** The deflection of a device: its entry in the map, 0 when it has none. */
  function Deflection(deflections: map<string, real>, uid: string): (p: real)
    ensures uid in deflections ==> p == deflections[uid]
    ensures uid !in deflections ==> p == 0.0
  {
    if uid in deflections then deflections[uid] else 0.0
  }

  /** A device's loft moved by its deflection. */
  function Deflect(k: Kernel, deflections: map<string, real>, d: Device): Shape {
    k.transform(DeviceDeflection(d.uid, Deflection(deflections, d.uid)), d.loft)
  }

  /** The wing shape the next device is cut from. */
  function WingLoft(wingLoft: Shape, r: FlapRun): Shape {
    if r.cutOut != Null then r.cutOut else wingLoft
  }

  /** One trailing edge device: the body of the inner loop. */
  function VisitDevice(k: Kernel, wingLoft: Shape, deflections: map<string, real>, r: FlapRun, d: Device): (res: (FlapRun, Device))
    ensures res.1.uid == d.uid && res.1.cutOutShape == d.cutOutShape
    ensures res.0.parts == r.parts + [Deflect(k, deflections, res.1)]
    ensures res.0.booleanOps == r.booleanOps + (if d.loft == Null then 1 else 0)
    ensures d.loft != Null ==> res.1 == d && res.0.cutOut == r.cutOut && res.0.lastCut == r.cutOut
    ensures d.loft == Null ==> res.0.cutOut == res.0.lastCut
    ensures d.loft == Null ==>
      res.1.loft == k.common(WingLoft(wingLoft, r), d.cutOutShape) && res.0.cutOut == k.cut(WingLoft(wingLoft, r), d.cutOutShape)
  {
    var input := WingLoft(wingLoft, r);
    var clean := if r.clean == Null then input else r.clean;
    if d.loft == Null then
      var residual := k.cut(input, d.cutOutShape);
      var d' := d.(loft := k.common(input, d.cutOutShape));
      (FlapRun(residual, clean, residual, r.parts + [Deflect(k, deflections, d')], r.booleanOps + 1), d')
    else
      (FlapRun(r.cutOut, clean, r.cutOut, r.parts + [Deflect(k, deflections, d)], r.booleanOps), d)
  }

  /** The devices devs[j-1], devs[j-2], ..., devs[0], in that order. */
  function VisitDown(k: Kernel, wingLoft: Shape, deflections: map<string, real>, r: FlapRun, devs: seq<Device>, j: nat)
    : (res: (FlapRun, seq<Device>))
    requires j <= |devs|
    ensures |res.1| == |devs| && res.1[j..] == devs[j..]
    decreases j
  {
    if j == 0 then (r, devs)
    else
      var step := VisitDevice(k, wingLoft, deflections, r, devs[j - 1]);
      VisitDown(k, wingLoft, deflections, step.0, devs[j - 1 := step.1], j - 1)
  }

  /** The first i component segments, in order, each with its devices counted down. */
  function VisitSegments(k: Kernel, wingLoft: Shape, deflections: map<string, real>, r: FlapRun, cs: seq<ComponentSegment>, i: nat)
    : (res: (FlapRun, seq<ComponentSegment>))
    requires i <= |cs|
    ensures |res.1| == |cs| && res.1[i..] == cs[i..]
    decreases i
  {
    if i == 0 then (r, cs)
    else
      var before := VisitSegments(k, wingLoft, deflections, r, cs, i - 1);
      var cs1 := before.1;
      var inner := VisitDown(k, wingLoft, deflections, before.0, cs1[i - 1].devices, |cs1[i - 1].devices|);
      (inner.0, cs1[i - 1 := cs1[i - 1].(devices := inner.1)])
  }

  /** The whole pipeline, from the wing's cached cut-out and clean shapes. */
  function Pipeline(k: Kernel, wingLoft: Shape, deflections: map<string, real>, cutOut: Shape, clean: Shape, cs: seq<ComponentSegment>)
    : (res: (FlapRun, seq<ComponentSegment>))
    ensures |res.1| == |cs|
    ensures |res.0.parts| == DeviceCount(cs)
  {
    VisitSegmentsParts(k, wingLoft, deflections, FlapRun(cutOut, clean, Null, [], 0), cs, |cs|);
    assert cs[..|cs|] == cs;
    VisitSegments(k, wingLoft, deflections, FlapRun(cutOut, clean, Null, [], 0), cs, |cs|)
  }

  /** The residual wing shape: the last cut, or the wing loft when there is none. */
  function Residual(wingLoft: Shape, r: FlapRun): Shape {
    if r.lastCut == Null then wingLoft else r.lastCut
  }

  /** The returned compound: the deflected devices, then the residual wing. */
  function FlapCompound(wingLoft: Shape, r: FlapRun): Shape {
    Compound(r.parts + [Residual(wingLoft, r)])
  }

  // ---- Orders and counts ----

  function Reverse<T>(s: seq<T>): (r: seq<T>)
    ensures |r| == |s|
    ensures forall i :: 0 <= i < |s| ==> r[i] == s[|s| - 1 - i]
  {
    if s == [] then [] else [s[|s| - 1]] + Reverse(s[..|s| - 1])
  }

  /** The devices in the order the pipeline visits them. */
  function VisitOrder(cs: seq<ComponentSegment>): seq<Device> {
    if cs == [] then [] else VisitOrder(cs[..|cs| - 1]) + Reverse(cs[|cs| - 1].devices)
  }

  function DeviceCount(cs: seq<ComponentSegment>): nat {
    if cs == [] then 0 else DeviceCount(cs[..|cs| - 1]) + |cs[|cs| - 1].devices|
  }

  /** Devices whose loft is not yet cached. */
  function Uncached(ds: seq<Device>): nat {
    if ds == [] then 0 else Uncached(ds[..|ds| - 1]) + (if ds[|ds| - 1].loft == Null then 1 else 0)
  }

  function UncachedCount(cs: seq<ComponentSegment>): nat {
    if cs == [] then 0 else UncachedCount(cs[..|cs| - 1]) + Uncached(cs[|cs| - 1].devices)
  }

  ghost predicate AllCached(cs: seq<ComponentSegment>) {
    forall s, m :: 0 <= s < |cs| && 0 <= m < |cs[s].devices| ==> cs[s].devices[m].loft != Null
  }

  ghost predicate AllFresh(cs: seq<ComponentSegment>) {
    forall s, m :: 0 <= s < |cs| && 0 <= m < |cs[s].devices| ==> cs[s].devices[m].loft == Null
  }

  ghost predicate CommonNeverNull(k: Kernel) {
    forall a, b :: k.common(a, b) != Null
  }

  ghost predicate CutNeverNull(k: Kernel) {
    forall a, b :: k.cut(a, b) != Null
  }

  function DeflectedLofts(k: Kernel, deflections: map<string, real>, ds: seq<Device>): (r: seq<Shape>)
    ensures |r| == |ds|
    ensures forall i :: 0 <= i < |ds| ==> r[i] == Deflect(k, deflections, ds[i])
  {
    seq(|ds|, i requires 0 <= i < |ds| => Deflect(k, deflections, ds[i]))
  }

  /** Successive cuts of `start` by the devices' cut-out prisms, in order. */
  function CutFold(k: Kernel, start: Shape, ds: seq<Device>): Shape
    decreases |ds|
  {
    if ds == [] then start else CutFold(k, k.cut(start, ds[0].cutOutShape), ds[1..])
  }

  lemma {:induction false} CutFoldConcat(k: Kernel, start: Shape, a: seq<Device>, b: seq<Device>)
    ensures CutFold(k, start, a + b) == CutFold(k, CutFold(k, start, a), b)
    decreases |a|
  {
    if a != [] {
      assert (a + b)[0] == a[0] && (a + b)[1..] == a[1..] + b;
      CutFoldConcat(k, k.cut(start, a[0].cutOutShape), a[1..], b);
    } else {
      assert a + b == b;
    }
  }

  lemma ReverseSnoc<T>(s: seq<T>, n: nat)
    requires 0 < n <= |s|
    ensures Reverse(s[..n]) == [s[n - 1]] + Reverse(s[..n - 1])
  {
  }

  lemma VisitOrderSnoc(cs: seq<ComponentSegment>, i: nat)
    requires 0 < i <= |cs|
    ensures VisitOrder(cs[..i]) == VisitOrder(cs[..i - 1]) + Reverse(cs[i - 1].devices)
    ensures DeviceCount(cs[..i]) == DeviceCount(cs[..i - 1]) + |cs[i - 1].devices|
    ensures UncachedCount(cs[..i]) == UncachedCount(cs[..i - 1]) + Uncached(cs[i - 1].devices)
  {
    assert cs[..i][..i - 1] == cs[..i - 1];
  }

  // ---- What the pipeline adds to the compound ----

  /** One step of the inner loop, unfolded. */
  lemma VisitDownUnfold(k: Kernel, wingLoft: Shape, deflections: map<string, real>, r: FlapRun, devs: seq<Device>, j: nat)
    requires 0 < j <= |devs|
    ensures var step := VisitDevice(k, wingLoft, deflections, r, devs[j - 1]);
      VisitDown(k, wingLoft, deflections, r, devs, j)
        == VisitDown(k, wingLoft, deflections, step.0, devs[j - 1 := step.1], j - 1)
  {
  }

  /** One step of the outer loop, unfolded. */
  lemma VisitSegmentsUnfold(k: Kernel, wingLoft: Shape, deflections: map<string, real>, r: FlapRun, cs: seq<ComponentSegment>, i: nat)
    requires 0 < i <= |cs|
    ensures var before := VisitSegments(k, wingLoft, deflections, r, cs, i - 1);
      var inner := VisitDown(k, wingLoft, deflections, before.0, cs[i - 1].devices, |cs[i - 1].devices|);
      VisitSegments(k, wingLoft, deflections, r, cs, i)
        == (inner.0, before.1[i - 1 := cs[i - 1].(devices := inner.1)])
  {
  }

  /** One step of the outer loop, from the state the first i - 1 steps left. */
  lemma VisitSegmentsNext(k: Kernel, wingLoft: Shape, deflections: map<string, real>, r: FlapRun, cs: seq<ComponentSegment>, i: nat,
                          run: FlapRun, cs1: seq<ComponentSegment>)
    requires 0 < i <= |cs|
    requires (run, cs1) == VisitSegments(k, wingLoft, deflections, r, cs, i - 1)
    ensures i <= |cs1|
    ensures var inner := VisitDown(k, wingLoft, deflections, run, cs1[i - 1].devices, |cs1[i - 1].devices|);
      VisitSegments(k, wingLoft, deflections, r, cs, i) == (inner.0, cs1[i - 1 := cs1[i - 1].(devices := inner.1)])
  {
  }

  lemma DeflectedLoftsConcat(k: Kernel, deflections: map<string, real>, a: seq<Device>, b: seq<Device>)
    ensures DeflectedLofts(k, deflections, a + b) == DeflectedLofts(k, deflections, a) + DeflectedLofts(k, deflections, b)
  {
  }

  /** The inner loop changes no device's uid or prism. */
  lemma {:induction false} VisitDownKeeps(k: Kernel, wingLoft: Shape, deflections: map<string, real>, r: FlapRun, devs: seq<Device>, j: nat)
    requires j <= |devs|
    ensures var res := VisitDown(k, wingLoft, deflections, r, devs, j);
      forall m :: 0 <= m < |devs| ==> res.1[m].uid == devs[m].uid && res.1[m].cutOutShape == devs[m].cutOutShape
    decreases j
  {
    if j > 0 {
      var step := VisitDevice(k, wingLoft, deflections, r, devs[j - 1]);
      VisitDownUnfold(k, wingLoft, deflections, r, devs, j);
      VisitDownKeeps(k, wingLoft, deflections, step.0, devs[j - 1 := step.1], j - 1);
    }
  }

  /**
   * The inner loop adds, in visit order, each device's final loft moved by
   * its deflection.
   */
  lemma {:induction false} VisitDownParts(k: Kernel, wingLoft: Shape, deflections: map<string, real>, r: FlapRun, devs: seq<Device>, j: nat)
    requires j <= |devs|
    ensures var res := VisitDown(k, wingLoft, deflections, r, devs, j);
      res.0.parts == r.parts + DeflectedLofts(k, deflections, Reverse(res.1[..j]))
    decreases j
  {
    if j > 0 {
      var step := VisitDevice(k, wingLoft, deflections, r, devs[j - 1]);
      var d1 := step.1;
      var devs1 := devs[j - 1 := d1];
      VisitDownUnfold(k, wingLoft, deflections, r, devs, j);
      VisitDownParts(k, wingLoft, deflections, step.0, devs1, j - 1);
      var res := VisitDown(k, wingLoft, deflections, step.0, devs1, j - 1);
      assert res.1[j - 1] == d1 by { assert res.1[j - 1..] == devs1[j - 1..]; }
      ReverseSnoc(res.1, j);
      var tail := Reverse(res.1[..j - 1]);
      DeflectedLoftsConcat(k, deflections, [d1], tail);
      assert step.0.parts == r.parts + DeflectedLofts(k, deflections, [d1]);
    }
  }

  /** The outer loop keeps each component segment's device count. */
  lemma {:induction false} VisitSegmentsKeeps(k: Kernel, wingLoft: Shape, deflections: map<string, real>, r: FlapRun, cs: seq<ComponentSegment>, i: nat)
    requires i <= |cs|
    ensures var res := VisitSegments(k, wingLoft, deflections, r, cs, i);
      forall s :: 0 <= s < |cs| ==> |res.1[s].devices| == |cs[s].devices|
    decreases i
  {
    if i > 0 {
      VisitSegmentsUnfold(k, wingLoft, deflections, r, cs, i);
      VisitSegmentsKeeps(k, wingLoft, deflections, r, cs, i - 1);
    }
  }

  /**
   * The outer loop adds, in visit order, one deflected loft per device of
   * the visited component segments.
   */
  lemma {:induction false} VisitSegmentsParts(k: Kernel, wingLoft: Shape, deflections: map<string, real>, r: FlapRun, cs: seq<ComponentSegment>, i: nat)
    requires i <= |cs|
    ensures var res := VisitSegments(k, wingLoft, deflections, r, cs, i);
      res.0.parts == r.parts + DeflectedLofts(k, deflections, VisitOrder(res.1[..i]))
      && |res.0.parts| == |r.parts| + DeviceCount(cs[..i])
    decreases i
  {
    if i > 0 {
      var before := VisitSegments(k, wingLoft, deflections, r, cs, i - 1);
      var cs1 := before.1;
      VisitSegmentsParts(k, wingLoft, deflections, r, cs, i - 1);
      VisitSegmentsUnfold(k, wingLoft, deflections, r, cs, i);
      var devs := cs[i - 1].devices;
      var inner := VisitDown(k, wingLoft, deflections, before.0, devs, |devs|);
      VisitDownParts(k, wingLoft, deflections, before.0, devs, |devs|);
      var devs2 := inner.1;
      var cs2 := cs1[i - 1 := cs[i - 1].(devices := devs2)];
      assert devs2[..|devs|] == devs2;
      VisitOrderSnoc(cs2, i);
      VisitOrderSnoc(cs, i);
      assert cs2[..i - 1] == cs1[..i - 1];
      DeflectedLoftsConcat(k, deflections, VisitOrder(cs1[..i - 1]), Reverse(devs2));
    }
  }

  /**
   * The compound of one pipeline run: exactly one deflected shape per device,
   * in visit order (component segments ascending, devices descending), each
   * being that device's cached loft after the run, then the residual wing.
   */
  lemma PipelineCompound(k: Kernel, wingLoft: Shape, deflections: map<string, real>, cutOut: Shape, clean: Shape, cs: seq<ComponentSegment>)
    ensures var res := Pipeline(k, wingLoft, deflections, cutOut, clean, cs);
      res.0.parts == DeflectedLofts(k, deflections, VisitOrder(res.1))
      && FlapCompound(wingLoft, res.0) == Compound(DeflectedLofts(k, deflections, VisitOrder(res.1)) + [Residual(wingLoft, res.0)])
      && |res.0.parts| == DeviceCount(cs)
  {
    var init := FlapRun(cutOut, clean, Null, [], 0);
    var res := Pipeline(k, wingLoft, deflections, cutOut, clean, cs);
    assert res == VisitSegments(k, wingLoft, deflections, init, cs, |cs|);
    VisitSegmentsParts(k, wingLoft, deflections, init, cs, |cs|);
    assert res.1[..|cs|] == res.1;
    assert cs[..|cs|] == cs;
    assert res.0.parts == DeflectedLofts(k, deflections, VisitOrder(res.1));
  }

  // ---- Memoisation ----

  /**
   * The inner loop performs one cut/common pair per uncached device and
   * leaves its last residual equal to the cut-out shape.
   */
  lemma {:induction false} VisitDownCounts(k: Kernel, wingLoft: Shape, deflections: map<string, real>, r: FlapRun, devs: seq<Device>, j: nat)
    requires j <= |devs|
    ensures var res := VisitDown(k, wingLoft, deflections, r, devs, j);
      res.0.booleanOps == r.booleanOps + Uncached(devs[..j])
      && (j > 0 ==> res.0.lastCut == res.0.cutOut)
    decreases j
  {
    if j > 0 {
      var step := VisitDevice(k, wingLoft, deflections, r, devs[j - 1]);
      var devs1 := devs[j - 1 := step.1];
      VisitDownUnfold(k, wingLoft, deflections, r, devs, j);
      VisitDownCounts(k, wingLoft, deflections, step.0, devs1, j - 1);
      assert devs1[..j - 1] == devs[..j - 1];
      assert devs[..j][..j - 1] == devs[..j - 1];
    }
  }

  /** Over cached devices the inner loop changes no device and no cut-out shape. */
  lemma {:induction false} VisitDownCached(k: Kernel, wingLoft: Shape, deflections: map<string, real>, r: FlapRun, devs: seq<Device>, j: nat)
    requires j <= |devs|
    requires forall m :: 0 <= m < j ==> devs[m].loft != Null
    ensures var res := VisitDown(k, wingLoft, deflections, r, devs, j);
      res.1 == devs && res.0.cutOut == r.cutOut && res.0.booleanOps == r.booleanOps
    decreases j
  {
    if j > 0 {
      var step := VisitDevice(k, wingLoft, deflections, r, devs[j - 1]);
      assert step.1 == devs[j - 1];
      assert devs[j - 1 := step.1] == devs;
      VisitDownUnfold(k, wingLoft, deflections, r, devs, j);
      VisitDownCached(k, wingLoft, deflections, step.0, devs, j - 1);
    }
  }

  /** With a kernel whose common part is never null, every visited device ends up cached. */
  lemma {:induction false} VisitDownFills(k: Kernel, wingLoft: Shape, deflections: map<string, real>, r: FlapRun, devs: seq<Device>, j: nat)
    requires j <= |devs|
    requires CommonNeverNull(k)
    ensures var res := VisitDown(k, wingLoft, deflections, r, devs, j);
      forall m :: 0 <= m < j ==> res.1[m].loft != Null
    decreases j
  {
    if j > 0 {
      var step := VisitDevice(k, wingLoft, deflections, r, devs[j - 1]);
      var d1 := step.1;
      var devs1 := devs[j - 1 := d1];
      VisitDownUnfold(k, wingLoft, deflections, r, devs, j);
      VisitDownFills(k, wingLoft, deflections, step.0, devs1, j - 1);
      var res := VisitDown(k, wingLoft, deflections, step.0, devs1, j - 1);
      assert res.1[j - 1] == d1 by { assert res.1[j - 1..] == devs1[j - 1..]; }
      assert d1.loft != Null by {
        if devs[j - 1].loft == Null {
          assert k.common(WingLoft(wingLoft, r), devs[j - 1].cutOutShape) != Null;
        }
      }
    }
  }

  /**
   * The outer loop performs one cut/common pair per uncached device; once a
   * device has been visited the last residual is the cut-out shape; with no
   * device visited nothing changes.
   */
  lemma {:induction false} VisitSegmentsCounts(k: Kernel, wingLoft: Shape, deflections: map<string, real>, r: FlapRun, cs: seq<ComponentSegment>, i: nat)
    requires i <= |cs|
    ensures var res := VisitSegments(k, wingLoft, deflections, r, cs, i);
      res.0.booleanOps == r.booleanOps + UncachedCount(cs[..i])
      && (DeviceCount(cs[..i]) > 0 ==> res.0.lastCut == res.0.cutOut)
      && (DeviceCount(cs[..i]) == 0 ==> res == (r, cs))
    decreases i
  {
    if i > 0 {
      var before := VisitSegments(k, wingLoft, deflections, r, cs, i - 1);
      var cs1 := before.1;
      VisitSegmentsCounts(k, wingLoft, deflections, r, cs, i - 1);
      VisitSegmentsUnfold(k, wingLoft, deflections, r, cs, i);
      var devs := cs[i - 1].devices;
      VisitDownCounts(k, wingLoft, deflections, before.0, devs, |devs|);
      assert devs[..|devs|] == devs;
      VisitOrderSnoc(cs, i);
      if DeviceCount(cs[..i]) == 0 {
        assert cs1 == cs;
        assert cs[i - 1 := cs[i - 1].(devices := devs)] == cs;
      }
    }
  }

  /** Over cached devices the whole loop changes no device and no cut-out shape. */
  lemma {:induction false} VisitSegmentsCached(k: Kernel, wingLoft: Shape, deflections: map<string, real>, r: FlapRun, cs: seq<ComponentSegment>, i: nat)
    requires i <= |cs|
    requires AllCached(cs)
    ensures var res := VisitSegments(k, wingLoft, deflections, r, cs, i);
      res.1 == cs && res.0.cutOut == r.cutOut && res.0.booleanOps == r.booleanOps
    decreases i
  {
    if i > 0 {
      VisitSegmentsCached(k, wingLoft, deflections, r, cs, i - 1);
      var r1 := VisitSegments(k, wingLoft, deflections, r, cs, i - 1).0;
      var devs := cs[i - 1].devices;
      VisitSegmentsUnfold(k, wingLoft, deflections, r, cs, i);
      VisitDownCached(k, wingLoft, deflections, r1, devs, |devs|);
      assert cs[i - 1 := cs[i - 1].(devices := devs)] == cs;
    }
  }

  /** With a kernel whose common part is never null, every visited device ends up cached. */
  lemma {:induction false} VisitSegmentsFills(k: Kernel, wingLoft: Shape, deflections: map<string, real>, r: FlapRun, cs: seq<ComponentSegment>, i: nat)
    requires i <= |cs|
    requires CommonNeverNull(k)
    ensures var res := VisitSegments(k, wingLoft, deflections, r, cs, i);
      forall s, m :: 0 <= s < i && 0 <= m < |res.1[s].devices| ==> res.1[s].devices[m].loft != Null
    decreases i
  {
    if i > 0 {
      var before := VisitSegments(k, wingLoft, deflections, r, cs, i - 1);
      VisitSegmentsFills(k, wingLoft, deflections, r, cs, i - 1);
      VisitSegmentsUnfold(k, wingLoft, deflections, r, cs, i);
      var devs := cs[i - 1].devices;
      VisitDownFills(k, wingLoft, deflections, before.0, devs, |devs|);
      var inner := VisitDown(k, wingLoft, deflections, before.0, devs, |devs|);
      assert devs[..|devs|] == devs;
      var res := VisitSegments(k, wingLoft, deflections, r, cs, i);
      assert forall s :: 0 <= s < i - 1 ==> res.1[s] == before.1[s];
      assert res.1[i - 1].devices == inner.1;
    }
  }

  /** After one run (a kernel whose common part is never null) every device is cached. */
  lemma PipelineCaches(k: Kernel, wingLoft: Shape, deflections: map<string, real>, cutOut: Shape, clean: Shape, cs: seq<ComponentSegment>)
    requires CommonNeverNull(k)
    ensures AllCached(Pipeline(k, wingLoft, deflections, cutOut, clean, cs).1)
  {
    var init := FlapRun(cutOut, clean, Null, [], 0);
    var cs1 := VisitSegments(k, wingLoft, deflections, init, cs, |cs|).1;
    VisitSegmentsFills(k, wingLoft, deflections, init, cs, |cs|);
    assert var res := VisitSegments(k, wingLoft, deflections, init, cs, |cs|);
      forall s, m :: 0 <= s < |cs| && 0 <= m < |res.1[s].devices| ==> res.1[s].devices[m].loft != Null;
    assert AllCached(cs1);
  }

  /**
   * A second run on the state the first left finds every device cached: it
   * keeps the component segments and the cut-out shape and does no cut/common.
   */
  lemma PipelineRerunCached(k: Kernel, wingLoft: Shape, deflections: map<string, real>, cutOut: Shape, clean: Shape, cs: seq<ComponentSegment>)
    requires CommonNeverNull(k)
    ensures var first := Pipeline(k, wingLoft, deflections, cutOut, clean, cs);
      var again := Pipeline(k, wingLoft, deflections, first.0.cutOut, first.0.clean, first.1);
      again.0.booleanOps == 0 && again.1 == first.1 && again.0.cutOut == first.0.cutOut
  {
    var first := Pipeline(k, wingLoft, deflections, cutOut, clean, cs);
    PipelineCaches(k, wingLoft, deflections, cutOut, clean, cs);
    VisitSegmentsCached(k, wingLoft, deflections, FlapRun(first.0.cutOut, first.0.clean, Null, [], 0), first.1, |first.1|);
  }

  /** Both runs end on the same residual wing. */
  lemma PipelineRerunResidual(k: Kernel, wingLoft: Shape, deflections: map<string, real>, cutOut: Shape, clean: Shape, cs: seq<ComponentSegment>)
    requires CommonNeverNull(k)
    ensures var first := Pipeline(k, wingLoft, deflections, cutOut, clean, cs);
      var again := Pipeline(k, wingLoft, deflections, first.0.cutOut, first.0.clean, first.1);
      Residual(wingLoft, again.0) == Residual(wingLoft, first.0)
  {
    var init1 := FlapRun(cutOut, clean, Null, [], 0);
    var first := Pipeline(k, wingLoft, deflections, cutOut, clean, cs);
    var r1, cs1 := first.0, first.1;
    var init2 := FlapRun(r1.cutOut, r1.clean, Null, [], 0);
    var again := Pipeline(k, wingLoft, deflections, r1.cutOut, r1.clean, cs1);
    assert DeviceCount(cs1) == DeviceCount(cs) by {
      PipelineRerunCached(k, wingLoft, deflections, cutOut, clean, cs);
      PipelineCompound(k, wingLoft, deflections, cutOut, clean, cs);
      PipelineCompound(k, wingLoft, deflections, r1.cutOut, r1.clean, cs1);
    }
    assert cs[..|cs|] == cs;
    assert cs1[..|cs1|] == cs1;
    VisitSegmentsCounts(k, wingLoft, deflections, init1, cs, |cs|);
    VisitSegmentsCounts(k, wingLoft, deflections, init2, cs1, |cs1|);
    if DeviceCount(cs) > 0 {
      PipelineRerunCached(k, wingLoft, deflections, cutOut, clean, cs);
      assert again.0.lastCut == again.0.cutOut == r1.cutOut == r1.lastCut;
    }
  }

  // ---- Reruns and the wing loft ----

  /**
   * Once a cut-out shape exists (and the kernel's cut is never null), the
   * inner loop never reads the wing loft, and the cut-out shape stays set.
   */
  lemma {:induction false} VisitDownIgnoresWingLoft(k: Kernel, loft1: Shape, loft2: Shape, deflections: map<string, real>,
                                                    r: FlapRun, devs: seq<Device>, j: nat)
    requires j <= |devs|
    requires CutNeverNull(k) && r.cutOut != Null
    ensures VisitDown(k, loft1, deflections, r, devs, j) == VisitDown(k, loft2, deflections, r, devs, j)
    ensures VisitDown(k, loft1, deflections, r, devs, j).0.cutOut != Null
    decreases j
  {
    if j > 0 {
      var step := VisitDevice(k, loft1, deflections, r, devs[j - 1]);
      assert VisitDevice(k, loft2, deflections, r, devs[j - 1]) == step;
      assert step.0.cutOut != Null by {
        if devs[j - 1].loft == Null {
          assert k.cut(r.cutOut, devs[j - 1].cutOutShape) != Null;
        }
      }
      VisitDownUnfold(k, loft1, deflections, r, devs, j);
      VisitDownUnfold(k, loft2, deflections, r, devs, j);
      VisitDownIgnoresWingLoft(k, loft1, loft2, deflections, step.0, devs[j - 1 := step.1], j - 1);
    }
  }

  lemma {:induction false} VisitSegmentsIgnoresWingLoft(k: Kernel, loft1: Shape, loft2: Shape, deflections: map<string, real>,
                                                        r: FlapRun, cs: seq<ComponentSegment>, i: nat)
    requires i <= |cs|
    requires CutNeverNull(k) && r.cutOut != Null
    ensures VisitSegments(k, loft1, deflections, r, cs, i) == VisitSegments(k, loft2, deflections, r, cs, i)
    ensures VisitSegments(k, loft1, deflections, r, cs, i).0.cutOut != Null
    decreases i
  {
    if i > 0 {
      VisitSegmentsIgnoresWingLoft(k, loft1, loft2, deflections, r, cs, i - 1);
      var before := VisitSegments(k, loft1, deflections, r, cs, i - 1);
      VisitSegmentsUnfold(k, loft1, deflections, r, cs, i);
      VisitSegmentsUnfold(k, loft2, deflections, r, cs, i);
      VisitDownIgnoresWingLoft(k, loft1, loft2, deflections, before.0, cs[i - 1].devices, |cs[i - 1].devices|);
    }
  }

  /** An uncached device (with a cut that is never null) leaves a cut-out shape behind. */
  lemma {:induction false} VisitDownSetsCutOut(k: Kernel, wingLoft: Shape, deflections: map<string, real>, r: FlapRun, devs: seq<Device>, j: nat)
    requires j <= |devs|
    requires CutNeverNull(k)
    requires r.cutOut != Null || Uncached(devs[..j]) > 0
    ensures VisitDown(k, wingLoft, deflections, r, devs, j).0.cutOut != Null
    decreases j
  {
    if j > 0 {
      var step := VisitDevice(k, wingLoft, deflections, r, devs[j - 1]);
      var devs1 := devs[j - 1 := step.1];
      assert devs[..j][..j - 1] == devs[..j - 1];
      assert devs1[..j - 1] == devs[..j - 1];
      if devs[j - 1].loft == Null {
        assert k.cut(WingLoft(wingLoft, r), devs[j - 1].cutOutShape) != Null;
      }
      VisitDownUnfold(k, wingLoft, deflections, r, devs, j);
      VisitDownSetsCutOut(k, wingLoft, deflections, step.0, devs1, j - 1);
    }
  }

  lemma {:induction false} VisitSegmentsSetsCutOut(k: Kernel, wingLoft: Shape, deflections: map<string, real>, r: FlapRun, cs: seq<ComponentSegment>, i: nat)
    requires i <= |cs|
    requires CutNeverNull(k)
    requires r.cutOut != Null || UncachedCount(cs[..i]) > 0
    ensures VisitSegments(k, wingLoft, deflections, r, cs, i).0.cutOut != Null
    decreases i
  {
    if i > 0 {
      var before := VisitSegments(k, wingLoft, deflections, r, cs, i - 1);
      var devs := cs[i - 1].devices;
      VisitOrderSnoc(cs, i);
      assert devs[..|devs|] == devs;
      if r.cutOut != Null || UncachedCount(cs[..i - 1]) > 0 {
        VisitSegmentsSetsCutOut(k, wingLoft, deflections, r, cs, i - 1);
      }
      VisitSegmentsUnfold(k, wingLoft, deflections, r, cs, i);
      VisitDownSetsCutOut(k, wingLoft, deflections, before.0, devs, |devs|);
    }
  }

  lemma {:induction false} DeviceCountOfShape(a: seq<ComponentSegment>, b: seq<ComponentSegment>)
    requires |a| == |b|
    requires forall s :: 0 <= s < |a| ==> |a[s].devices| == |b[s].devices|
    ensures DeviceCount(a) == DeviceCount(b)
    decreases |a|
  {
    if a != [] {
      DeviceCountOfShape(a[..|a| - 1], b[..|b| - 1]);
    }
  }

  /**
   * The source's rerun reads its wing loft afresh (GetLoft, which may by
   * then return the stored compound). When the first run visited a device
   * and either found a cut-out shape or cut one (a kernel whose cut is never
   * null), a second run gives the same state and the same compound whatever
   * wing loft it is given.
   */
  lemma RerunIgnoresWingLoft(k: Kernel, wingLoft: Shape, rerunLoft: Shape, m1: map<string, real>, m2: map<string, real>,
                             cutOut: Shape, clean: Shape, cs: seq<ComponentSegment>)
    requires CutNeverNull(k) && DeviceCount(cs) > 0 && (cutOut != Null || UncachedCount(cs) > 0)
    ensures var first := Pipeline(k, wingLoft, m1, cutOut, clean, cs);
      var again := Pipeline(k, wingLoft, m2, first.0.cutOut, first.0.clean, first.1);
      var other := Pipeline(k, rerunLoft, m2, first.0.cutOut, first.0.clean, first.1);
      other == again && FlapCompound(rerunLoft, other.0) == FlapCompound(wingLoft, again.0)
  {
    var init := FlapRun(cutOut, clean, Null, [], 0);
    var first := Pipeline(k, wingLoft, m1, cutOut, clean, cs);
    assert cs[..|cs|] == cs;
    VisitSegmentsSetsCutOut(k, wingLoft, m1, init, cs, |cs|);
    var init2 := FlapRun(first.0.cutOut, first.0.clean, Null, [], 0);
    VisitSegmentsIgnoresWingLoft(k, wingLoft, rerunLoft, m2, init2, first.1, |first.1|);
    VisitSegmentsKeeps(k, wingLoft, m1, init, cs, |cs|);
    DeviceCountOfShape(first.1, cs);
    assert first.1[..|first.1|] == first.1;
    VisitSegmentsCounts(k, wingLoft, m2, init2, first.1, |first.1|);
  }

  /**
   * Repeating the pipeline with the same deflections on the state it left
   * performs no cut/common, changes no cached shape and returns the same
   * compound (for a kernel whose common part is never null). The same holds
   * when the rerun is given another wing loft `rerunLoft`, provided the first
   * run visited a device and found or cut a cut-out shape (a kernel whose
   * cut is never null).
   */
  lemma PipelineIdempotent(k: Kernel, wingLoft: Shape, rerunLoft: Shape, deflections: map<string, real>,
                           cutOut: Shape, clean: Shape, cs: seq<ComponentSegment>)
    requires CommonNeverNull(k)
    ensures var first := Pipeline(k, wingLoft, deflections, cutOut, clean, cs);
      var again := Pipeline(k, wingLoft, deflections, first.0.cutOut, first.0.clean, first.1);
      again.0.booleanOps == 0 && again.1 == first.1 && again.0.cutOut == first.0.cutOut
      && FlapCompound(wingLoft, again.0) == FlapCompound(wingLoft, first.0)
    ensures CutNeverNull(k) && DeviceCount(cs) > 0 && (cutOut != Null || UncachedCount(cs) > 0) ==>
      var first := Pipeline(k, wingLoft, deflections, cutOut, clean, cs);
      var again := Pipeline(k, rerunLoft, deflections, first.0.cutOut, first.0.clean, first.1);
      again.0.booleanOps == 0 && again.1 == first.1 && again.0.cutOut == first.0.cutOut
      && FlapCompound(rerunLoft, again.0) == FlapCompound(wingLoft, first.0)
  {
    if CutNeverNull(k) && DeviceCount(cs) > 0 && (cutOut != Null || UncachedCount(cs) > 0) {
      RerunIgnoresWingLoft(k, wingLoft, rerunLoft, deflections, deflections, cutOut, clean, cs);
    }
    var first := Pipeline(k, wingLoft, deflections, cutOut, clean, cs);
    PipelineRerunCached(k, wingLoft, deflections, cutOut, clean, cs);
    PipelineRerunResidual(k, wingLoft, deflections, cutOut, clean, cs);
    PipelineCompound(k, wingLoft, deflections, cutOut, clean, cs);
    PipelineCompound(k, wingLoft, deflections, first.0.cutOut, first.0.clean, first.1);
  }

  /**
   * The cut/common pairs of one run: exactly one for each device whose loft
   * was not yet cached.
   */
  lemma PipelineBooleanOps(k: Kernel, wingLoft: Shape, deflections: map<string, real>, cutOut: Shape, clean: Shape, cs: seq<ComponentSegment>)
    ensures Pipeline(k, wingLoft, deflections, cutOut, clean, cs).0.booleanOps == UncachedCount(cs)
  {
    VisitSegmentsCounts(k, wingLoft, deflections, FlapRun(cutOut, clean, Null, [], 0), cs, |cs|);
    assert cs[..|cs|] == cs;
  }

  // ---- The chain of cuts ----

  /**
   * Over uncached devices (and a kernel whose cut is never null) each device
   * is cut from the residual of the one before: the wing shape after the
   * inner loop is the chain of cuts in visit order.
   */
  lemma {:induction false} VisitDownChain(k: Kernel, wingLoft: Shape, deflections: map<string, real>, r: FlapRun, devs: seq<Device>, j: nat)
    requires j <= |devs|
    requires CutNeverNull(k)
    requires forall m :: 0 <= m < j ==> devs[m].loft == Null
    ensures var res := VisitDown(k, wingLoft, deflections, r, devs, j);
      WingLoft(wingLoft, res.0) == CutFold(k, WingLoft(wingLoft, r), Reverse(devs[..j]))
    decreases j
  {
    if j > 0 {
      var step := VisitDevice(k, wingLoft, deflections, r, devs[j - 1]);
      var devs1 := devs[j - 1 := step.1];
      assert k.cut(WingLoft(wingLoft, r), devs[j - 1].cutOutShape) != Null;
      VisitDownUnfold(k, wingLoft, deflections, r, devs, j);
      VisitDownChain(k, wingLoft, deflections, step.0, devs1, j - 1);
      assert devs1[..j - 1] == devs[..j - 1];
      ReverseSnoc(devs, j);
      var tail := Reverse(devs[..j - 1]);
      assert ([devs[j - 1]] + tail)[0] == devs[j - 1] && ([devs[j - 1]] + tail)[1..] == tail;
    }
  }

  lemma {:induction false} VisitSegmentsChain(k: Kernel, wingLoft: Shape, deflections: map<string, real>, r: FlapRun, cs: seq<ComponentSegment>, i: nat)
    requires i <= |cs|
    requires CutNeverNull(k)
    requires AllFresh(cs)
    ensures var res := VisitSegments(k, wingLoft, deflections, r, cs, i);
      WingLoft(wingLoft, res.0) == CutFold(k, WingLoft(wingLoft, r), VisitOrder(cs[..i]))
    decreases i
  {
    if i > 0 {
      var before := VisitSegments(k, wingLoft, deflections, r, cs, i - 1);
      VisitSegmentsChain(k, wingLoft, deflections, r, cs, i - 1);
      VisitSegmentsUnfold(k, wingLoft, deflections, r, cs, i);
      var devs := cs[i - 1].devices;
      assert forall m :: 0 <= m < |devs| ==> devs[m].loft == Null;
      VisitDownChain(k, wingLoft, deflections, before.0, devs, |devs|);
      var inner := VisitDown(k, wingLoft, deflections, before.0, devs, |devs|);
      assert devs[..|devs|] == devs;
      VisitOrderSnoc(cs, i);
      CutFoldConcat(k, WingLoft(wingLoft, r), VisitOrder(cs[..i - 1]), Reverse(devs));
      assert VisitSegments(k, wingLoft, deflections, r, cs, i).0 == inner.0;
    }
  }

  /**
   * Over uncached devices (a kernel whose cut is never null) every visited
   * device caches the common part of the wing shape it was cut from: the
   * current wing shape cut by the devices visited before it.
   */
  lemma {:induction false} VisitDownCommon(k: Kernel, wingLoft: Shape, deflections: map<string, real>, r: FlapRun, devs: seq<Device>, j: nat)
    requires j <= |devs|
    requires CutNeverNull(k)
    requires forall m :: 0 <= m < j ==> devs[m].loft == Null
    ensures var res := VisitDown(k, wingLoft, deflections, r, devs, j);
      forall m :: 0 <= m < j ==>
        res.1[m].loft == k.common(CutFold(k, WingLoft(wingLoft, r), Reverse(devs[m + 1..j])), devs[m].cutOutShape)
    decreases j
  {
    if j > 0 {
      var input := WingLoft(wingLoft, r);
      var d := devs[j - 1];
      var step := VisitDevice(k, wingLoft, deflections, r, d);
      var devs1 := devs[j - 1 := step.1];
      assert k.cut(input, d.cutOutShape) != Null;
      assert WingLoft(wingLoft, step.0) == k.cut(input, d.cutOutShape);
      VisitDownUnfold(k, wingLoft, deflections, r, devs, j);
      VisitDownCommon(k, wingLoft, deflections, step.0, devs1, j - 1);
      var res := VisitDown(k, wingLoft, deflections, step.0, devs1, j - 1);
      assert res.1[j - 1] == step.1 by { assert res.1[j - 1..] == devs1[j - 1..]; }
      forall m | 0 <= m < j
        ensures res.1[m].loft == k.common(CutFold(k, input, Reverse(devs[m + 1..j])), devs[m].cutOutShape)
      {
        if m == j - 1 {
          assert devs[m + 1..j] == [];
        } else {
          var rest := devs[m + 1..j];
          assert rest[..|rest|] == rest;
          ReverseSnoc(rest, |rest|);
          assert rest[..|rest| - 1] == devs1[m + 1..j - 1];
          var tail := Reverse(devs1[m + 1..j - 1]);
          assert ([d] + tail)[0] == d && ([d] + tail)[1..] == tail;
        }
      }
    }
  }

  /**
   * Over fresh component segments (a kernel whose cut is never null), device
   * m of component segment s caches the common part of the wing shape cut by
   * the devices of the segments before s in visit order, then by the devices
   * above m in s.
   */
  lemma {:induction false} VisitSegmentsCommon(k: Kernel, wingLoft: Shape, deflections: map<string, real>, r: FlapRun, cs: seq<ComponentSegment>, i: nat)
    requires i <= |cs|
    requires CutNeverNull(k)
    requires AllFresh(cs)
    ensures var res := VisitSegments(k, wingLoft, deflections, r, cs, i);
      (forall s :: 0 <= s < |cs| ==> |res.1[s].devices| == |cs[s].devices|)
      && forall s, m :: 0 <= s < i && 0 <= m < |cs[s].devices| ==>
        res.1[s].devices[m].loft
          == k.common(CutFold(k, WingLoft(wingLoft, r), VisitOrder(cs[..s]) + Reverse(cs[s].devices[m + 1..])),
                      cs[s].devices[m].cutOutShape)
    decreases i
  {
    VisitSegmentsKeeps(k, wingLoft, deflections, r, cs, i);
    if i > 0 {
      var before := VisitSegments(k, wingLoft, deflections, r, cs, i - 1);
      VisitSegmentsCommon(k, wingLoft, deflections, r, cs, i - 1);
      VisitSegmentsUnfold(k, wingLoft, deflections, r, cs, i);
      CommonLastSegment(k, wingLoft, deflections, r, cs, i - 1);
      var res := VisitSegments(k, wingLoft, deflections, r, cs, i);
      var start := WingLoft(wingLoft, r);
      forall s, m | 0 <= s < i && 0 <= m < |cs[s].devices|
        ensures res.1[s].devices[m].loft
          == k.common(CutFold(k, start, VisitOrder(cs[..s]) + Reverse(cs[s].devices[m + 1..])), cs[s].devices[m].cutOutShape)
      {
        if s < i - 1 {
          assert res.1[s] == before.1[s];
        }
      }
    }
  }

  /** The step of VisitSegmentsCommon for component segment n. */
  lemma CommonLastSegment(k: Kernel, wingLoft: Shape, deflections: map<string, real>, r: FlapRun, cs: seq<ComponentSegment>, n: nat)
    requires n < |cs|
    requires CutNeverNull(k)
    requires AllFresh(cs)
    ensures var res := VisitSegments(k, wingLoft, deflections, r, cs, n + 1);
      |res.1[n].devices| == |cs[n].devices|
      && forall m :: 0 <= m < |cs[n].devices| ==>
        res.1[n].devices[m].loft
          == k.common(CutFold(k, WingLoft(wingLoft, r), VisitOrder(cs[..n]) + Reverse(cs[n].devices[m + 1..])),
                      cs[n].devices[m].cutOutShape)
  {
    var start := WingLoft(wingLoft, r);
    var before := VisitSegments(k, wingLoft, deflections, r, cs, n);
    VisitSegmentsChain(k, wingLoft, deflections, r, cs, n);
    VisitSegmentsUnfold(k, wingLoft, deflections, r, cs, n + 1);
    var devs := cs[n].devices;
    assert forall m :: 0 <= m < |devs| ==> devs[m].loft == Null;
    VisitDownCommon(k, wingLoft, deflections, before.0, devs, |devs|);
    var inner := VisitDown(k, wingLoft, deflections, before.0, devs, |devs|);
    assert WingLoft(wingLoft, before.0) == CutFold(k, start, VisitOrder(cs[..n]));
    forall m | 0 <= m < |devs|
      ensures inner.1[m].loft == k.common(CutFold(k, start, VisitOrder(cs[..n]) + Reverse(devs[m + 1..])), devs[m].cutOutShape)
    {
      assert devs[m + 1..|devs|] == devs[m + 1..];
      CutFoldConcat(k, start, VisitOrder(cs[..n]), Reverse(devs[m + 1..]));
    }
  }

  /**
   * A first run (no cut-out shape yet, no device cached, a kernel whose cut
   * is never null) caches on each device the common part of its prism with
   * the wing loft cut by every device visited before it.
   */
  lemma PipelineFirstRunCaches(k: Kernel, wingLoft: Shape, deflections: map<string, real>, clean: Shape, cs: seq<ComponentSegment>)
    requires CutNeverNull(k)
    requires AllFresh(cs)
    ensures var res := Pipeline(k, wingLoft, deflections, Null, clean, cs);
      (forall s :: 0 <= s < |cs| ==> |res.1[s].devices| == |cs[s].devices|)
      && forall s, m :: 0 <= s < |cs| && 0 <= m < |cs[s].devices| ==>
        res.1[s].devices[m].loft
          == k.common(CutFold(k, wingLoft, VisitOrder(cs[..s]) + Reverse(cs[s].devices[m + 1..])), cs[s].devices[m].cutOutShape)
  {
    VisitSegmentsCommon(k, wingLoft, deflections, FlapRun(Null, clean, Null, [], 0), cs, |cs|);
  }

  /**
   * A first run (no cut-out shape yet, no device cached, a kernel whose cut
   * is never null): the residual wing in the compound is the wing loft cut by
   * every device's prism in visit order, and one cut/common pair is performed
   * per device.
   */
  lemma PipelineFirstRun(k: Kernel, wingLoft: Shape, deflections: map<string, real>, clean: Shape, cs: seq<ComponentSegment>)
    requires CutNeverNull(k)
    requires AllFresh(cs)
    ensures var run := Pipeline(k, wingLoft, deflections, Null, clean, cs).0;
      Residual(wingLoft, run) == CutFold(k, wingLoft, VisitOrder(cs))
      && run.booleanOps == DeviceCount(cs)
  {
    var init := FlapRun(Null, clean, Null, [], 0);
    VisitSegmentsChain(k, wingLoft, deflections, init, cs, |cs|);
    VisitSegmentsCounts(k, wingLoft, deflections, init, cs, |cs|);
    assert cs[..|cs|] == cs;
    UncachedAllFresh(cs);
    PipelineResidual(k, wingLoft, deflections, Null, clean, cs);
  }

  lemma {:induction false} UncachedAllFresh(cs: seq<ComponentSegment>)
    requires AllFresh(cs)
    ensures UncachedCount(cs) == DeviceCount(cs)
    decreases |cs|
  {
    if cs != [] {
      var init := cs[..|cs| - 1];
      assert AllFresh(init) by {
        forall s, m | 0 <= s < |init| && 0 <= m < |init[s].devices|
          ensures init[s].devices[m].loft == Null
        {
          assert init[s] == cs[s];
        }
      }
      UncachedAllFresh(init);
      UncachedFresh(cs[|cs| - 1].devices);
    }
  }

  lemma {:induction false} UncachedFresh(ds: seq<Device>)
    requires forall m :: 0 <= m < |ds| ==> ds[m].loft == Null
    ensures Uncached(ds) == |ds|
    decreases |ds|
  {
    if ds != [] {
      UncachedFresh(ds[..|ds| - 1]);
    }
  }

  // ---- Deflection maps ----

  /** Two deflection maps that agree on every device give the same run. */
  lemma {:induction false} VisitDownSameDeflections(k: Kernel, wingLoft: Shape, m1: map<string, real>, m2: map<string, real>, r: FlapRun, devs: seq<Device>, j: nat)
    requires j <= |devs|
    requires forall uid :: Deflection(m1, uid) == Deflection(m2, uid)
    ensures VisitDown(k, wingLoft, m1, r, devs, j) == VisitDown(k, wingLoft, m2, r, devs, j)
    decreases j
  {
    if j > 0 {
      var d := devs[j - 1];
      var step := VisitDevice(k, wingLoft, m1, r, d);
      assert VisitDevice(k, wingLoft, m2, r, d) == step by {
        assert Deflection(m1, d.uid) == Deflection(m2, d.uid);
      }
      VisitDownUnfold(k, wingLoft, m1, r, devs, j);
      VisitDownUnfold(k, wingLoft, m2, r, devs, j);
      VisitDownSameDeflections(k, wingLoft, m1, m2, step.0, devs[j - 1 := step.1], j - 1);
    }
  }

  lemma {:induction false} VisitSegmentsSameDeflections(k: Kernel, wingLoft: Shape, m1: map<string, real>, m2: map<string, real>, r: FlapRun, cs: seq<ComponentSegment>, i: nat)
    requires i <= |cs|
    requires forall uid :: Deflection(m1, uid) == Deflection(m2, uid)
    ensures VisitSegments(k, wingLoft, m1, r, cs, i) == VisitSegments(k, wingLoft, m2, r, cs, i)
    decreases i
  {
    if i > 0 {
      VisitSegmentsSameDeflections(k, wingLoft, m1, m2, r, cs, i - 1);
      var before := VisitSegments(k, wingLoft, m1, r, cs, i - 1);
      VisitSegmentsUnfold(k, wingLoft, m1, r, cs, i);
      VisitSegmentsUnfold(k, wingLoft, m2, r, cs, i);
      VisitDownSameDeflections(k, wingLoft, m1, m2, before.0, cs[i - 1].devices, |cs[i - 1].devices|);
    }
  }

  /** A run's state apart from the shapes it added to the compound. */
  function CachedState(r: FlapRun): FlapRun {
    r.(parts := [])
  }

  /**
   * The deflections decide only what is added to the compound: from states
   * that agree apart from their parts, two inner loops with any two maps
   * leave the same devices and agree again apart from their parts.
   */
  lemma {:induction false} VisitDownStateIndependent(k: Kernel, wingLoft: Shape, m1: map<string, real>, m2: map<string, real>,
                                                     r1: FlapRun, r2: FlapRun, devs: seq<Device>, j: nat)
    requires j <= |devs|
    requires CachedState(r1) == CachedState(r2)
    ensures var a := VisitDown(k, wingLoft, m1, r1, devs, j);
      var b := VisitDown(k, wingLoft, m2, r2, devs, j);
      a.1 == b.1 && CachedState(a.0) == CachedState(b.0)
    decreases j
  {
    if j > 0 {
      var s1 := VisitDevice(k, wingLoft, m1, r1, devs[j - 1]);
      var s2 := VisitDevice(k, wingLoft, m2, r2, devs[j - 1]);
      assert s1.1 == s2.1 && CachedState(s1.0) == CachedState(s2.0);
      VisitDownUnfold(k, wingLoft, m1, r1, devs, j);
      VisitDownUnfold(k, wingLoft, m2, r2, devs, j);
      VisitDownStateIndependent(k, wingLoft, m1, m2, s1.0, s2.0, devs[j - 1 := s1.1], j - 1);
    }
  }

  lemma {:induction false} VisitSegmentsStateIndependent(k: Kernel, wingLoft: Shape, m1: map<string, real>, m2: map<string, real>,
                                                         r1: FlapRun, r2: FlapRun, cs: seq<ComponentSegment>, i: nat)
    requires i <= |cs|
    requires CachedState(r1) == CachedState(r2)
    ensures var a := VisitSegments(k, wingLoft, m1, r1, cs, i);
      var b := VisitSegments(k, wingLoft, m2, r2, cs, i);
      a.1 == b.1 && CachedState(a.0) == CachedState(b.0)
    decreases i
  {
    if i > 0 {
      VisitSegmentsStateIndependent(k, wingLoft, m1, m2, r1, r2, cs, i - 1);
      var b1 := VisitSegments(k, wingLoft, m1, r1, cs, i - 1);
      var b2 := VisitSegments(k, wingLoft, m2, r2, cs, i - 1);
      VisitSegmentsUnfold(k, wingLoft, m1, r1, cs, i);
      VisitSegmentsUnfold(k, wingLoft, m2, r2, cs, i);
      VisitDownStateIndependent(k, wingLoft, m1, m2, b1.0, b2.0, cs[i - 1].devices, |cs[i - 1].devices|);
    }
  }

  /**
   * The state a run leaves behind (the device lofts, the cut-out and clean
   * shapes, the last residual and the boolean operations performed) does not
   * depend on the deflection map.
   */
  lemma PipelineStateIndependent(k: Kernel, wingLoft: Shape, m1: map<string, real>, m2: map<string, real>,
                                 cutOut: Shape, clean: Shape, cs: seq<ComponentSegment>)
    ensures var a := Pipeline(k, wingLoft, m1, cutOut, clean, cs);
      var b := Pipeline(k, wingLoft, m2, cutOut, clean, cs);
      a.1 == b.1 && a.0.cutOut == b.0.cutOut && a.0.clean == b.0.clean
      && a.0.lastCut == b.0.lastCut && a.0.booleanOps == b.0.booleanOps
  {
    var init := FlapRun(cutOut, clean, Null, [], 0);
    VisitSegmentsStateIndependent(k, wingLoft, m1, m2, init, init, cs, |cs|);
  }

  /**
   * Changing the deflections between two runs redoes only the deflection
   * transforms (a kernel whose common part is never null): the second run
   * performs no cut/common, keeps the devices and the cut-out shape, and its
   * compound is the cached lofts moved by the new deflections, followed by
   * the residual the first run left.
   */
  lemma PipelineRedeflects(k: Kernel, wingLoft: Shape, rerunLoft: Shape, m1: map<string, real>, m2: map<string, real>,
                           cutOut: Shape, clean: Shape, cs: seq<ComponentSegment>)
    requires CommonNeverNull(k)
    ensures var first := Pipeline(k, wingLoft, m1, cutOut, clean, cs);
      var again := Pipeline(k, wingLoft, m2, first.0.cutOut, first.0.clean, first.1);
      again.0.booleanOps == 0 && again.1 == first.1 && again.0.cutOut == first.0.cutOut
      && FlapCompound(wingLoft, again.0) == Compound(DeflectedLofts(k, m2, VisitOrder(first.1)) + [Residual(wingLoft, first.0)])
    ensures CutNeverNull(k) && DeviceCount(cs) > 0 && (cutOut != Null || UncachedCount(cs) > 0) ==>
      var first := Pipeline(k, wingLoft, m1, cutOut, clean, cs);
      var again := Pipeline(k, rerunLoft, m2, first.0.cutOut, first.0.clean, first.1);
      again.0.booleanOps == 0 && again.1 == first.1 && again.0.cutOut == first.0.cutOut
      && FlapCompound(rerunLoft, again.0) == Compound(DeflectedLofts(k, m2, VisitOrder(first.1)) + [Residual(wingLoft, first.0)])
  {
    if CutNeverNull(k) && DeviceCount(cs) > 0 && (cutOut != Null || UncachedCount(cs) > 0) {
      RerunIgnoresWingLoft(k, wingLoft, rerunLoft, m1, m2, cutOut, clean, cs);
    }
    var first := Pipeline(k, wingLoft, m1, cutOut, clean, cs);
    var other := Pipeline(k, wingLoft, m2, cutOut, clean, cs);
    PipelineStateIndependent(k, wingLoft, m1, m2, cutOut, clean, cs);
    PipelineIdempotent(k, wingLoft, wingLoft, m2, cutOut, clean, cs);
    PipelineCompound(k, wingLoft, m2, cutOut, clean, cs);
    assert Residual(wingLoft, other.0) == Residual(wingLoft, first.0);
  }

  /** ExtendFlap's map: the named device gets the percentage, every other device 0. */
  function ExtendFlapMap(flapUid: string, percent: real): (m: map<string, real>)
    ensures forall uid :: Deflection(m, uid) == if uid == flapUid then percent else 0.0
  {
    map[flapUid := percent]
  }

  /**
   * Extending a flap by 0 gives exactly what the empty map gives: the
   * pipeline with every device undeflected.
   */
  lemma ExtendFlapZeroIsUndeflected(k: Kernel, wingLoft: Shape, flapUid: string, cutOut: Shape, clean: Shape, cs: seq<ComponentSegment>)
    ensures Pipeline(k, wingLoft, ExtendFlapMap(flapUid, 0.0), cutOut, clean, cs)
         == Pipeline(k, wingLoft, map[], cutOut, clean, cs)
  {
    var m1, m2: map<string, real> := ExtendFlapMap(flapUid, 0.0), map[];
    assert forall uid :: Deflection(m1, uid) == Deflection(m2, uid);
    VisitSegmentsSameDeflections(k, wingLoft, m1, m2, FlapRun(cutOut, clean, Null, [], 0), cs, |cs|);
  }

  /**
   * The residual wing is the current wing shape whenever some device was
   * visited or the run started without a cut-out shape.
   */
  lemma PipelineResidual(k: Kernel, wingLoft: Shape, deflections: map<string, real>, cutOut: Shape, clean: Shape, cs: seq<ComponentSegment>)
    requires DeviceCount(cs) > 0 || cutOut == Null
    ensures var run := Pipeline(k, wingLoft, deflections, cutOut, clean, cs).0;
      Residual(wingLoft, run) == WingLoft(wingLoft, run)
  {
    VisitSegmentsCounts(k, wingLoft, deflections, FlapRun(cutOut, clean, Null, [], 0), cs, |cs|);
    assert cs[..|cs|] == cs;
  }

  /**
   * Without devices the pipeline changes nothing: no cut-out shape is made,
   * so the compound is the wing loft alone.
   */
  lemma PipelineWithoutDevices(k: Kernel, wingLoft: Shape, deflections: map<string, real>, cutOut: Shape, clean: Shape, cs: seq<ComponentSegment>)
    requires DeviceCount(cs) == 0
    ensures Pipeline(k, wingLoft, deflections, cutOut, clean, cs) == (FlapRun(cutOut, clean, Null, [], 0), cs)
    ensures FlapCompound(wingLoft, Pipeline(k, wingLoft, deflections, cutOut, clean, cs).0) == Compound([wingLoft])
  {
    VisitSegmentsCounts(k, wingLoft, deflections, FlapRun(cutOut, clean, Null, [], 0), cs, |cs|);
    assert cs[..|cs|] == cs;
  }

  /**
   * ExtendFlap(uid, p) followed by ExtendFlap(uid, 0) (a kernel whose common
   * part is never null): the second call performs no cut/common, leaves the
   * devices and the cut-out shape of an undeflected run, and returns the
   * compound of an undeflected run.
   */
  lemma ExtendFlapThenRetract(k: Kernel, wingLoft: Shape, rerunLoft: Shape, flapUid: string, percent: real,
                              cutOut: Shape, clean: Shape, cs: seq<ComponentSegment>)
    requires CommonNeverNull(k)
    ensures var first := Pipeline(k, wingLoft, ExtendFlapMap(flapUid, percent), cutOut, clean, cs);
      var back := Pipeline(k, wingLoft, ExtendFlapMap(flapUid, 0.0), first.0.cutOut, first.0.clean, first.1);
      var plain := Pipeline(k, wingLoft, map[], cutOut, clean, cs);
      back.0.booleanOps == 0 && back.1 == plain.1 && back.0.cutOut == plain.0.cutOut
      && FlapCompound(wingLoft, back.0) == FlapCompound(wingLoft, plain.0)
    ensures CutNeverNull(k) && DeviceCount(cs) > 0 && (cutOut != Null || UncachedCount(cs) > 0) ==>
      var first := Pipeline(k, wingLoft, ExtendFlapMap(flapUid, percent), cutOut, clean, cs);
      var back := Pipeline(k, rerunLoft, ExtendFlapMap(flapUid, 0.0), first.0.cutOut, first.0.clean, first.1);
      var plain := Pipeline(k, wingLoft, map[], cutOut, clean, cs);
      back.0.booleanOps == 0 && back.1 == plain.1 && back.0.cutOut == plain.0.cutOut
      && FlapCompound(rerunLoft, back.0) == FlapCompound(wingLoft, plain.0)
  {
    if CutNeverNull(k) && DeviceCount(cs) > 0 && (cutOut != Null || UncachedCount(cs) > 0) {
      RerunIgnoresWingLoft(k, wingLoft, rerunLoft, ExtendFlapMap(flapUid, percent), ExtendFlapMap(flapUid, 0.0), cutOut, clean, cs);
    }
    var m0: map<string, real> := map[];
    var first := Pipeline(k, wingLoft, ExtendFlapMap(flapUid, percent), cutOut, clean, cs);
    var plain := Pipeline(k, wingLoft, m0, cutOut, clean, cs);
    PipelineStateIndependent(k, wingLoft, ExtendFlapMap(flapUid, percent), m0, cutOut, clean, cs);
    ExtendFlapZeroIsUndeflected(k, wingLoft, flapUid, first.0.cutOut, first.0.clean, first.1);
    assert Pipeline(k, wingLoft, m0, first.0.cutOut, first.0.clean, first.1)
        == Pipeline(k, wingLoft, m0, plain.0.cutOut, plain.0.clean, plain.1);
    PipelineIdempotent(k, wingLoft, wingLoft, m0, cutOut, clean, cs);
  }
}
