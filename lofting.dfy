/**
 * The cross sections a wing is lofted through (CCPACSWing.cpp,
 * transformToWingCoords, BuildFusedSegments, BuildUpperLowerShells): which
 * wires, in which order, and how each is brought into wing coordinates.
 */
module Lofting {
  import opened Transformations
  import opened GeometryKernel
  import opened WingParts

  /** Which wire of a profile is lofted. */
  datatype WireKind = Whole | Upper | Lower

  function ProfileWire(p: Profile, kind: WireKind): Shape {
    match kind
    case Whole => p.wire
    case Upper => p.upperWire
    case Lower => p.lowerWire
  }

  const WrongShapeType := Error(TiglError, "Error: Wrong shape type in CCPACSWing::transformToAbsCoords")

  /** What asking the segment list for segment 0 throws (the message is the segment list's). */
  const NoSuchSegment := Error(TiglIndexError, "Invalid index in CCPACSWingSegments::GetSegment")

  /**
   * transformToWingCoords: the element, then the section, then the
   * positioning transformation; anything but a wire is an error.
   */
  function TransformToWingCoords(k: Kernel, c: Connection, wire: Shape): (r: Result<Shape>)
    ensures r.Ok? ==> k.isWire(r.value)
    ensures r.Err? ==> r.error == WrongShapeType
  {
    var w1 := k.transform(Matrix(c.elementTransformation), wire);
    var w2 := k.transform(Matrix(c.sectionTransformation), w1);
    var w3 := k.transform(Matrix(c.positioningTransformation), w2);
    if k.isWire(w3) then Ok(w3) else Err(WrongShapeType)
  }

  /**
   * With a kernel whose transform composes, the three steps are one
   * transformation: element, then section, then positioning.
   */
  lemma TransformToWingCoordsComposes(k: Kernel, c: Connection, wire: Shape)
    requires ComposesMatrices(k)
    ensures var t := c.elementTransformation + c.sectionTransformation + c.positioningTransformation;
            var w := k.transform(Matrix(t), wire);
            TransformToWingCoords(k, c, wire) == if k.isWire(w) then Ok(w) else Err(WrongShapeType)
  {
  }

  /** The inner connection of each of the first `n` segments, with the chosen wire. */
  function StartSections(segs: seq<Segment>, kind: WireKind, n: nat): (ps: seq<(Connection, Shape)>)
    requires n <= |segs|
    ensures |ps| == n
    ensures forall j :: 0 <= j < n ==> ps[j] == (segs[j].inner, ProfileWire(segs[j].inner.profile, kind))
  {
    seq(n, j requires 0 <= j < n => (segs[j].inner, ProfileWire(segs[j].inner.profile, kind)))
  }

  /**
   * The cross sections in loft order: the inner connection of segments 1..N,
   * then the outer connection of segment N.
   */
  function Sections(segs: seq<Segment>, kind: WireKind): seq<(Connection, Shape)> {
    StartSections(segs, kind, |segs|)
      + if |segs| == 0 then [] else [(segs[|segs| - 1].outer, ProfileWire(segs[|segs| - 1].outer.profile, kind))]
  }

  /** Every section transformed into wing coordinates, in order; the first failure wins. */
  function TransformedWires(k: Kernel, ps: seq<(Connection, Shape)>): (r: Result<seq<Shape>>)
    ensures r.Ok? ==> |r.value| == |ps|
    ensures r.Err? ==> r.error == WrongShapeType
    decreases |ps|
  {
    if ps == [] then Ok([])
    else
      match TransformedWires(k, ps[..|ps| - 1])
      case Err(e) => Err(e)
      case Ok(ws) =>
        match TransformToWingCoords(k, ps[|ps| - 1].0, ps[|ps| - 1].1)
        case Err(e) => Err(e)
        case Ok(w) => Ok(ws + [w])
  }

  /**
   * The wires of a loft: the index error of an empty segment list, else the
   * transformed sections.
   */
  function SectionWires(k: Kernel, segs: seq<Segment>, kind: WireKind): Result<seq<Shape>> {
    if |segs| == 0 then Err(NoSuchSegment) else TransformedWires(k, Sections(segs, kind))
  }

  /** Both shells' wires; the upper wires are transformed first. */
  function ShellWires(k: Kernel, segs: seq<Segment>): Result<(seq<Shape>, seq<Shape>)> {
    match SectionWires(k, segs, Upper)
    case Err(e) => Err(e)
    case Ok(up) =>
      match SectionWires(k, segs, Lower)
      case Err(e) => Err(e)
      case Ok(low) => Ok((up, low))
  }

  /** A failure on either shell's sections is the shells' wrong-shape error. */
  lemma ShellWiresErr(k: Kernel, segs: seq<Segment>)
    requires |segs| > 0
    requires TransformedWires(k, Sections(segs, Upper)).Err? || TransformedWires(k, Sections(segs, Lower)).Err?
    ensures ShellWires(k, segs) == Err(WrongShapeType)
  {
  }

  /** With both shells' sections transformed, the shells' wires are those two lists. */
  lemma ShellWiresOk(k: Kernel, segs: seq<Segment>, up: seq<Shape>, low: seq<Shape>)
    requires |segs| > 0
    requires TransformedWires(k, Sections(segs, Upper)) == Ok(up)
    requires TransformedWires(k, Sections(segs, Lower)) == Ok(low)
    ensures ShellWires(k, segs) == Ok((up, low))
  {
  }

  /** One more section: what TransformedWires does with it. */
  lemma TransformedWiresSnoc(k: Kernel, ps: seq<(Connection, Shape)>, q: (Connection, Shape))
    ensures TransformedWires(k, ps + [q]) ==
      match TransformedWires(k, ps)
      case Err(e) => Err(e)
      case Ok(ws) =>
        match TransformToWingCoords(k, q.0, q.1)
        case Err(e) => Err(e)
        case Ok(w) => Ok(ws + [w])
  {
  }

  /** A failure among the first sections is the failure of the whole list. */
  lemma {:induction false} TransformedWiresPrefixErr(k: Kernel, ps: seq<(Connection, Shape)>, n: nat)
    requires n <= |ps|
    requires TransformedWires(k, ps[..n]).Err?
    ensures TransformedWires(k, ps) == TransformedWires(k, ps[..n])
    decreases |ps| - n
  {
    if n < |ps| {
      TransformedWiresSnoc(k, ps[..n], ps[n]);
      assert ps[..n + 1] == ps[..n] + [ps[n]];
      TransformedWiresPrefixErr(k, ps, n + 1);
    } else {
      assert ps[..n] == ps;
    }
  }

  /**
   * TransformedWires succeeds exactly when every section transforms to a
   * wire, and then its i-th wire is the i-th section's.
   */
  lemma {:induction false} TransformedWiresAt(k: Kernel, ps: seq<(Connection, Shape)>)
    ensures TransformedWires(k, ps).Ok? <==> forall j :: 0 <= j < |ps| ==> TransformToWingCoords(k, ps[j].0, ps[j].1).Ok?
    ensures TransformedWires(k, ps).Ok? ==>
      forall j :: 0 <= j < |ps| ==> TransformedWires(k, ps).value[j] == TransformToWingCoords(k, ps[j].0, ps[j].1).value
    decreases |ps|
  {
    if ps != [] {
      var init := ps[..|ps| - 1];
      TransformedWiresAt(k, init);
      assert forall j :: 0 <= j < |init| ==> init[j] == ps[j];
    }
  }

  /**
   * The loft wires of N segments: N + 1 wires, the inner connection of each
   * segment in order and then the outer connection of the last, each
   * transformed into wing coordinates; and there are such wires exactly when
   * N >= 1 and every one of those connections yields a wire.
   */
  lemma SectionWiresOrder(k: Kernel, segs: seq<Segment>, kind: WireKind)
    ensures SectionWires(k, segs, kind).Ok? <==>
      |segs| > 0
      && (forall j :: 0 <= j < |segs| ==>
            TransformToWingCoords(k, segs[j].inner, ProfileWire(segs[j].inner.profile, kind)).Ok?)
      && TransformToWingCoords(k, segs[|segs| - 1].outer, ProfileWire(segs[|segs| - 1].outer.profile, kind)).Ok?
    ensures SectionWires(k, segs, kind).Ok? ==>
      var ws := SectionWires(k, segs, kind).value;
      |ws| == |segs| + 1
      && (forall j :: 0 <= j < |segs| ==>
            ws[j] == TransformToWingCoords(k, segs[j].inner, ProfileWire(segs[j].inner.profile, kind)).value)
      && ws[|segs|] == TransformToWingCoords(k, segs[|segs| - 1].outer, ProfileWire(segs[|segs| - 1].outer.profile, kind)).value
  {
    if |segs| > 0 {
      var ps := Sections(segs, kind);
      TransformedWiresAt(k, ps);
      assert ps[|segs|] == (segs[|segs| - 1].outer, ProfileWire(segs[|segs| - 1].outer.profile, kind));
      assert forall j :: 0 <= j < |segs| ==> ps[j] == (segs[j].inner, ProfileWire(segs[j].inner.profile, kind));
    }
  }

  /**
   * One more section after a successful prefix: its wire is appended, or its
   * failure is the failure of the whole list.
   */
  lemma WiresStep(k: Kernel, ps: seq<(Connection, Shape)>, i: nat, ws: seq<Shape>)
    requires 0 < i <= |ps|
    requires TransformedWires(k, ps[..i - 1]) == Ok(ws)
    ensures var w := TransformToWingCoords(k, ps[i - 1].0, ps[i - 1].1);
      (w.Ok? ==> TransformedWires(k, ps[..i]) == Ok(ws + [w.value]))
      && (w.Err? ==> TransformedWires(k, ps) == Err(w.error))
  {
    assert ps[..i] == ps[..i - 1] + [ps[i - 1]];
    TransformedWiresSnoc(k, ps[..i - 1], ps[i - 1]);
    if TransformToWingCoords(k, ps[i - 1].0, ps[i - 1].1).Err? {
      TransformedWiresPrefixErr(k, ps, i);
    }
  }

  /** The sections, one by one: the inner connections, then the last outer one. */
  lemma SectionAt(segs: seq<Segment>, kind: WireKind, j: nat)
    requires j <= |segs| && |segs| > 0
    ensures |Sections(segs, kind)| == |segs| + 1
    ensures j < |segs| ==> Sections(segs, kind)[j] == (segs[j].inner, ProfileWire(segs[j].inner.profile, kind))
    ensures j == |segs| ==> Sections(segs, kind)[j] == (segs[j - 1].outer, ProfileWire(segs[j - 1].outer.profile, kind))
  {
  }

  /** The first n sections are the inner connections of the first n segments. */
  lemma SectionsPrefix(segs: seq<Segment>, kind: WireKind, n: nat)
    requires n <= |segs|
    ensures Sections(segs, kind)[..n] == StartSections(segs, kind, n)
  {
  }

  /** The error of a failed loft: the index error with no segment, else a wrong shape type. */
  function LoftError(segs: seq<Segment>): Error {
    if |segs| == 0 then NoSuchSegment else WrongShapeType
  }

  /**
   * BuildFusedSegments' shape with wing matrix `t`: the solid loft through
   * the section wires, moved by `t`.
   */
  function FusedShape(k: Kernel, segs: seq<Segment>, t: Transformation): (r: Result<Shape>)
    ensures r.Ok? <==> SectionWires(k, segs, Whole).Ok?
    ensures r.Ok? ==> r.value == k.transform(Matrix(t), k.loft(SectionWires(k, segs, Whole).value, true))
    ensures r.Err? ==> r.error == LoftError(segs)
  {
    match SectionWires(k, segs, Whole)
    case Err(e) => Err(e)
    case Ok(ws) => Ok(k.transform(Matrix(t), k.loft(ws, true)))
  }

  /**
   * BuildUpperLowerShells' shapes with wing matrix `t`: the upper and the
   * lower shell, each lofted (not as a solid) through its wires and moved by `t`.
   */
  function ShellShapes(k: Kernel, segs: seq<Segment>, t: Transformation): (r: Result<(Shape, Shape)>)
    ensures r.Ok? <==> SectionWires(k, segs, Upper).Ok? && SectionWires(k, segs, Lower).Ok?
    ensures r.Ok? ==>
      r.value.0 == k.transform(Matrix(t), k.loft(SectionWires(k, segs, Upper).value, false))
      && r.value.1 == k.transform(Matrix(t), k.loft(SectionWires(k, segs, Lower).value, false))
    ensures r.Err? ==> r.error == LoftError(segs)
  {
    match ShellWires(k, segs)
    case Err(e) => Err(e)
    case Ok(wires) => Ok((k.transform(Matrix(t), k.loft(wires.0, false)), k.transform(Matrix(t), k.loft(wires.1, false))))
  }
}
