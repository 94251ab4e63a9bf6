/**
 * Symbolic model of the component transformation (CTiglTransformation as the
 * wing uses it). A transformation is the list of primitive operations it
 * applies, in the order they are applied to a point: the first element acts
 * first. The identity is the empty list and `AddScaling`, `AddRotationZ`, ...
 * append one primitive at the end.
 */
module Transformations {

  datatype Point = Point(x: real, y: real, z: real)

  function Plus(a: Point, b: Point): Point {
    Point(a.x + b.x, a.y + b.y, a.z + b.z)
  }

  function Negated(p: Point): Point {
    Point(-p.x, -p.y, -p.z)
  }

  /** Primitive operations; rotation angles in degrees, as in the document. */
  datatype Op =
    | Scale(factors: Point)
    | RotateZ(angleZ: real)
    | RotateY(angleY: real)
    | RotateX(angleX: real)
    | Translate(offset: Point)

  type Transformation = seq<Op>

  const Identity: Transformation := []

  /** Appends one primitive: it acts after everything already in `t`. */
  function Then(t: Transformation, op: Op): Transformation {
    t + [op]
  }

  /** Reciprocal of a scale factor; a zero factor has no inverse and stays 0. */
  function Recip(r: real): real {
    if r == 0.0 then 0.0 else 1.0 / r
  }

  function InvertOp(op: Op): Op {
    match op
    case Scale(f) => Scale(Point(Recip(f.x), Recip(f.y), Recip(f.z)))
    case RotateZ(a) => RotateZ(-a)
    case RotateY(a) => RotateY(-a)
    case RotateX(a) => RotateX(-a)
    case Translate(v) => Translate(Negated(v))
  }

  /** The inverse transformation: the inverted primitives in reverse order. */
  function Inverted(t: Transformation): (r: Transformation)
    ensures |r| == |t|
    ensures forall i :: 0 <= i < |t| ==> r[i] == InvertOp(t[|t| - 1 - i])
  {
    if t == [] then [] else [InvertOp(t[|t| - 1])] + Inverted(t[..|t| - 1])
  }

  lemma InvertOpInvolution(op: Op)
    ensures InvertOp(InvertOp(op)) == op
  {
  }

  /** Inverting twice gives back the transformation. */
  lemma {:induction false} InvertedInvolution(t: Transformation)
    ensures Inverted(Inverted(t)) == t
  {
    var r := Inverted(Inverted(t));
    forall i | 0 <= i < |t|
      ensures r[i] == t[i]
    {
      InvertOpInvolution(t[i]);
    }
  }

  /** The inverse of "a, then b" is "inverse of b, then inverse of a". */
  lemma InvertedConcat(a: Transformation, b: Transformation)
    ensures Inverted(a + b) == Inverted(b) + Inverted(a)
  {
  }

  /**
   * Meaning of a transformation under an interpretation `act` of the
   * primitives on points: the operations are applied first to last.
   */
  function Apply(act: (Op, Point) -> Point, t: Transformation, p: Point): Point
    decreases |t|
  {
    if t == [] then p else act(t[|t| - 1], Apply(act, t[..|t| - 1], p))
  }

  lemma {:induction false} ApplyConcat(act: (Op, Point) -> Point, a: Transformation, b: Transformation, p: Point)
    ensures Apply(act, a + b, p) == Apply(act, b, Apply(act, a, p))
    decreases |b|
  {
    if b == [] {
      assert a + b == a;
    } else {
      assert (a + b)[..|a + b| - 1] == a + b[..|b| - 1];
      ApplyConcat(act, a, b[..|b| - 1], p);
    }
  }

  /** Under `act`, every primitive of `t` is undone by its inverse. */
  ghost predicate UndoneEach(act: (Op, Point) -> Point, t: Transformation) {
    forall i, q :: 0 <= i < |t| ==> act(InvertOp(t[i]), act(t[i], q)) == q
  }

  /** Under `act`, every primitive of `t` undoes its inverse. */
  ghost predicate RedoneEach(act: (Op, Point) -> Point, t: Transformation) {
    forall i, q :: 0 <= i < |t| ==> act(t[i], act(InvertOp(t[i]), q)) == q
  }

  /** The inverse applied after the transformation is the identity on points. */
  lemma {:induction false} InvertedAfter(act: (Op, Point) -> Point, t: Transformation, p: Point)
    requires UndoneEach(act, t)
    ensures Apply(act, Inverted(t), Apply(act, t, p)) == p
    decreases |t|
  {
    if t != [] {
      var init, last := t[..|t| - 1], t[|t| - 1];
      var q := Apply(act, init, p);
      assert Apply(act, t, p) == act(last, q);
      assert Inverted(t) == [InvertOp(last)] + Inverted(init);
      ApplyConcat(act, [InvertOp(last)], Inverted(init), act(last, q));
      assert Apply(act, [InvertOp(last)], act(last, q)) == act(InvertOp(last), act(last, q)) by {
        assert [InvertOp(last)][..0] == [];
      }
      assert UndoneEach(act, init) by {
        forall i, q' | 0 <= i < |init|
          ensures act(InvertOp(init[i]), act(init[i], q')) == q'
        {
          assert init[i] == t[i];
        }
      }
      InvertedAfter(act, init, p);
    }
  }

  /**
   * backTransformation undoes transformation: under any interpretation in
   * which each primitive of `t` and its inverse undo each other, the inverse
   * applied after the transformation, and before it, is the identity on
   * points.
   */
  lemma InvertedUndoes(act: (Op, Point) -> Point, t: Transformation, p: Point)
    requires UndoneEach(act, t) && RedoneEach(act, t)
    ensures Apply(act, Inverted(t), Apply(act, t, p)) == p
    ensures Apply(act, t, Apply(act, Inverted(t), p)) == p
  {
    InvertedAfter(act, t, p);
    var inv := Inverted(t);
    assert UndoneEach(act, inv) by {
      forall i, q | 0 <= i < |inv|
        ensures act(InvertOp(inv[i]), act(inv[i], q)) == q
      {
        var op := t[|t| - 1 - i];
        assert inv[i] == InvertOp(op);
        InvertOpInvolution(op);
        assert act(op, act(InvertOp(op), q)) == q;
      }
    }
    InvertedAfter(act, inv, p);
    InvertedInvolution(t);
  }

  /**
   * The wing matrix: from the identity, scale, then rotate about z, y and x,
   * then translate.
   */
  function WingMatrix(scaling: Point, rotation: Point, translation: Point): Transformation {
    Then(Then(Then(Then(Then(Identity, Scale(scaling)), RotateZ(rotation.z)), RotateY(rotation.y)),
              RotateX(rotation.x)), Translate(translation))
  }

  /** The order of the wing matrix, written out. */
  lemma WingMatrixOrder(scaling: Point, rotation: Point, translation: Point)
    ensures WingMatrix(scaling, rotation, translation)
         == [Scale(scaling), RotateZ(rotation.z), RotateY(rotation.y), RotateX(rotation.x), Translate(translation)]
  {
  }

  /**
   * The wing back transformation, written out: translate back, rotate back
   * about x, y and z, then undo the scaling.
   */
  lemma WingBackTransformation(scaling: Point, rotation: Point, translation: Point)
    ensures Inverted(WingMatrix(scaling, rotation, translation))
         == [Translate(Negated(translation)), RotateX(-rotation.x), RotateY(-rotation.y), RotateZ(-rotation.z),
             Scale(Point(Recip(scaling.x), Recip(scaling.y), Recip(scaling.z)))]
  {
  }

  /** Scale multiplies componentwise. */
  ghost predicate ScalesComponentwise(act: (Op, Point) -> Point) {
    forall f, p {:trigger act(Scale(f), p)} :: act(Scale(f), p) == Point(f.x * p.x, f.y * p.y, f.z * p.z)
  }

  /** Translate adds its offset. */
  ghost predicate TranslatesByOffset(act: (Op, Point) -> Point) {
    forall v, p {:trigger act(Translate(v), p)} :: act(Translate(v), p) == Plus(v, p)
  }

  /** A rotation by the opposite angle undoes a rotation about the same axis. */
  ghost predicate RotationsReversible(act: (Op, Point) -> Point) {
    (forall a, p :: act(RotateZ(-a), act(RotateZ(a), p)) == p)
    && (forall a, p :: act(RotateY(-a), act(RotateY(a), p)) == p)
    && (forall a, p :: act(RotateX(-a), act(RotateX(a), p)) == p)
  }

  lemma RecipCancels(f: real, x: real)
    requires f != 0.0
    ensures Recip(f) * (f * x) == x && f * (Recip(f) * x) == x
  {
    assert Recip(f) * f == 1.0;
  }

  lemma ScaleUndone(act: (Op, Point) -> Point, f: Point, q: Point)
    requires ScalesComponentwise(act)
    requires f.x != 0.0 && f.y != 0.0 && f.z != 0.0
    ensures act(InvertOp(Scale(f)), act(Scale(f), q)) == q
    ensures act(Scale(f), act(InvertOp(Scale(f)), q)) == q
  {
    var g := Point(Recip(f.x), Recip(f.y), Recip(f.z));
    assert InvertOp(Scale(f)) == Scale(g);
    var s := act(Scale(f), q);
    assert s == Point(f.x * q.x, f.y * q.y, f.z * q.z);
    assert act(Scale(g), s) == Point(g.x * s.x, g.y * s.y, g.z * s.z);
    var u := act(Scale(g), q);
    assert u == Point(g.x * q.x, g.y * q.y, g.z * q.z);
    assert act(Scale(f), u) == Point(f.x * u.x, f.y * u.y, f.z * u.z);
    RecipCancels(f.x, q.x);
    RecipCancels(f.y, q.y);
    RecipCancels(f.z, q.z);
  }

  lemma RotationUndone(act: (Op, Point) -> Point, op: Op, q: Point)
    requires RotationsReversible(act)
    requires op.RotateZ? || op.RotateY? || op.RotateX?
    ensures act(InvertOp(op), act(op, q)) == q && act(op, act(InvertOp(op), q)) == q
  {
    match op
    case RotateZ(a) => assert act(RotateZ(-(-a)), act(RotateZ(-a), q)) == q;
    case RotateY(a) => assert act(RotateY(-(-a)), act(RotateY(-a), q)) == q;
    case RotateX(a) => assert act(RotateX(-(-a)), act(RotateX(-a), q)) == q;
  }

  /**
   * The wing's backTransformation undoes its transformation, and the other
   * way round, whenever no scale factor is zero: scaling multiplies
   * componentwise, translation adds its offset and rotations are reversible.
   */
  lemma WingMatrixRoundTrip(act: (Op, Point) -> Point, scaling: Point, rotation: Point, translation: Point, p: Point)
    requires ScalesComponentwise(act) && TranslatesByOffset(act) && RotationsReversible(act)
    requires scaling.x != 0.0 && scaling.y != 0.0 && scaling.z != 0.0
    ensures var t := WingMatrix(scaling, rotation, translation);
      Apply(act, Inverted(t), Apply(act, t, p)) == p && Apply(act, t, Apply(act, Inverted(t), p)) == p
  {
    var t := WingMatrix(scaling, rotation, translation);
    WingMatrixOrder(scaling, rotation, translation);
    forall i, q | 0 <= i < |t|
      ensures act(InvertOp(t[i]), act(t[i], q)) == q && act(t[i], act(InvertOp(t[i]), q)) == q
    {
      if i == 0 {
        ScaleUndone(act, scaling, q);
      } else if i < 4 {
        RotationUndone(act, t[i], q);
      } else {
        assert act(InvertOp(t[i]), act(t[i], q)) == Plus(Negated(translation), Plus(translation, q));
        assert act(t[i], act(InvertOp(t[i]), q)) == Plus(translation, Plus(Negated(translation), q));
      }
    }
    InvertedUndoes(act, t, p);
  }
}
