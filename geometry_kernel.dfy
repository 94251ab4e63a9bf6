/**
 * The geometry kernel boundary, kept opaque. Shapes are values the wing only
 * stores, compares with the null shape and hands back to the kernel; the
 * kernel's operations are the fields of a `Kernel` value, total functions of
 * which nothing is known unless a lemma says so in its requires. Every
 * property proved over a `Kernel` parameter therefore holds for every kernel.
 */
module GeometryKernel {
  import opened Transformations

  /** A kernel shape handle: the null shape, a kernel-built shape, or a compound of shapes. */
  datatype Shape = Null | Topo(id: nat) | Compound(parts: seq<Shape>)

  /**
   * A rigid transformation handed to the kernel: a component matrix, or the
   * deflection transformation of a control surface device at a given
   * percentage (computed by the device, which is not part of this model).
   */
  datatype Trsf = Matrix(ops: Transformation) | DeviceDeflection(deviceUid: string, percent: real)

  datatype Kernel = Kernel(
    transform: (Trsf, Shape) -> Shape,   // CTiglTransformation::Transform, BRepBuilderAPI_Transform
    isWire: Shape -> bool,                // ShapeType() == TopAbs_WIRE
    loft: (seq<Shape>, bool) -> Shape,    // BRepOffsetAPI_ThruSections through the wires; the flag: solid
    cut: (Shape, Shape) -> Shape,         // BRepAlgoAPI_Cut
    common: (Shape, Shape) -> Shape)      // BRepAlgoAPI_Common

  /** The kernel's transform respects composition of component matrices. */
  ghost predicate ComposesMatrices(k: Kernel) {
    forall a, b, s :: k.transform(Matrix(b), k.transform(Matrix(a), s)) == k.transform(Matrix(a + b), s)
  }

  /** Error codes of the library (TIGL_ERROR, TIGL_INDEX_ERROR). */
  datatype ErrorCode = TiglError | TiglIndexError

  /** A thrown CTiglError: its code and its message. */
  datatype Error = Error(code: ErrorCode, message: string)

  datatype Result<T> = Ok(value: T) | Err(error: Error)

  /** The outcome of an operation that returns nothing or throws. */
  datatype Outcome = Done | Failed(error: Error)
}
