/**
 * The child entities of a wing as far as the wing's own code reads them:
 * connections (profile plus element, section and positioning transformation),
 * segments, component segments and their trailing edge devices.
 */
module WingParts {
  import opened Transformations
  import opened GeometryKernel

  /** TiglSymmetryAxis. */
  datatype Symmetry = NoSymmetry | XYPlane | XZPlane | YZPlane

  /** A wing profile: its closed wire and its upper and lower halves. */
  datatype Profile = Profile(wire: Shape, upperWire: Shape, lowerWire: Shape)

  /** CCPACSWingConnection: a profile placed by three transformations. */
  datatype Connection = Connection(
    profile: Profile,
    elementTransformation: Transformation,
    sectionTransformation: Transformation,
    positioningTransformation: Transformation)

  datatype GuideCurve = GuideCurve(uid: string, curve: Shape)

  /** CCPACSWingSegment: inner and outer connection, symmetry, guide curves by uid. */
  datatype Segment = Segment(
    inner: Connection,
    outer: Connection,
    symmetry: Symmetry,
    guideCurves: map<string, GuideCurve>)

  /**
   * CCPACSTrailingEdgeDevice: its uid, the cut-out prism built from its outer
   * shape, and its cached loft (Null until the flap pipeline computes it).
   */
  datatype Device = Device(uid: string, cutOutShape: Shape, loft: Shape)

  /** CCPACSWingComponentSegment: symmetry and its trailing edge devices, in document order. */
  datatype ComponentSegment = ComponentSegment(symmetry: Symmetry, devices: seq<Device>)

  /**
   * The segment's own geometric queries (CCPACSWingSegment, not part of this
   * model): point membership, eta/xsi inversion, top-surface test and the
   * projected reference area.
   */
  datatype SegmentQueries = SegmentQueries(
    isOn: (Segment, Point) -> bool,
    etaXsi: (Segment, Point) -> (real, real),
    isOnTop: (Segment, Point) -> bool,
    referenceArea: (Segment, Symmetry) -> real)
}
