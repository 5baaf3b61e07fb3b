/**
 * The registration side of the dispatched geometry operations: one table
 * from (operation, kind) to the implementation registered for that exact
 * kind, filled by the registration calls at module load, and the resolution
 * of the "kind-specific default" interpolation argument.
 */
module Dispatch {
  import opened Features
  import Geometry

  /** The implementations the geometry module registers. */
  datatype Impl =
    | HorizontalFlipImageImpl | HorizontalFlipBoundingBoxImpl
    | ResizeImageImpl | ResizeSegmentationMaskImpl | ResizeBoundingBoxImpl
    | CenterCropImageImpl | ResizedCropImageImpl | AffineImageImpl | RotateImageImpl

  /**
   * A registration: the implementation, whether the dispatcher re-wraps its
   * raw output into the input's kind, and whether a PIL kernel is attached.
   */
  datatype Entry = Entry(impl: Impl, wrapOutput: bool, hasPilKernel: bool)

  type Table = map<(Op, Kind), Entry>

  /** An interpolation argument: the kind-specific-default sentinel or an explicit mode. */
  datatype InterpolationArg = FeatureSpecificDefault | Given(mode: InterpolationMode)

  /** The interpolation default an implementation declares, if it takes an interpolation at all. */
  function ImplInterpolationDefault(impl: Impl): Option<InterpolationMode> {
    match impl
    case ResizeImageImpl => Some(Geometry.ResizeImageDefaultInterpolation)
    case ResizeSegmentationMaskImpl => Some(Geometry.ResizeSegmentationMaskDefaultInterpolation)
    case _ => None
  }

  /** The interpolation default in each dispatched operation's own signature. */
  function DeclaredInterpolation(op: Op): Option<InterpolationArg> {
    match op
    case Resize => Some(FeatureSpecificDefault)
    case ResizedCrop => Some(Given(BILINEAR))
    case Affine => Some(Given(NEAREST))
    case Rotate => Some(Given(NEAREST))
    case HorizontalFlip => None
    case CenterCrop => None
  }

  /** Reference description of which kinds each operation supports. */
  function SupportedKinds(op: Op): set<Kind> {
    match op
    case HorizontalFlip => {Image, BoundingBox}
    case Resize => {Image, SegmentationMask, BoundingBox}
    case _ => {Image}
  }

  /** The table the registration calls produce. */
  function StandardTable(): Table {
    map[
      (HorizontalFlip, Image) := Entry(HorizontalFlipImageImpl, true, false),
      (HorizontalFlip, BoundingBox) := Entry(HorizontalFlipBoundingBoxImpl, true, false),
      (Resize, Image) := Entry(ResizeImageImpl, true, true),
      (Resize, SegmentationMask) := Entry(ResizeSegmentationMaskImpl, true, false),
      (Resize, BoundingBox) := Entry(ResizeBoundingBoxImpl, false, false),
      (CenterCrop, Image) := Entry(CenterCropImageImpl, true, false),
      (ResizedCrop, Image) := Entry(ResizedCropImageImpl, true, false),
      (Affine, Image) := Entry(AffineImageImpl, true, false),
      (Rotate, Image) := Entry(RotateImageImpl, true, false)
    ]
  }

  /** The dispatch tables of the geometry operations, keyed by exact kind. */
  class Registry {
    var table: Table

    constructor ()
      ensures table == map[]
    {
      table := map[];
    }

    /** Binds impl to (op, kind); a later registration of the same pair replaces it. */
    method Register(op: Op, kind: Kind, impl: Impl, wrapOutput: bool, hasPilKernel: bool)
      modifies this
      ensures table == old(table)[(op, kind) := Entry(impl, wrapOutput, hasPilKernel)]
    {
      table := table[(op, kind) := Entry(impl, wrapOutput, hasPilKernel)];
    }

    /** The implementation registered for exactly this kind; unregistered pairs fail. */
    function Lookup(op: Op, kind: Kind): (r: Result<Entry>)
      reads this
      ensures r.Ok? <==> (op, kind) in table
      ensures r.Ok? ==> r.value == table[(op, kind)]
      ensures r.Err? ==> r.error == UnsupportedKind(op, kind)
    {
      if (op, kind) in table then Ok(table[(op, kind)]) else Err(UnsupportedKind(op, kind))
    }

    /**
     * The interpolation an implementation is called with: an explicit mode
     * is passed through, and the sentinel becomes the registered
     * implementation's own default (none when it takes no interpolation).
     */
    function ResolveInterpolation(op: Op, kind: Kind, arg: InterpolationArg): (r: Result<Option<InterpolationMode>>)
      reads this
      ensures r.Err? <==> (op, kind) !in table
      ensures r.Err? ==> r.error == UnsupportedKind(op, kind)
      ensures r.Ok? && arg.Given? ==> r.value == Some(arg.mode)
      ensures r.Ok? && arg.FeatureSpecificDefault? ==> r.value == ImplInterpolationDefault(table[(op, kind)].impl)
    {
      match Lookup(op, kind)
      case Err(e) => Err(e)
      case Ok(entry) =>
        match arg
        case Given(mode) => Ok(Some(mode))
        case FeatureSpecificDefault => Ok(ImplInterpolationDefault(entry.impl))
    }
  }

  /** The module-load registrations, in the order the geometry module makes them. */
  method BuildRegistry() returns (r: Registry)
    ensures fresh(r)
    ensures r.table == StandardTable()
  {
    r := new Registry();
    r.Register(HorizontalFlip, Image, HorizontalFlipImageImpl, true, false);
    r.Register(HorizontalFlip, BoundingBox, HorizontalFlipBoundingBoxImpl, true, false);
    r.Register(Resize, Image, ResizeImageImpl, true, true);
    r.Register(Resize, SegmentationMask, ResizeSegmentationMaskImpl, true, false);
    r.Register(Resize, BoundingBox, ResizeBoundingBoxImpl, false, false);
    r.Register(CenterCrop, Image, CenterCropImageImpl, true, false);
    r.Register(ResizedCrop, Image, ResizedCropImageImpl, true, false);
    r.Register(Affine, Image, AffineImageImpl, true, false);
    r.Register(Rotate, Image, RotateImageImpl, true, false);
  }

  /** The registered pairs are exactly the supported ones. */
  lemma StandardTableSupports(op: Op, kind: Kind)
    ensures (op, kind) in StandardTable() <==> kind in SupportedKinds(op)
  {
  }

  /** On the standard registry a lookup fails exactly for the unsupported pairs. */
  lemma StandardLookup(r: Registry, op: Op, kind: Kind)
    requires r.table == StandardTable()
    ensures r.Lookup(op, kind).Err? <==> kind !in SupportedKinds(op)
    ensures r.Lookup(op, kind).Err? ==> r.Lookup(op, kind).error == UnsupportedKind(op, kind)
  {
    StandardTableSupports(op, kind);
  }

  /** rotate on a segmentation mask is unsupported; horizontal flip of one is too. */
  lemma UnsupportedExamples(r: Registry)
    requires r.table == StandardTable()
    ensures r.Lookup(Rotate, SegmentationMask) == Err(UnsupportedKind(Rotate, SegmentationMask))
    ensures r.Lookup(HorizontalFlip, SegmentationMask) == Err(UnsupportedKind(HorizontalFlip, SegmentationMask))
  {
  }

  /**
   * Every operation's declared interpolation default resolves, on the
   * standard registry, to BILINEAR for an image resize, NEAREST for a
   * segmentation-mask resize, nothing for a bounding-box resize, and the
   * signature's own mode for the image-only operations.
   */
  lemma StandardDefaultInterpolation(r: Registry, op: Op, kind: Kind)
    requires r.table == StandardTable()
    requires kind in SupportedKinds(op) && DeclaredInterpolation(op).Some?
    ensures r.ResolveInterpolation(op, kind, DeclaredInterpolation(op).value) == Ok(
      match (op, kind)
      case (Resize, Image) => Some(BILINEAR)
      case (Resize, SegmentationMask) => Some(NEAREST)
      case (Resize, BoundingBox) => None
      case (ResizedCrop, _) => Some(BILINEAR)
      case _ => Some(NEAREST))
  {
    StandardTableSupports(op, kind);
  }

  /** Only the bounding-box resize re-wraps its own output. */
  lemma OnlyBoundingBoxResizeWrapsItself(op: Op, kind: Kind)
    requires (op, kind) in StandardTable()
    ensures !StandardTable()[(op, kind)].wrapOutput <==> op == Resize && kind == BoundingBox
  {
  }

  /**
   * A resize that leaves interpolation at the kind-specific default reaches
   * the kernel with NEAREST for a segmentation mask and BILINEAR for an image.
   */
  lemma DefaultInterpolationReachesKernel(r: Registry, shape: seq<nat>, size: seq<int>, maxSize: Option<int>, antialias: Option<bool>)
    requires r.table == StandardTable()
    ensures var m := r.ResolveInterpolation(Resize, SegmentationMask, FeatureSpecificDefault);
      m == Ok(Some(NEAREST)) &&
      var call := Geometry.ResizeImageCall(shape, size, m.value.value, maxSize, antialias);
      call.Ok? ==> call.value.interpolation == NEAREST
    ensures var m := r.ResolveInterpolation(Resize, Image, FeatureSpecificDefault);
      m == Ok(Some(BILINEAR)) &&
      var call := Geometry.ResizeImageCall(shape, size, m.value.value, maxSize, antialias);
      call.Ok? ==> call.value.interpolation == BILINEAR
  {
  }
}
