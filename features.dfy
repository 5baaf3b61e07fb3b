/**
 * The vocabulary shared by the geometry operations and their dispatcher:
 * the kinds of feature a transform can be applied to, the operation names,
 * the bounding-box coordinate formats, the interpolation modes, and the
 * error and result types every operation returns.
 */
module Features {

  /** The concrete runtime kinds a dispatched operation is looked up by. */
  datatype Kind = Image | SegmentationMask | BoundingBox

  /** The six dispatched geometry operations. */
  datatype Op = HorizontalFlip | Resize | CenterCrop | ResizedCrop | Affine | Rotate

  /**
   * Coordinate conventions of a bounding box. XYXY (min-x, min-y, max-x, max-y)
   * is the corner form every conversion goes through.
   */
  datatype BoundingBoxFormat = XYXY | XYWH | CXCYWH

  /** The interpolation modes of the resampling backend. */
  datatype InterpolationMode = NEAREST | BILINEAR | BICUBIC | BOX | HAMMING | LANCZOS

  /**
   * One bounding box: the trailing axis of size 4 of a box tensor. The tuple
   * positions .0 .. .3 are the tensor indices 0 .. 3; what they mean depends
   * on the box's format (in XYXY: x1, y1, x2, y2).
   */
  type Box = (real, real, real, real)

  /** An image size as (height, width), the order the features store it in. */
  type ImageSize = (int, int)

  /** A bounding-box feature: its boxes plus the format and image-size metadata. */
  datatype BoundingBoxFeature = BoundingBoxFeature(boxes: seq<Box>, format: BoundingBoxFormat, imageSize: ImageSize)

  datatype Option<T> = None | Some(value: T)

  /** The ways an operation can fail. */
  datatype Error =
    | UnsupportedKind(op: Op, kind: Kind)  // no implementation registered for (op, kind)
    | SizeUnpack                           // a size list does not hold exactly (height, width)
    | RankTooSmall                         // fewer than three trailing (C, H, W) axes
    | ZeroDivision                         // a ratio against a zero old extent
    | ShapeMismatch                        // a reshape that cannot be carried out
    | KernelFailure                        // the external resampling kernel refused its input

  datatype Result<T> = Ok(value: T) | Err(error: Error)
}
