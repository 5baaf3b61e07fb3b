/**
 * The per-kind geometry of horizontal flip and resize: coordinate arithmetic
 * for bounding boxes, and the shape bookkeeping around the external
 * resampling kernel for images and segmentation masks.
 */
module Geometry {
  import opened Features
  import opened BoxFormat

  // ---------------------------------------------------------------------------
  // Horizontal flip of bounding boxes
  // ---------------------------------------------------------------------------

  /**
   * The swap-and-negate step on one corner-form box: both x coordinates are
   * mirrored against the image width and trade places; y is not touched.
   */
  function FlipXyxy(b: Box, width: int): Box {
    (width as real - b.2, b.1, width as real - b.0, b.3)
  }

  /** A corner-form box lies inside an image of the given (height, width). */
  predicate InsideImage(b: Box, imageSize: ImageSize) {
    0.0 <= b.0 <= b.2 <= imageSize.1 as real && 0.0 <= b.1 <= b.3 <= imageSize.0 as real
  }

  /** The flip of one box in any format: to corners, swap-and-negate, back. */
  function FlipBox(c: Converter, format: BoundingBoxFormat, width: int, b: Box): Box {
    Convert(c, FlipXyxy(Convert(c, b, format, XYXY), width), XYXY, format)
  }

  /** The flip of a batch: every box is flipped on its own. */
  function FlipBatch(c: Converter, format: BoundingBoxFormat, width: int, boxes: seq<Box>): (r: seq<Box>)
    ensures |r| == |boxes|
  {
    seq(|boxes|, i requires 0 <= i < |boxes| => FlipBox(c, format, width, boxes[i]))
  }

  /** The x-interval of the flipped box is the mirror image of the original's. */
  lemma FlipMirrorsXInterval(b: Box, width: int, x: real)
    ensures b.0 <= x <= b.2 <==> FlipXyxy(b, width).0 <= width as real - x <= FlipXyxy(b, width).2
  {
  }

  /** The flip keeps both y coordinates and the box width. */
  lemma FlipKeepsYAndWidth(b: Box, width: int)
    ensures FlipXyxy(b, width).1 == b.1 && FlipXyxy(b, width).3 == b.3
    ensures FlipXyxy(b, width).2 - FlipXyxy(b, width).0 == b.2 - b.0
  {
  }

  /** Flipping a corner-form box twice gives the box back. */
  lemma FlipXyxyInvolution(b: Box, width: int)
    ensures FlipXyxy(FlipXyxy(b, width), width) == b
  {
  }

  /** A box lies inside the image exactly when its flip does. */
  lemma FlipKeepsInsideImage(b: Box, imageSize: ImageSize)
    ensures InsideImage(b, imageSize) <==> InsideImage(FlipXyxy(b, imageSize.1), imageSize)
  {
  }

  /** On corner-form boxes the flip is the swap-and-negate step, whatever the converter. */
  lemma FlipBoxOfCorners(c: Converter, width: int, b: Box)
    ensures FlipBox(c, XYXY, width, b) == FlipXyxy(b, width)
  {
  }

  /** Given a converter whose maps undo each other, the flip is an involution in every format. */
  lemma FlipBoxInvolution(c: Converter, format: BoundingBoxFormat, width: int, b: Box)
    requires RoundTrips(c)
    ensures FlipBox(c, format, width, FlipBox(c, format, width, b)) == b
  {
    var corners := Convert(c, b, format, XYXY);
    var flipped := FlipXyxy(corners, width);
    ConvertRoundTrip(c, flipped, XYXY, format);
    FlipXyxyInvolution(corners, width);
    ConvertRoundTrip(c, b, format, XYXY);
  }

  /** Flipping a batch twice gives the batch back. */
  lemma FlipBatchInvolution(c: Converter, format: BoundingBoxFormat, width: int, boxes: seq<Box>)
    requires RoundTrips(c)
    ensures FlipBatch(c, format, width, FlipBatch(c, format, width, boxes)) == boxes
  {
    var twice := FlipBatch(c, format, width, FlipBatch(c, format, width, boxes));
    forall i | 0 <= i < |boxes|
      ensures twice[i] == boxes[i]
    {
      FlipBoxInvolution(c, format, width, boxes[i]);
    }
  }

  /** Replacing one box of the input changes only that box of the output. */
  lemma FlipBatchIsPerBox(c: Converter, format: BoundingBoxFormat, width: int, boxes: seq<Box>, j: nat, b: Box)
    requires j < |boxes|
    ensures FlipBatch(c, format, width, boxes[j := b]) == FlipBatch(c, format, width, boxes)[j := FlipBox(c, format, width, b)]
  {
  }

  /** The flip of a concatenation is the concatenation of the flips. */
  lemma FlipBatchConcat(c: Converter, format: BoundingBoxFormat, width: int, s: seq<Box>, t: seq<Box>)
    ensures FlipBatch(c, format, width, s + t) == FlipBatch(c, format, width, s) + FlipBatch(c, format, width, t)
  {
  }

  /** The corner box (10, 20, 30, 40) in an image of width 100 flips to (70, 20, 90, 40). */
  lemma FlipExample(c: Converter)
    ensures FlipBatch(c, XYXY, 100, [(10.0, 20.0, 30.0, 40.0)]) == [(70.0, 20.0, 90.0, 40.0)]
  {
  }

  /**
   * The swap-and-negate step, in place on a corner-form buffer: indices 0 and
   * 2 of every box are assigned together from indices 2 and 0; 1 and 3 stay.
   */
  method FlipXInPlace(corners: array<Box>, width: int)
    modifies corners
    ensures forall k :: 0 <= k < corners.Length ==>
      corners[k].0 == width as real - old(corners[k]).2 && corners[k].2 == width as real - old(corners[k]).0 &&
      corners[k].1 == old(corners[k]).1 && corners[k].3 == old(corners[k]).3
  {
    for i := 0 to corners.Length
      invariant forall k :: 0 <= k < i ==> corners[k] == FlipXyxy(old(corners[k]), width)
      invariant forall k :: i <= k < corners.Length ==> corners[k] == old(corners[k])
    {
      var b := corners[i];
      corners[i] := (width as real - b.2, b.1, width as real - b.0, b.3);
    }
  }

  /**
   * Horizontal flip of a batch of boxes in the given format: convert to
   * corners on a fresh copy, swap-and-negate that copy in place against the
   * image width imageSize.1, and convert back. The input array is not changed.
   */
  method HorizontalFlipBoundingBox(c: Converter, boxes: array<Box>, format: BoundingBoxFormat, imageSize: ImageSize)
    returns (flipped: array<Box>)
    ensures fresh(flipped)
    ensures boxes[..] == old(boxes[..])
    ensures flipped[..] == FlipBatch(c, format, imageSize.1, boxes[..])
  {
    var corners := ConvertBoundingBoxFormat(c, boxes, format, XYXY);
    FlipXInPlace(corners, imageSize.1);
    flipped := ConvertBoundingBoxFormat(c, corners, XYXY, format);
    assert forall k :: 0 <= k < flipped.Length ==> flipped[k] == FlipBox(c, format, imageSize.1, boxes[k]);
  }

  /**
   * The BoundingBox implementation of horizontal_flip, with the dispatcher's
   * default re-wrapping: the flipped boxes keep the input's format and image size.
   */
  method HorizontalFlipBoundingBoxFeature(c: Converter, input: BoundingBoxFeature) returns (output: BoundingBoxFeature)
    ensures output.format == input.format && output.imageSize == input.imageSize
    ensures output.boxes == FlipBatch(c, input.format, input.imageSize.1, input.boxes)
  {
    var boxes := new Box[|input.boxes|](i requires 0 <= i < |input.boxes| => input.boxes[i]);
    assert boxes[..] == input.boxes;
    var flipped := HorizontalFlipBoundingBox(c, boxes, input.format, input.imageSize);
    output := BoundingBoxFeature(flipped[..], input.format, input.imageSize);
  }

  // ---------------------------------------------------------------------------
  // Resize of bounding boxes
  // ---------------------------------------------------------------------------

  /**
   * The (width, height) scale factors between two sizes given as (height, width)
   * lists. Unpacking fails on a list of any other length, and the true division
   * fails on a zero old extent.
   */
  function ResizeRatios(oldImageSize: seq<int>, newImageSize: seq<int>): (r: Result<(real, real)>)
    ensures r.Ok? <==> |oldImageSize| == 2 && |newImageSize| == 2 && oldImageSize[0] != 0 && oldImageSize[1] != 0
    ensures r.Err? ==> r.error == if |oldImageSize| != 2 || |newImageSize| != 2 then SizeUnpack else ZeroDivision
    ensures r.Ok? ==> r.value.0 * oldImageSize[1] as real == newImageSize[1] as real
    ensures r.Ok? ==> r.value.1 * oldImageSize[0] as real == newImageSize[0] as real
  {
    if |oldImageSize| != 2 || |newImageSize| != 2 then Err(SizeUnpack)
    else
      var oldHeight, oldWidth := oldImageSize[0], oldImageSize[1];
      var newHeight, newWidth := newImageSize[0], newImageSize[1];
      if oldWidth == 0 || oldHeight == 0 then Err(ZeroDivision)
      else Ok((newWidth as real / oldWidth as real, newHeight as real / oldHeight as real))
  }

  /** Scales one box seen as two (x, y) points: x by xRatio, y by yRatio. */
  function ScaleBox(b: Box, xRatio: real, yRatio: real): Box {
    (b.0 * xRatio, b.1 * yRatio, b.2 * xRatio, b.3 * yRatio)
  }

  /** Rescales every box from oldImageSize to newImageSize; the number of boxes is kept. */
  function ResizeBoundingBox(boxes: seq<Box>, oldImageSize: seq<int>, newImageSize: seq<int>): (r: Result<seq<Box>>)
    ensures r.Ok? <==> ResizeRatios(oldImageSize, newImageSize).Ok?
    ensures r.Err? ==> r.error == ResizeRatios(oldImageSize, newImageSize).error
    ensures r.Ok? ==> |r.value| == |boxes|
  {
    match ResizeRatios(oldImageSize, newImageSize)
    case Err(e) => Err(e)
    case Ok(ratios) => Ok(seq(|boxes|, i requires 0 <= i < |boxes| => ScaleBox(boxes[i], ratios.0, ratios.1)))
  }

  /**
   * Coordinates 0 and 2 scale with the width and 1 and 3 with the height:
   * each new coordinate times the old extent is the old coordinate times the new extent.
   */
  lemma ResizeScalesPerAxis(boxes: seq<Box>, oldImageSize: seq<int>, newImageSize: seq<int>, i: nat)
    requires ResizeBoundingBox(boxes, oldImageSize, newImageSize).Ok?
    requires i < |boxes|
    ensures var b, r, ow, oh, nw, nh := boxes[i], ResizeBoundingBox(boxes, oldImageSize, newImageSize).value[i],
              oldImageSize[1] as real, oldImageSize[0] as real, newImageSize[1] as real, newImageSize[0] as real;
            r.0 * ow == b.0 * nw && r.2 * ow == b.2 * nw && r.1 * oh == b.1 * nh && r.3 * oh == b.3 * nh
  {
    var ratios := ResizeRatios(oldImageSize, newImageSize).value;
    var b := boxes[i];
    var ow, oh := oldImageSize[1] as real, oldImageSize[0] as real;
    assert b.0 * ratios.0 * ow == b.0 * (ratios.0 * ow);
    assert b.2 * ratios.0 * ow == b.2 * (ratios.0 * ow);
    assert b.1 * ratios.1 * oh == b.1 * (ratios.1 * oh);
    assert b.3 * ratios.1 * oh == b.3 * (ratios.1 * oh);
  }

  /** Resizing to the size the boxes already have leaves them as they are. */
  lemma ResizeToSameSizeIsIdentity(boxes: seq<Box>, imageSize: seq<int>)
    requires |imageSize| == 2 && imageSize[0] != 0 && imageSize[1] != 0
    ensures ResizeBoundingBox(boxes, imageSize, imageSize) == Ok(boxes)
  {
    var r := ResizeBoundingBox(boxes, imageSize, imageSize).value;
    var ratios := ResizeRatios(imageSize, imageSize).value;
    UnitRatio(ratios.0, imageSize[1] as real);
    UnitRatio(ratios.1, imageSize[0] as real);
    assert forall i | 0 <= i < |boxes| :: r[i] == ScaleBox(boxes[i], 1.0, 1.0) == boxes[i];
    assert r == boxes;
  }

  /** A ratio that maps a nonzero extent to itself is 1. */
  lemma UnitRatio(ratio: real, extent: real)
    requires extent != 0.0 && ratio * extent == extent
    ensures ratio == 1.0
  {
    assert (ratio - 1.0) * extent == 0.0;
  }

  /** Resizing from a to z and back from z to a returns the original boxes. */
  lemma ResizeRoundTrip(boxes: seq<Box>, a: seq<int>, z: seq<int>)
    requires |a| == 2 && a[0] != 0 && a[1] != 0
    requires |z| == 2 && z[0] != 0 && z[1] != 0
    ensures ResizeBoundingBox(boxes, a, z).Ok?
    ensures ResizeBoundingBox(ResizeBoundingBox(boxes, a, z).value, z, a) == Ok(boxes)
  {
    var there := ResizeBoundingBox(boxes, a, z).value;
    var back := ResizeBoundingBox(there, z, a).value;
    forall i | 0 <= i < |boxes|
      ensures back[i] == boxes[i]
    {
      ResizeScalesPerAxis(boxes, a, z, i);
      ResizeScalesPerAxis(there, z, a, i);
      CrossMultipliedRoundTrip(boxes[i].0, there[i].0, back[i].0, a[1] as real, z[1] as real);
      CrossMultipliedRoundTrip(boxes[i].2, there[i].2, back[i].2, a[1] as real, z[1] as real);
      CrossMultipliedRoundTrip(boxes[i].1, there[i].1, back[i].1, a[0] as real, z[0] as real);
      CrossMultipliedRoundTrip(boxes[i].3, there[i].3, back[i].3, a[0] as real, z[0] as real);
    }
    assert back == boxes;
  }

  /** If y scales x from extent p to q and w scales y from q back to p, then w is x. */
  lemma CrossMultipliedRoundTrip(x: real, y: real, w: real, p: real, q: real)
    requires p != 0.0 && q != 0.0
    requires y * p == x * q && w * q == y * p
    ensures w == x
  {
    assert w * q == x * q;
  }

  /** The box (20, 20, 40, 40) in a 100 x 100 image resized to 50 x 50 becomes (10, 10, 20, 20). */
  lemma ResizeExample()
    ensures ResizeBoundingBox([(20.0, 20.0, 40.0, 40.0)], [100, 100], [50, 50]) == Ok([(10.0, 10.0, 20.0, 20.0)])
  {
    assert ResizeRatios([100, 100], [50, 50]) == Ok((0.5, 0.5));
    var r := ResizeBoundingBox([(20.0, 20.0, 40.0, 40.0)], [100, 100], [50, 50]).value;
    assert r[0] == ScaleBox((20.0, 20.0, 40.0, 40.0), 0.5, 0.5) == (10.0, 10.0, 20.0, 20.0);
    assert r == [(10.0, 10.0, 20.0, 20.0)];
  }

  /**
   * The BoundingBox implementation of resize. It re-wraps its result itself,
   * keeping the input's format and attaching the requested size as the new
   * image size. Interpolation, max_size and antialias are accepted and ignored.
   */
  function ResizeBoundingBoxFeature(input: BoundingBoxFeature, size: seq<int>, interpolation: Option<InterpolationMode>,
                                    maxSize: Option<int>, antialias: Option<bool>)
    : (r: Result<BoundingBoxFeature>)
    ensures r.Ok? <==> |size| == 2 && input.imageSize.0 != 0 && input.imageSize.1 != 0
    ensures r.Ok? ==> r.value.format == input.format && r.value.imageSize == (size[0], size[1])
    ensures r.Ok? ==> r.value.boxes == ResizeBoundingBox(input.boxes, [input.imageSize.0, input.imageSize.1], size).value
  {
    match ResizeBoundingBox(input.boxes, [input.imageSize.0, input.imageSize.1], size)
    case Err(e) => Err(e)
    case Ok(boxes) => Ok(BoundingBoxFeature(boxes, input.format, (size[0], size[1])))
  }

  /** Interpolation, max_size and antialias have no effect on the resized boxes. */
  lemma ResizeBoundingBoxIgnoresMaxSize(input: BoundingBoxFeature, size: seq<int>,
                                        i: Option<InterpolationMode>, j: Option<InterpolationMode>,
                                        m: Option<int>, n: Option<int>, a: Option<bool>, e: Option<bool>)
    ensures ResizeBoundingBoxFeature(input, size, i, m, a) == ResizeBoundingBoxFeature(input, size, j, n, e)
  {
  }

  /** Resizing a bounding-box feature and then back to its old image size restores it, metadata included. */
  lemma ResizeBoundingBoxFeatureRoundTrip(input: BoundingBoxFeature, size: seq<int>)
    requires input.imageSize.0 != 0 && input.imageSize.1 != 0
    requires |size| == 2 && size[0] != 0 && size[1] != 0
    ensures ResizeBoundingBoxFeature(input, size, None, None, None).Ok?
    ensures ResizeBoundingBoxFeature(ResizeBoundingBoxFeature(input, size, None, None, None).value,
                                     [input.imageSize.0, input.imageSize.1], None, None, None) == Ok(input)
  {
    var original := [input.imageSize.0, input.imageSize.1];
    ResizeRoundTrip(input.boxes, original, size);
    var mid := ResizeBoundingBoxFeature(input, size, None, None, None).value;
    assert [mid.imageSize.0, mid.imageSize.1] == size;
  }

  // ---------------------------------------------------------------------------
  // Resize of images and segmentation masks: shape bookkeeping
  // ---------------------------------------------------------------------------

  /** The default interpolation of the Image and SegmentationMask implementations. */
  const ResizeImageDefaultInterpolation: InterpolationMode := BILINEAR
  const ResizeSegmentationMaskDefaultInterpolation: InterpolationMode := NEAREST

  /** The number of elements of a tensor of the given shape. */
  function Prod(shape: seq<nat>): nat {
    if shape == [] then 1 else shape[0] * Prod(shape[1..])
  }

  lemma {:induction false} ProdAppend(s: seq<nat>, t: seq<nat>)
    ensures Prod(s + t) == Prod(s) * Prod(t)
  {
    if s == [] {
      assert s + t == t;
    } else {
      assert (s + t)[1..] == s[1..] + t;
      ProdAppend(s[1..], t);
    }
  }

  /** A shape holds no element exactly when one of its axes is 0. */
  lemma {:induction false} ProdZero(s: seq<nat>)
    ensures Prod(s) == 0 <==> 0 in s
  {
    if s != [] {
      ProdZero(s[1..]);
      assert 0 in s <==> s[0] == 0 || 0 in s[1..];
    }
  }

  /** The leading batch axes of an image-like shape. */
  function BatchShape(shape: seq<nat>): seq<nat>
    requires |shape| >= 3
  {
    shape[..|shape| - 3]
  }

  /** The trailing (C, H, W) axes of an image-like shape. */
  function ImageAxes(shape: seq<nat>): seq<nat>
    requires |shape| >= 3
  {
    shape[|shape| - 3..]
  }

  /** An image-like shape is its batch axes followed by its (C, H, W) axes. */
  lemma ProdSplit(shape: seq<nat>)
    requires |shape| >= 3
    ensures Prod(shape) == Prod(BatchShape(shape)) * Prod(ImageAxes(shape))
  {
    assert BatchShape(shape) + ImageAxes(shape) == shape;
    ProdAppend(BatchShape(shape), ImageAxes(shape));
  }

  /** One invocation of the external resampling kernel on a (N, C, H, W) tensor. */
  datatype KernelCall = KernelCall(shape: seq<nat>, size: seq<int>, interpolation: InterpolationMode,
                                   maxSize: Option<int>, antialias: Option<bool>)

  /** The kernel, seen only through the shape it returns (or its refusal). */
  type ResizeKernel = KernelCall -> Result<seq<nat>>

  /** The kernel returns (N, C) followed by the requested (height, width). */
  ghost predicate HonoursSize(kernel: ResizeKernel) {
    forall call: KernelCall :: |call.shape| == 4 && |call.size| == 2 && call.size[0] >= 0 && call.size[1] >= 0 ==>
      kernel(call) == Ok([call.shape[0], call.shape[1], call.size[0] as nat, call.size[1] as nat])
  }

  /**
   * How resize_image calls the kernel: it unpacks (new_height, new_width) from
   * size and (C, H, W) from the last three axes, then collapses every leading
   * axis into one. The collapse fails when C, H or W is 0, since the length
   * of the collapsed axis would then be ambiguous.
   */
  function ResizeImageCall(shape: seq<nat>, size: seq<int>, interpolation: InterpolationMode,
                           maxSize: Option<int>, antialias: Option<bool>): (r: Result<KernelCall>)
    ensures r.Ok? <==> |size| == 2 && |shape| >= 3 && 0 !in ImageAxes(shape)
    ensures r.Ok? ==> |r.value.shape| == 4 && r.value.shape[1..] == ImageAxes(shape)
    ensures r.Ok? ==> Prod(r.value.shape) == Prod(shape)
    ensures r.Ok? ==> r.value.size == size && r.value.interpolation == interpolation
    ensures r.Ok? ==> r.value.maxSize == maxSize && r.value.antialias == antialias
  {
    if |size| != 2 then Err(SizeUnpack)
    else if |shape| < 3 then Err(RankTooSmall)
    else if 0 in ImageAxes(shape) then Err(ShapeMismatch)
    else
      var collapsed := [Prod(BatchShape(shape))] + ImageAxes(shape);
      assert Prod(collapsed) == Prod(shape) by {
        ProdSplit(shape);
        ProdAppend([Prod(BatchShape(shape))], ImageAxes(shape));
      }
      Ok(KernelCall(collapsed, size, interpolation, maxSize, antialias))
  }

  /**
   * Once size and rank are acceptable, the collapse of the batch axes fails
   * exactly when the (C, H, W) part of the image holds no element.
   */
  lemma CollapseFailsOnEmptyImage(shape: seq<nat>, size: seq<int>, interpolation: InterpolationMode,
                                  maxSize: Option<int>, antialias: Option<bool>)
    requires |size| == 2 && |shape| >= 3
    ensures ResizeImageCall(shape, size, interpolation, maxSize, antialias).Err? <==> Prod(ImageAxes(shape)) == 0
    ensures ResizeImageCall(shape, size, interpolation, maxSize, antialias).Err? ==>
              ResizeImageCall(shape, size, interpolation, maxSize, antialias).error == ShapeMismatch
  {
    ProdZero(ImageAxes(shape));
  }

  /**
   * The output shape of resize_image: the kernel's output is reshaped to the
   * batch axes followed by (C, new_height, new_width), which fails unless the
   * kernel produced exactly that many elements.
   */
  function ResizeImage(kernel: ResizeKernel, shape: seq<nat>, size: seq<int>, interpolation: InterpolationMode,
                       maxSize: Option<int>, antialias: Option<bool>): (r: Result<seq<nat>>)
    ensures r.Ok? ==> |shape| >= 3 && |size| == 2 && size[0] >= 0 && size[1] >= 0
    ensures r.Ok? ==> r.value == BatchShape(shape) + [shape[|shape| - 3], size[0] as nat, size[1] as nat]
  {
    match ResizeImageCall(shape, size, interpolation, maxSize, antialias)
    case Err(e) => Err(e)
    case Ok(call) =>
      match kernel(call)
      case Err(e) => Err(e)
      case Ok(resized) =>
        if size[0] < 0 || size[1] < 0 then Err(ShapeMismatch)
        else
          var target := BatchShape(shape) + [shape[|shape| - 3], size[0] as nat, size[1] as nat];
          if Prod(resized) != Prod(target) then Err(ShapeMismatch) else Ok(target)
  }

  /** With a kernel that honours the requested size, resize_image succeeds on every image shape with no empty axis. */
  lemma ResizeImageSucceeds(kernel: ResizeKernel, shape: seq<nat>, size: seq<int>, interpolation: InterpolationMode,
                            maxSize: Option<int>, antialias: Option<bool>)
    requires HonoursSize(kernel)
    requires |shape| >= 3 && 0 !in ImageAxes(shape)
    requires |size| == 2 && size[0] >= 0 && size[1] >= 0
    ensures ResizeImage(kernel, shape, size, interpolation, maxSize, antialias)
         == Ok(BatchShape(shape) + [shape[|shape| - 3], size[0] as nat, size[1] as nat])
  {
    var call := ResizeImageCall(shape, size, interpolation, maxSize, antialias).value;
    var tail := [shape[|shape| - 3], size[0] as nat, size[1] as nat];
    var resized := [call.shape[0]] + tail;
    assert call.shape[1] == call.shape[1..][0] == ImageAxes(shape)[0] == shape[|shape| - 3];
    assert call.size == size;
    assert resized == [call.shape[0], call.shape[1], call.size[0] as nat, call.size[1] as nat];
    assert kernel(call) == Ok(resized);
    assert call.shape[0] == Prod(BatchShape(shape));
    ProdAppend([call.shape[0]], tail);
    ProdAppend(BatchShape(shape), tail);
  }

  /**
   * A batch of shape (2, 3, 3, 32, 32) resized to [16, 16] has shape
   * (2, 3, 3, 16, 16), for any kernel that honours the requested size.
   */
  lemma ResizeImageExample(kernel: ResizeKernel)
    requires HonoursSize(kernel)
    ensures ResizeImage(kernel, [2, 3, 3, 32, 32], [16, 16], BILINEAR, None, None) == Ok([2, 3, 3, 16, 16])
  {
    assert ImageAxes([2, 3, 3, 32, 32]) == [3, 32, 32];
    assert BatchShape([2, 3, 3, 32, 32]) == [2, 3];
    ResizeImageSucceeds(kernel, [2, 3, 3, 32, 32], [16, 16], BILINEAR, None, None);
    assert [2, 3] + [3, 16, 16] == [2, 3, 3, 16, 16];
  }

  /** resize_segmentation_mask is resize_image; only its default interpolation (NEAREST) differs. */
  function ResizeSegmentationMask(kernel: ResizeKernel, shape: seq<nat>, size: seq<int>, interpolation: InterpolationMode,
                                  maxSize: Option<int>, antialias: Option<bool>): (r: Result<seq<nat>>)
    ensures r.Ok? ==> |shape| >= 3 && |size| == 2 && size[0] >= 0 && size[1] >= 0
    ensures r.Ok? ==> r.value == BatchShape(shape) + [shape[|shape| - 3], size[0] as nat, size[1] as nat]
  {
    ResizeImage(kernel, shape, size, interpolation, maxSize, antialias)
  }
}
