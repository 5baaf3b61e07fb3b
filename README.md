# Geometry transforms of torchvision's prototype features, in Dafny

This project models the core of `torchvision/prototype/transforms/functional/_geometry.py`.
It covers five things:

- the arithmetic that horizontal flip and resize do on bounding-box coordinates;
- the shape bookkeeping that `resize_image` does around the external resampling kernel;
- the shape bookkeeping of `resize_segmentation_mask`, which delegates to `resize_image`;
- the dispatch table that the module's registration calls fill, keyed by (operation, feature kind);
- how the "feature-specific default" interpolation is resolved.

Modules, one file each:

- `features.dfy` (`Features`): the feature kinds (`Image`, `SegmentationMask`, `BoundingBox`), the six operations, the box formats, the interpolation modes, the error kinds and a `Result` type. A box is a 4-tuple of reals, so the tuple fields `.0`..`.3` are the tensor indices 0..3 of a box's last axis.
- `box_format.dfy` (`BoxFormat`): format conversion through the XYXY corner form. The per-format formulas live in `_meta_conversion`, which is not part of this model. So they are a parameter: a `Converter` holds, for each non-corner format, the map into corner form and the map back. The predicate `RoundTrips` is the only thing assumed about them: the two maps undo each other. XYXY boxes never go through the converter.
- `geometry.dfy` (`Geometry`):
  - horizontal flip of boxes. This is an imperative method over an `array` of boxes. It converts into a fresh corner-form copy, runs the swap-and-negate step in place on that copy, then converts back. It is proved equal to the specification function `FlipBatch`.
  - box resize, as pure functions on sequences.
  - the output shape of `resize_image`, for a kernel given only through the shape it returns.
- `dispatch.dfy` (`Dispatch`): a `Registry` class whose `table` map field is updated by `Register`. `BuildRegistry` makes the nine module-load registrations in source order. `Lookup` fails on an unregistered pair. `ResolveInterpolation` replaces the sentinel with the registered implementation's own default.

`horizontal_flip` is registered for `Image` and `BoundingBox` only (lines 20 and 33), so flipping a `SegmentationMask` fails as unsupported (see `Dispatch.UnsupportedExamples`).

Python's `int / int` is true division, so the resize ratios are `real` quotients. A zero old extent fails with the `ZeroDivision` error. A size list whose length is not 2 cannot be unpacked into `(height, width)`, so it fails with `SizeUnpack`.

## Model

| member | source | states |
|---|---|---|
| `BoxFormat.ConvertRoundTrip` | torchvision/prototype/transforms/functional/_geometry.py:26-30 | if the format conversions undo each other, converting from A to B and back to A returns the original box, for every pair of formats |
| `BoxFormat.ConvertComposes` | torchvision/prototype/transforms/functional/_geometry.py:26-30 | if the format conversions undo each other, converting A→M and then M→Z equals converting A→Z directly, for every intermediate format M; the flip's detour through corner form is one such case |
| `BoxFormat.ConvertBoundingBoxFormat` | torchvision/prototype/transforms/functional/_geometry.py:26-28 | the copying conversion returns a fresh array of the same length, with each box converted on its own; the input is left as it was |
| `Geometry.FlipMirrorsXInterval` | torchvision/prototype/transforms/functional/_geometry.py:29 | x is in the old box's x-interval exactly when W − x is in the flipped box's x-interval, with W the image width |
| `Geometry.FlipKeepsYAndWidth` | torchvision/prototype/transforms/functional/_geometry.py:29 | coordinates 1 and 3 (y1, y2) are unchanged, and the box width x2 − x1 is preserved |
| `Geometry.FlipXyxyInvolution` | torchvision/prototype/transforms/functional/_geometry.py:29 | the swap-and-negate step applied twice gives back the corner-form box, over the reals |
| `Geometry.FlipKeepsInsideImage` | torchvision/prototype/transforms/functional/_geometry.py:29 | 0 ≤ x1 ≤ x2 ≤ W and 0 ≤ y1 ≤ y2 ≤ H hold of a box exactly when they hold of its flip |
| `Geometry.FlipBoxOfCorners` | torchvision/prototype/transforms/functional/_geometry.py:26-30 | for XYXY boxes the whole flip is the swap-and-negate step, whatever the converter |
| `Geometry.FlipBoxInvolution` | torchvision/prototype/transforms/functional/_geometry.py:23-30 | with round-tripping conversions, flipping a box twice in any format gives it back, over the reals |
| `Geometry.FlipBatchInvolution` | torchvision/prototype/transforms/functional/_geometry.py:23-30 | with round-tripping conversions, flipping a batch twice gives the batch back, over the reals |
| `Geometry.FlipBatchIsPerBox` | torchvision/prototype/transforms/functional/_geometry.py:29 | replacing one input box changes only that box of the output (boxes are flipped independently) |
| `Geometry.FlipBatchConcat` | torchvision/prototype/transforms/functional/_geometry.py:29 | the flip of two concatenated batches is the concatenation of their flips |
| `Geometry.FlipExample` | torchvision/prototype/transforms/functional/_geometry.py:29 | box (10, 20, 30, 40) in an image of width 100 flips to (70, 20, 90, 40) |
| `Geometry.FlipXInPlace` | torchvision/prototype/transforms/functional/_geometry.py:29 | in place, each box's new coordinate 0 is W − old coordinate 2, its new coordinate 2 is W − old coordinate 0, and coordinates 1 and 3 are unchanged |
| `Geometry.HorizontalFlipBoundingBox` | torchvision/prototype/transforms/functional/_geometry.py:23-30 | returns a fresh array equal to `FlipBatch` of the input with W = image_size[1]; the input array is unchanged |
| `Geometry.HorizontalFlipBoundingBoxFeature` | torchvision/prototype/transforms/functional/_geometry.py:33-35 | the flipped feature is `FlipBatch` of the boxes and keeps the input's format and image size (the default re-wrap) |
| `Geometry.ResizeRatios` | torchvision/prototype/transforms/functional/_geometry.py:92-94 | succeeds exactly when both sizes unpack to (height, width) and the old extents are nonzero; the width ratio times the old width is the new width, and likewise for height; otherwise the error is SizeUnpack or ZeroDivision |
| `Geometry.ResizeBoundingBox` | torchvision/prototype/transforms/functional/_geometry.py:89-95 | fails exactly when the ratios fail, with the same error; on success the number of boxes is unchanged |
| `Geometry.ResizeScalesPerAxis` | torchvision/prototype/transforms/functional/_geometry.py:94-95 | new coordinates 0 and 2 times old_w equal the old ones times new_w; coordinates 1 and 3 do the same with the heights |
| `Geometry.ResizeToSameSizeIsIdentity` | torchvision/prototype/transforms/functional/_geometry.py:92-95 | resizing to the current size returns the boxes unchanged |
| `Geometry.ResizeRoundTrip` | torchvision/prototype/transforms/functional/_geometry.py:92-95 | resizing A→B→A over the reals returns the original boxes |
| `Geometry.ResizeExample` | torchvision/prototype/transforms/functional/_geometry.py:89-95 | box (20, 20, 40, 40) resized from 100×100 to 50×50 becomes (10, 10, 20, 20) |
| `Geometry.ResizeBoundingBoxFeature` | torchvision/prototype/transforms/functional/_geometry.py:98-101 | succeeds exactly when size has two entries and the old image size has no zero extent; the result keeps the format, carries image_size = the requested size, and holds the resized boxes |
| `Geometry.ResizeBoundingBoxIgnoresMaxSize` | torchvision/prototype/transforms/functional/_geometry.py:88-101 | interpolation, max_size and antialias have no effect on a bounding-box resize |
| `Geometry.ResizeBoundingBoxFeatureRoundTrip` | torchvision/prototype/transforms/functional/_geometry.py:98-101 | resizing a box feature to a size and back to its old image size restores the feature, metadata included |
| `Geometry.ResizeImageCall` | torchvision/prototype/transforms/functional/_geometry.py:58-66 | the kernel is called only when size has two entries, the rank is at least 3 and no (C, H, W) axis is 0; it gets a rank-4 shape with the same element count and the same (C, H, W), plus the caller's size, interpolation, max_size and antialias |
| `Geometry.CollapseFailsOnEmptyImage` | torchvision/prototype/transforms/functional/_geometry.py:58-62 | with a two-entry size and rank ≥ 3, collapsing the batch axes fails (ShapeMismatch) exactly when the (C, H, W) part holds no element |
| `Geometry.ResizeImage` | torchvision/prototype/transforms/functional/_geometry.py:51-67 | for any kernel, a successful result has shape batch_shape ++ [C, new_h, new_w], and success requires rank ≥ 3, two size entries and nonnegative sizes |
| `Geometry.ResizeImageSucceeds` | torchvision/prototype/transforms/functional/_geometry.py:58-67 | with a kernel that honours the requested size, every shape of rank ≥ 3 without a zero (C, H, W) axis resizes to batch_shape ++ [C, new_h, new_w] |
| `Geometry.ResizeImageExample` | torchvision/prototype/transforms/functional/_geometry.py:58-67 | shape (2, 3, 3, 32, 32) resized to [16, 16] gives shape (2, 3, 3, 16, 16) |
| `Geometry.ResizeSegmentationMask` | torchvision/prototype/transforms/functional/_geometry.py:73-82 | for any kernel, a successful mask resize has shape batch_shape ++ [C, new_h, new_w], with rank ≥ 3, two size entries and nonnegative sizes |
| `Dispatch.Registry.Register` | torchvision/prototype/transforms/functional/_geometry.py:19-20 | the table afterwards is the old table with (op, kind) bound to the new entry |
| `Dispatch.Registry.Lookup` | torchvision/prototype/transforms/functional/_geometry.py:13-16 | succeeds exactly for a registered (op, kind) pair, returning its entry, and otherwise fails with UnsupportedKind(op, kind) |
| `Dispatch.Registry.ResolveInterpolation` | torchvision/prototype/transforms/functional/_geometry.py:38-48 | fails for unregistered pairs; an explicit mode is passed through; the sentinel becomes the registered implementation's declared default |
| `Dispatch.BuildRegistry` | torchvision/prototype/transforms/functional/_geometry.py:19-171 | the nine registrations, made in source order, leave exactly the standard table |
| `Dispatch.StandardTableSupports` | torchvision/prototype/transforms/functional/_geometry.py:19-171 | the registered pairs are: Image and BoundingBox for horizontal_flip; Image, SegmentationMask and BoundingBox for resize; Image only for the other four operations |
| `Dispatch.StandardLookup` | torchvision/prototype/transforms/functional/_geometry.py:13-171 | on the standard registry, a lookup fails with UnsupportedKind exactly for the unsupported pairs |
| `Dispatch.UnsupportedExamples` | torchvision/prototype/transforms/functional/_geometry.py:20-33 | rotate and horizontal_flip on a SegmentationMask both fail as unsupported |
| `Dispatch.StandardDefaultInterpolation` | torchvision/prototype/transforms/functional/_geometry.py:43-160 | each operation's declared default resolves to: BILINEAR for an Image resize, NEAREST for a SegmentationMask resize, nothing for a BoundingBox resize, BILINEAR for resized_crop, NEAREST for affine and rotate |
| `Dispatch.DefaultInterpolationReachesKernel` | torchvision/prototype/transforms/functional/_geometry.py:43-85 | with interpolation left at the kind-specific default, the kernel is called with NEAREST for a SegmentationMask resize and BILINEAR for an Image resize |
| `Dispatch.OnlyBoundingBoxResizeWrapsItself` | torchvision/prototype/transforms/functional/_geometry.py:98 | among the registered entries, only (resize, BoundingBox) is registered without the dispatcher's output re-wrap |

## Left out

- The pixel kernels `_F.hflip`, `_F.resize`, `_F.center_crop`, `_F.resized_crop`, `_F.affine` and `_F.rotate`, and the PIL kernel attached to the Image resize, are external. Only their registration is modelled. The resampling kernel appears only as a function from its call to the shape it returns. So no image-level property is stated, such as the flip of an image being an involution.
- The formulas of `convert_bounding_box_format` are in `_meta_conversion`, which is not part of this model. They are a parameter with a round-trip hypothesis, and that hypothesis is stated for every box, not only for well-formed ones. An unrecognised format cannot arise, because the format type is closed.
- `BoxFormat.ConvertBoundingBoxFormat` always returns a fresh array. The original may hand back its input tensor when the formats are equal and no copy is requested. That aliasing is not modelled.
- The `dispatch` decorator's own code is not part of this model: its signature introspection, sentinel object and wrapping machinery. The model covers the resulting table, the failing lookup, the default resolution and the wrap flag. Registering the same pair twice is modelled as replacing the entry.
- The float32 tensor in which the ratios are built is idealised as exact `real` arithmetic.
- Box coordinates are exact reals too, while the original subtracts and multiplies on float tensors. So the flip involutions (`Geometry.FlipXyxyInvolution`, `Geometry.FlipBoxInvolution`, `Geometry.FlipBatchInvolution`) and the resize round trips (`Geometry.ResizeRoundTrip`, `Geometry.ResizeBoundingBoxFeatureRoundTrip`) hold exactly only under that assumption. In float32, 100 − (100 − 0.1) is not 0.1.
- Tensor memory semantics (views and strides) are not modelled. Only shapes and element counts are.
- In `Geometry.ResizeImage`, a negative requested size is an error at the final reshape. The case of −1, which the original's `reshape` would treat as an inferred axis, is not distinguished.
- The bounding-box resize does not honour `max_size`, as the source's TODO says. The model keeps that limitation: see `Geometry.ResizeBoundingBoxIgnoresMaxSize`.
- The legacy `resample` and `fillcolor` arguments of `affine` and `rotate` go straight to the external kernels. They are not modelled.
- The results of `center_crop`, `resized_crop`, `affine` and `rotate` are the external kernels' results. Only their registration for Image is modelled.
- `Geometry.ResizeSegmentationMask` delegates to `Geometry.ResizeImage` and has the same shape contract. Its NEAREST default is stated by `Dispatch.StandardDefaultInterpolation` and `Dispatch.DefaultInterpolationReachesKernel`.
