# LightEdit editor core in Dafny

A verified model of the core of LightEdit, an Android photo editor written in
Kotlin. The model covers:

- the zoomable image view that displays the photo being edited: fit-centre
  on load, pinch zoom clamped to 0.5..2 times the fit scale, a drag that may
  pull the picture up to 80 px past the view edge, a settle animation back
  into hard bounds, and the crop extraction through the inverse display
  matrix;
- the crop overlay: the initial crop rectangle, handle hit tests, free and
  fixed-ratio corner resizing with a 60 dp minimum, dragging the rectangle,
  and changes of aspect ratio;
- the text overlay and the sticker overlay: element lists in z-order, the
  selection, hit tests against the drawn bounds and the corner buttons,
  drag / pinch / rotate gestures, layer moves, and snapshot / restore for
  the cancel buttons;
- the editor screen: its mode machine (normal, crop, rotate, adjust, text),
  the bitmaps it holds and recycles, the brightness/contrast pixel formula
  and sliders, the text tool, and the watermark position on export;
- the thumbnail loader: the power-of-two sample size and the centred square
  crop;
- the album repository: folders grouped by bucket and sorted by name, and
  the photos of one bucket.

One Dafny module per file:

| file | module | models |
|---|---|---|
| geometry.dfy | Geometry | shared rectangles, clamping, numeric conversions, the topmost-hit search |
| zoomable.dfy | Zoomable | `ZoomableImageView` |
| crop.dfy | Crop | `CropOverlayView` |
| text_overlay.dfy | TextOverlay | `TextOverlayView` and `TextElement` |
| sticker_overlay.dfy | StickerOverlay | `StickerOverlayView` and `StickerElement` |
| editor.dfy | Editor | `EditorFragment` |
| strings.dfy | Strings | Kotlin's `String.trim()`, which the text confirmation applies |
| thumbnail.dfy | Thumbnail | `ThumbnailLoader` |
| album.dfy | Album | `MediaStoreAlbumRepository` |

The source's views each become a `class` whose methods update fields under
`modifies` clauses and keep a `Valid()` invariant. Their arithmetic becomes
functions with lemmas. Loops in the source stay loops with invariants. The
float-valued views are modelled over `real` without rounding. Platform
calls whose results the model cannot compute are parameters: `hypot`,
`atan2`, text measurement, matrix `mapPoints`, bitmap rotate / flip / crop.

## Model

| member | source | states |
|---|---|---|
| Geometry.Rect.Offset | app/src/main/java/com/owenzx/lightedit/ui/editor/crop/CropOverlayView.kt:413 | moving a rectangle keeps its width and height |
| Geometry.FindPointerIndex | app/src/main/java/com/owenzx/lightedit/ui/editor/sticker/StickerOverlayView.kt:482 | the index of the first pointer with the id, or -1 exactly when no pointer has it |
| Geometry.ScaleByDistance | app/src/main/java/com/owenzx/lightedit/ui/editor/text/TextOverlayView.kt:570-575 | a pinch scale always lies in the clamp range, and an unchanged finger distance keeps an in-range scale |
| Geometry.DraggedFollowsFinger | app/src/main/java/com/owenzx/lightedit/ui/editor/sticker/StickerOverlayView.kt:482-492 | after any sequence of move events the dragged centre has moved exactly as far as the finger from its last recorded position |
| Geometry.Corners | app/src/main/java/com/owenzx/lightedit/ui/editor/sticker/StickerOverlayView.kt:241-248 | the corner list holds eight coordinates, two per corner |
| Geometry.CornersInClockwiseOrder | app/src/main/java/com/owenzx/lightedit/ui/editor/sticker/StickerOverlayView.kt:241-248 | coordinates 0-1, 2-3, 4-5 and 6-7 are the mapped top-left, top-right, bottom-right and bottom-left corners |
| Geometry.Intersect | app/src/main/java/com/owenzx/lightedit/ui/editor/view/ZoomableImageView.kt:432-438 | the intersection fails exactly when the rectangles do not overlap with positive area; otherwise it lies inside both, and is non-empty when both are |
| Geometry.Clamp | app/src/main/java/com/owenzx/lightedit/ui/editor/view/ZoomableImageView.kt:68 | `coerceIn` returns a value in range, equal to the input when it is in range and to the nearer end otherwise |
| Geometry.ClampInt | app/src/main/java/com/owenzx/lightedit/ui/editor/text/TextOverlayView.kt:299 | the same for `Int.coerceIn` |
| Geometry.Trunc | app/src/main/java/com/owenzx/lightedit/ui/editor/view/ZoomableImageView.kt:454-457 | `Float.toInt()` rounds toward zero: within one unit of the input, on the input's side of zero |
| Geometry.Rem360 | app/src/main/java/com/owenzx/lightedit/ui/editor/sticker/StickerOverlayView.kt:519 | Kotlin's `% 360f` keeps the dividend's sign, stays strictly within (-360, 360), leaves an angle in that range as it is, and differs from its input by whole turns |
| Geometry.WholeTurnsCombine | app/src/main/java/com/owenzx/lightedit/ui/editor/text/TextOverlayView.kt:581 | whole-turn differences are closed under sum and difference, which is what lets a double remainder keep an angle's direction |
| Geometry.RemoveAt | app/src/main/java/com/owenzx/lightedit/ui/editor/sticker/StickerOverlayView.kt:146 | `removeAt(i)`: one element shorter, the prefix kept, the suffix shifted down, the removed element accounted for in the multiset |
| Geometry.InsertAt | app/src/main/java/com/owenzx/lightedit/ui/editor/sticker/StickerOverlayView.kt:157 | `add(i, x)`: x at i, the prefix kept, the suffix shifted up, the multiset grows by x |
| Geometry.TopmostContainingSpec | app/src/main/java/com/owenzx/lightedit/ui/editor/sticker/StickerOverlayView.kt:345-350 | the hit test returns the highest index whose rectangle contains the point, and -1 exactly when none does |
| Geometry.FindTopmost | app/src/main/java/com/owenzx/lightedit/ui/editor/text/TextOverlayView.kt:210-218 | the reverse index loop returns the topmost containing index, or -1 exactly when no rectangle contains the point |
| Geometry.BoxOfFourPoints | app/src/main/java/com/owenzx/lightedit/ui/editor/sticker/StickerOverlayView.kt:251-255 | the nested min/max box contains all four points and each of its edges is attained by one of them |
| Zoomable.Affine.PostScale | app/src/main/java/com/owenzx/lightedit/ui/editor/view/ZoomableImageView.kt:73-78 | `postScale(f, f, px, py)` multiplies the scale by f and keeps the focus point fixed |
| Zoomable.Affine.PostTranslate | app/src/main/java/com/owenzx/lightedit/ui/editor/view/ZoomableImageView.kt:204 | `postTranslate(dx, dy)` keeps the scale and shifts the offsets by (dx, dy) |
| Zoomable.HardDelta | app/src/main/java/com/owenzx/lightedit/ui/editor/view/ZoomableImageView.kt:315-325 | the hard correction of one axis leaves small content centred and large content covering the view, and is zero exactly when the axis already is |
| Zoomable.SoftDelta | app/src/main/java/com/owenzx/lightedit/ui/editor/view/ZoomableImageView.kt:250-267 | the soft correction of one axis leaves small content's centre within 80 px of the view centre and large content with gaps of at most 80 px, and is zero exactly when the axis already obeys this |
| Zoomable.HardBoundsOf | app/src/main/java/com/owenzx/lightedit/ui/editor/view/ZoomableImageView.kt:293-343 | `applyHardBounds` keeps the scale, leaves both axes hard-bounded, and changes nothing exactly when they already were |
| Zoomable.SoftBoundsOf | app/src/main/java/com/owenzx/lightedit/ui/editor/view/ZoomableImageView.kt:229-290 | `applySoftBounds` keeps the scale, leaves both axes within the overscroll allowance, and changes nothing exactly when they already were |
| Zoomable.CenteredIsHardPlaced | app/src/main/java/com/owenzx/lightedit/ui/editor/view/ZoomableImageView.kt:160-165 | content centred by the initial fit needs no hard correction |
| Zoomable.HardDeltaIdempotent | app/src/main/java/com/owenzx/lightedit/ui/editor/view/ZoomableImageView.kt:315-336 | a second hard correction right after the first is zero |
| Zoomable.HardPlacedIsSoftPlaced | app/src/main/java/com/owenzx/lightedit/ui/editor/view/ZoomableImageView.kt:250-283 | content that hard bounds accept is never moved by soft bounds |
| Zoomable.SettleTelescopes | app/src/main/java/com/owenzx/lightedit/ui/editor/view/ZoomableImageView.kt:397-408 | the per-frame steps `target * (fraction - lastFraction)` add up to target times the growth of the fraction |
| Zoomable.SettleLands | app/src/main/java/com/owenzx/lightedit/ui/editor/view/ZoomableImageView.kt:364-411 | an animation whose last fraction is 1 moves by exactly the hard correction, after which the content needs none |
| Zoomable.ToPixels | app/src/main/java/com/owenzx/lightedit/ui/editor/view/ZoomableImageView.kt:449-467 | the clamped, truncated crop is refused exactly when its origin lies outside the bitmap; otherwise it is a non-empty region inside the bitmap starting at the truncated clamped origin |
| Zoomable.InverseMapRect | app/src/main/java/com/owenzx/lightedit/ui/editor/view/ZoomableImageView.kt:440-446 | a view rectangle that starts left of and above the mapped image's far edges maps back to one that starts inside the bitmap's extent |
| Zoomable.GetCroppedBitmap | app/src/main/java/com/owenzx/lightedit/ui/editor/view/ZoomableImageView.kt:416-470 | the crop is absent exactly when there is no bitmap, it has no area, or the crop rectangle misses the displayed image; otherwise it is a non-empty region inside the bitmap |
| Zoomable.ZoomableImageView.constructor | app/src/main/java/com/owenzx/lightedit/ui/editor/view/ZoomableImageView.kt:23-57 | a fresh view has the identity matrix, user scale 1, no drawable, no fit yet, no drag, no animator, and is valid |
| Zoomable.ZoomableImageView.OnSizeChanged | app/src/main/java/com/owenzx/lightedit/ui/editor/view/ZoomableImageView.kt:94-99 | the new size is recorded and the initial fit runs at it: with a laid-out view, a sized image and no fit yet, the fit-centre scale centred in the view, user scale 1, no animator and hard-bounded; otherwise the matrix, scales, fit flag and animator stay; only those fields and the size change |
| Zoomable.ZoomableImageView.SetImage | app/src/main/java/com/owenzx/lightedit/ui/editor/view/ZoomableImageView.kt:102-113 | a new bitmap records its size and re-arms the initial fit; a missing one clears the size; only the drawable flag, the image size and the fit flag change |
| Zoomable.ZoomableImageView.SetCropModeEnabled | app/src/main/java/com/owenzx/lightedit/ui/editor/view/ZoomableImageView.kt:484-486 | records the crop-mode flag |
| Zoomable.ZoomableImageView.CancelSettleAnimator | app/src/main/java/com/owenzx/lightedit/ui/editor/view/ZoomableImageView.kt:473-476 | no animator remains |
| Zoomable.ZoomableImageView.ApplyInitialFitIfPossible | app/src/main/java/com/owenzx/lightedit/ui/editor/view/ZoomableImageView.kt:142-172 | with a laid-out view, a sized image and no fit yet, the matrix becomes the fit-centre scale centred in the view, user scale 1, no animator and hard-bounded; otherwise nothing changes; the view size, image, crop flag and drag state never change |
| Zoomable.ZoomableImageView.OnScale | app/src/main/java/com/owenzx/lightedit/ui/editor/view/ZoomableImageView.kt:63-84 | the user scale becomes the clamped product and the matrix scale follows it; a changed scale post-scales the old matrix about the focus by exactly new / old factor and then applies hard bounds (when the bounds rules run); an unchanged one leaves the matrix alone; nothing but the matrix and the factor changes |
| Zoomable.ZoomableImageView.OnTouchEvent | app/src/main/java/com/owenzx/lightedit/ui/editor/view/ZoomableImageView.kt:175-224 | in crop mode nothing is consumed and nothing changes; otherwise multi-touch stops dragging and moves nothing; DOWN stops the animator and starts a drag at the finger; MOVE while dragging with a real movement translates the old matrix by the finger's movement and applies soft bounds, any other MOVE changes nothing; UP and CANCEL end the drag and leave the animator as the settle rule gives it; other actions change nothing; the scale never changes here |
| Zoomable.ZoomableImageView.ApplySoftBounds | app/src/main/java/com/owenzx/lightedit/ui/editor/view/ZoomableImageView.kt:229-290 | the matrix becomes its soft-bounded translate when bounds apply, and stays otherwise |
| Zoomable.ZoomableImageView.ApplyHardBounds | app/src/main/java/com/owenzx/lightedit/ui/editor/view/ZoomableImageView.kt:293-343 | the matrix becomes its hard-bounded translate when bounds apply, and stays otherwise |
| Zoomable.ZoomableImageView.SettleToHardBoundsWithAnimation | app/src/main/java/com/owenzx/lightedit/ui/editor/view/ZoomableImageView.kt:346-413 | the animator becomes the settle rule's: a fresh one towards the hard correction exactly when that correction is non-zero, otherwise the previous one |
| Zoomable.SettleOf | app/src/main/java/com/owenzx/lightedit/ui/editor/view/ZoomableImageView.kt:346-400 | without the bounds rules or with hard-bounded content the animator is left alone; otherwise one starts from fraction 0 whose full offset moves the matrix onto its hard-bounded placement |
| Zoomable.ZoomableImageView.OnSettleFrame | app/src/main/java/com/owenzx/lightedit/ui/editor/view/ZoomableImageView.kt:400-410 | one frame translates by the target times the fraction's growth and records the new fraction |
| Zoomable.FitScaleIsMin | app/src/main/java/com/owenzx/lightedit/ui/editor/view/ZoomableImageView.kt:152-155 | the fit-centre scale, the largest one at which the image fits the view, is exactly `min(vw / iw, vh / ih)` |
| Zoomable.InitialFitMatrix | app/src/main/java/com/owenzx/lightedit/ui/editor/view/ZoomableImageView.kt:150-165 | reset, scale and centre give the fit-centre scale, with the scaled image inside the view and hard-bounded |
| Crop.FixedRatio | app/src/main/java/com/owenzx/lightedit/ui/editor/crop/CropOverlayView.kt:183-192 | FREE has no ratio; every other preset has a positive ratio, above 1 exactly for 4:3 and 16:9 and below 1 exactly for 3:4 and 9:16 |
| Crop.PortraitPresetsAreReciprocal | app/src/main/java/com/owenzx/lightedit/ui/editor/crop/CropOverlayView.kt:188-191 | for every preset, the preset with width and height swapped has the reciprocal ratio (3:4 for 4:3, 9:16 for 16:9, 1:1 for itself), FREE stays ratio-free, and swapping twice gives the preset back |
| Crop.InitialCropRect | app/src/main/java/com/owenzx/lightedit/ui/editor/crop/CropOverlayView.kt:98-126 | the initial rectangle is 4:3 and centred in the view; it takes the band's full height when the band is wider than 4:3 and its full width otherwise, and then lies inside the band |
| Crop.FindTouchedHandle | app/src/main/java/com/owenzx/lightedit/ui/editor/crop/CropOverlayView.kt:349-382 | the chosen handle is within the touch radius; every handle tried before it is not; edge handles only in FREE mode; none for an empty rectangle; no handle exactly when none of the tried handles is near |
| Crop.ClampedOffset | app/src/main/java/com/owenzx/lightedit/ui/editor/crop/CropOverlayView.kt:386-415 | a drag keeps the size, keeps a rectangle that was inside the view inside it, and moves by the full delta whenever that stays inside |
| Crop.FreeResize | app/src/main/java/com/owenzx/lightedit/ui/editor/crop/CropOverlayView.kt:440-472 | in FREE mode only the dragged edges move, each clamped so the rectangle keeps 60 dp and stays in the view, and each lands under the finger when the finger is in range |
| Crop.RequestedHeight | app/src/main/java/com/owenzx/lightedit/ui/editor/crop/CropOverlayView.kt:484 | the height asked for in fixed-ratio mode is clamped to [minimum, view height] |
| Crop.AnchoredShape | app/src/main/java/com/owenzx/lightedit/ui/editor/crop/CropOverlayView.kt:494-495 | the rectangle anchored at the opposite corner has the requested size and stays in the view when it fits |
| Crop.FixedResize | app/src/main/java/com/owenzx/lightedit/ui/editor/crop/CropOverlayView.kt:474-610 | a fixed-ratio resize moves only for corner handles and keeps a rectangle that was inside the view inside it |
| Crop.PlaceFixed | app/src/main/java/com/owenzx/lightedit/ui/editor/crop/CropOverlayView.kt:480-507 | the fixed-ratio placement stays in the view, and is exactly the anchored rectangle when the request fits |
| Crop.FixedSize | app/src/main/java/com/owenzx/lightedit/ui/editor/crop/CropOverlayView.kt:485-491 | the requested size is kept when the width fits the room; otherwise the width becomes the clamped room |
| Crop.FixedSizeKeepsRatio | app/src/main/java/com/owenzx/lightedit/ui/editor/crop/CropOverlayView.kt:488-491 | after a width overflow the re-derived height restores the ratio |
| Crop.PlaceBefore | app/src/main/java/com/owenzx/lightedit/ui/editor/crop/CropOverlayView.kt:497-503 | a span that would start below 0 is cut at 0 and stays before its anchor; one that fits is placed as asked |
| Crop.PlaceAfter | app/src/main/java/com/owenzx/lightedit/ui/editor/crop/CropOverlayView.kt:600-606 | a span that would end past the view is cut at its edge; one that fits is placed as asked |
| Crop.FinalCorrection | app/src/main/java/com/owenzx/lightedit/ui/editor/crop/CropOverlayView.kt:613-640 | the final step gives at least the minimum size, puts the rectangle inside the view when that size fits, and leaves a rectangle in good standing alone |
| Crop.RectOkDefinesResize | app/src/main/java/com/owenzx/lightedit/ui/editor/crop/CropOverlayView.kt:440-472 | a rectangle inside the view and at least 60 dp makes every lower clamp bound at most its upper bound |
| Crop.FreeResizeSettled | app/src/main/java/com/owenzx/lightedit/ui/editor/crop/CropOverlayView.kt:440-472 | a FREE resize of a rectangle in good standing needs no final correction, moves only the dragged edges, and ends in good standing |
| Crop.FixedResizeSettled | app/src/main/java/com/owenzx/lightedit/ui/editor/crop/CropOverlayView.kt:474-640 | a fixed-ratio resize of a rectangle in good standing ends in good standing |
| Crop.PlaceFixedSettled | app/src/main/java/com/owenzx/lightedit/ui/editor/crop/CropOverlayView.kt:494-507 | a fitting placement of at least minimum size is exactly the anchored rectangle, and the final correction keeps it |
| Crop.AnchoredSettled | app/src/main/java/com/owenzx/lightedit/ui/editor/crop/CropOverlayView.kt:613-640 | a fitting anchored rectangle of at least minimum size needs no final correction |
| Crop.PlaceFixedKeepsRatio | app/src/main/java/com/owenzx/lightedit/ui/editor/crop/CropOverlayView.kt:474-507 | when the requested height fits and the derived width is at least the minimum, the resize keeps the ratio and the requested height, and leaves the opposite corner where it was |
| Crop.FixedResizeAtMinimumLosesRatio | app/src/main/java/com/owenzx/lightedit/ui/editor/crop/CropOverlayView.kt:614-615 | in 9:16 mode at minimum height the derived width falls below 60 dp, so the final correction makes a square and moves the anchored edge |
| Crop.Resize | app/src/main/java/com/owenzx/lightedit/ui/editor/crop/CropOverlayView.kt:420-642 | an empty rectangle is left alone; any other resize ends at least the minimum size |
| Crop.ResizeKeepsRectOk | app/src/main/java/com/owenzx/lightedit/ui/editor/crop/CropOverlayView.kt:420-642 | every resize of a rectangle in good standing is defined and ends in good standing |
| Crop.AspectBase | app/src/main/java/com/owenzx/lightedit/ui/editor/crop/CropOverlayView.kt:218-228 | the new size has the ratio; a wider rectangle keeps its height and narrows, a taller one keeps its width |
| Crop.CentredSpan | app/src/main/java/com/owenzx/lightedit/ui/editor/crop/CropOverlayView.kt:239-261 | the span has the size asked for, lies in the view when that size fits, and stays centred when centring fits |
| Crop.AspectRatioRect | app/src/main/java/com/owenzx/lightedit/ui/editor/crop/CropOverlayView.kt:204-264 | the new rectangle's size is the ratio size limited to [minimum, view]; it keeps the ratio when no limit applies, lies in the view, and keeps the old centre on each axis where that fits |
| Crop.AspectRatioExample | app/src/main/java/com/owenzx/lightedit/ui/editor/crop/CropOverlayView.kt:204-264 | a 400 x 300 rectangle switched to 1:1 keeps its height and centre and loses 50 on each side |
| Crop.CropOverlayView.constructor | app/src/main/java/com/owenzx/lightedit/ui/editor/crop/CropOverlayView.kt:53-90 | a new overlay has no size, an empty rectangle, no gesture and FREE mode |
| Crop.CropOverlayView.SetVisible | app/src/main/java/com/owenzx/lightedit/ui/editor/crop/CropOverlayView.kt:269 | records the visibility the touch handler tests |
| Crop.CropOverlayView.OnSizeChanged | app/src/main/java/com/owenzx/lightedit/ui/editor/crop/CropOverlayView.kt:93-129 | records the size and, for a non-zero size, places the initial rectangle |
| Crop.CropOverlayView.ApplyAspectRatioToCurrentRect | app/src/main/java/com/owenzx/lightedit/ui/editor/crop/CropOverlayView.kt:204-264 | with a sized view and rectangle the rectangle becomes the ratio rectangle; otherwise nothing changes |
| Crop.CropOverlayView.SetAspectRatio | app/src/main/java/com/owenzx/lightedit/ui/editor/crop/CropOverlayView.kt:183-201 | records the preset and its ratio, applies a fixed ratio at once, leaves the rectangle for FREE, and keeps a rectangle in good standing |
| Crop.CropOverlayView.OffsetCropRect | app/src/main/java/com/owenzx/lightedit/ui/editor/crop/CropOverlayView.kt:386-415 | the rectangle becomes the clamped offset |
| Crop.CropOverlayView.ResizeCropRectByCorner | app/src/main/java/com/owenzx/lightedit/ui/editor/crop/CropOverlayView.kt:420-642 | the rectangle becomes the resized rectangle, at least the minimum size unless it was empty, and stays in good standing |
| Crop.CropOverlayView.GetCropRect | app/src/main/java/com/owenzx/lightedit/ui/editor/crop/CropOverlayView.kt:649 | returns the current rectangle |
| Crop.CropOverlayView.OnDown | app/src/main/java/com/owenzx/lightedit/ui/editor/crop/CropOverlayView.kt:277-299 | a handle under the finger starts a resize, otherwise a point inside starts a drag, otherwise nothing is consumed and nothing changes |
| Crop.CropOverlayView.OnMove | app/src/main/java/com/owenzx/lightedit/ui/editor/crop/CropOverlayView.kt:301-332 | a drag offsets by the finger's movement when there is any, a resize follows the finger, both are consumed; with no gesture nothing is consumed |
| Crop.CropOverlayView.OnUp | app/src/main/java/com/owenzx/lightedit/ui/editor/crop/CropOverlayView.kt:334-342 | the gesture ends, consumed exactly when there was one |
| Crop.CropOverlayView.OnTouchEvent | app/src/main/java/com/owenzx/lightedit/ui/editor/crop/CropOverlayView.kt:267-346 | a hidden or unsized overlay consumes nothing; DOWN, MOVE and UP/CANCEL behave as above; other actions are not consumed; a rectangle in good standing stays so |
| Crop.OkDefinesEveryResize | app/src/main/java/com/owenzx/lightedit/ui/editor/crop/CropOverlayView.kt:315-323 | a rectangle in good standing satisfies every handle's resize precondition |
| TextOverlay.CopyOf | app/src/main/java/com/owenzx/lightedit/ui/editor/text/TextOverlayView.kt:263-275 | a snapshot copy keeps the nine value fields and resets every runtime rectangle |
| TextOverlay.SelectedOf | app/src/main/java/com/owenzx/lightedit/ui/editor/text/TextOverlayView.kt:161 | the selected box exists exactly when the index is valid, and is the box at that index |
| TextOverlay.AlphaFor | app/src/main/java/com/owenzx/lightedit/ui/editor/text/TextOverlayView.kt:244-250 | the alpha for a percentage is in [128, 255], within a rounding step of 2.55 times the clamped percentage, 128 at or below 50 % and 255 at or above 100 % |
| TextOverlay.AlphaMonotone | app/src/main/java/com/owenzx/lightedit/ui/editor/text/TextOverlayView.kt:244-250 | a higher percentage never gives a lower alpha |
| TextOverlay.CreationCentre | app/src/main/java/com/owenzx/lightedit/ui/editor/text/TextOverlayView.kt:176-186 | a new box is centred horizontally and placed 40 dp lower per existing box, never more than a third of the height below the centre |
| TextOverlay.Snapshot | app/src/main/java/com/owenzx/lightedit/ui/editor/text/TextOverlayView.kt:261-279 | a snapshot keeps as many boxes as there are, with the same values, and the selection |
| TextOverlay.RestoredElements | app/src/main/java/com/owenzx/lightedit/ui/editor/text/TextOverlayView.kt:282-297 | a restore rebuilds one box per copy with the copy's values |
| TextOverlay.RestoredSelection | app/src/main/java/com/owenzx/lightedit/ui/editor/text/TextOverlayView.kt:299 | the restored selection is -1 or a valid index, and is the snapshot's own when that was in range |
| TextOverlay.SnapshotRestoreRoundTrip | app/src/main/java/com/owenzx/lightedit/ui/editor/text/TextOverlayView.kt:261-301 | restoring a snapshot gives back the same number of boxes with the same values and the same selection, and keeps the state invariant |
| TextOverlay.RestoreIsIdempotent | app/src/main/java/com/owenzx/lightedit/ui/editor/text/TextOverlayView.kt:282-301 | restoring the snapshot of a restored state changes nothing |
| TextOverlay.SingleTap | app/src/main/java/com/owenzx/lightedit/ui/editor/text/TextOverlayView.kt:81-117 | on the selected box a tap on + only requests a new box; a tap on × removes that box and selects the last remaining; any other tap selects the topmost box under the finger or clears the selection; the state invariant is kept |
| TextOverlay.DoubleTap | app/src/main/java/com/owenzx/lightedit/ui/editor/text/TextOverlayView.kt:119-130 | a double tap is handled exactly when some box is under the finger, and then selects the topmost one; otherwise the selection stays |
| TextOverlay.LocalBox | app/src/main/java/com/owenzx/lightedit/ui/editor/text/TextOverlayView.kt:341-372 | the local frame around the text is centred on the origin with 24 px horizontal and 16 px vertical padding on each side |
| TextOverlay.PlusLocal | app/src/main/java/com/owenzx/lightedit/ui/editor/text/TextOverlayView.kt:388-392 | the + button is a 36-unit square in the local frame's bottom-left corner |
| TextOverlay.RotateLocal | app/src/main/java/com/owenzx/lightedit/ui/editor/text/TextOverlayView.kt:395-399 | the rotate button is a 36-unit square in the bottom-right corner |
| TextOverlay.DeleteLocal | app/src/main/java/com/owenzx/lightedit/ui/editor/text/TextOverlayView.kt:402-409 | the × button is a 36-unit square in the top-right corner |
| TextOverlay.Layout | app/src/main/java/com/owenzx/lightedit/ui/editor/text/TextOverlayView.kt:316-465 | layout keeps the box's values; an empty text leaves it alone; otherwise its bounds are the mapped local frame; an unselected box has empty button zones that no point hits; a selected box's add, rotate and delete zones are the mapped bottom-left, bottom-right and top-right squares |
| TextOverlay.MapRectWithMatrix | app/src/main/java/com/owenzx/lightedit/ui/editor/text/TextOverlayView.kt:469-491 | the mapped rectangle is the axis-aligned box of the four mapped corners |
| TextOverlay.LayoutOne | app/src/main/java/com/owenzx/lightedit/ui/editor/text/TextOverlayView.kt:316-465 | laying out one box gives the layout function's result |
| TextOverlay.NormalizeDegrees | app/src/main/java/com/owenzx/lightedit/ui/editor/text/TextOverlayView.kt:581 | `(r % 360 + 360) % 360` lies in [0, 360), differs from r by whole turns, and leaves an angle already in range alone |
| TextOverlay.ScaledRotated | app/src/main/java/com/owenzx/lightedit/ui/editor/text/TextOverlayView.kt:568-582 | a scale/rotate move changes only scale and rotation; the scale follows the distance ratio clamped to [0.5, 3] only when the starting distance was positive; the rotation is the turned angle brought into [0, 360) |
| TextOverlay.DownStep | app/src/main/java/com/owenzx/lightedit/ui/editor/text/TextOverlayView.kt:514-539 | DOWN on the rotate button starts a handle gesture recording scale, rotation and finger distance; anywhere else starts a drag from the finger |
| TextOverlay.PointerDownStep | app/src/main/java/com/owenzx/lightedit/ui/editor/text/TextOverlayView.kt:542-559 | a second finger starts a two-finger gesture unless a handle gesture is on; otherwise nothing changes |
| TextOverlay.MoveStep | app/src/main/java/com/owenzx/lightedit/ui/editor/text/TextOverlayView.kt:561-626 | MOVE scales and rotates with the handle or with two fingers, or drags the box by exactly the finger's movement when the drag pointer is found; nothing else changes and the box stays in range |
| TextOverlay.EndStep | app/src/main/java/com/owenzx/lightedit/ui/editor/text/TextOverlayView.kt:628-634 | UP and CANCEL clear every gesture flag and the pointer id, and nothing else |
| TextOverlay.GestureStep | app/src/main/java/com/owenzx/lightedit/ui/editor/text/TextOverlayView.kt:510-636 | without a selection nothing changes; otherwise only the selected box changes, never its text or alpha, and the state invariant is kept; UP/CANCEL change no box |
| TextOverlay.TextOverlayView.constructor | app/src/main/java/com/owenzx/lightedit/ui/editor/text/TextOverlayView.kt:133-152 | a new overlay has no boxes, no selection, the tool off and no gesture |
| TextOverlay.TextOverlayView.GetSelectedElement | app/src/main/java/com/owenzx/lightedit/ui/editor/text/TextOverlayView.kt:161 | returns the selected box, or none |
| TextOverlay.TextOverlayView.EnsureOneSelected | app/src/main/java/com/owenzx/lightedit/ui/editor/text/TextOverlayView.kt:165-171 | a valid selection stays; otherwise the last box is selected when there is one; the result is the selected box, present whenever there are boxes |
| TextOverlay.TextOverlayView.CreateNewTextElement | app/src/main/java/com/owenzx/lightedit/ui/editor/text/TextOverlayView.kt:173-192 | with no size the creation is deferred and nothing changes; otherwise a default box is appended at the creation centre and selected |
| TextOverlay.TextOverlayView.AddTextAtCenter | app/src/main/java/com/owenzx/lightedit/ui/editor/text/TextOverlayView.kt:194-201 | with no boxes it creates one with the text; otherwise it makes sure one is selected and sets that box's text |
| TextOverlay.TextOverlayView.UpdateSelectedTextContent | app/src/main/java/com/owenzx/lightedit/ui/editor/text/TextOverlayView.kt:203-207 | only the selected box's text changes, and nothing without a selection |
| TextOverlay.TextOverlayView.FindElementUnderPoint | app/src/main/java/com/owenzx/lightedit/ui/editor/text/TextOverlayView.kt:210-218 | returns the topmost box under the point, or -1 exactly when there is none |
| TextOverlay.TextOverlayView.SetSelectedTypeface | app/src/main/java/com/owenzx/lightedit/ui/editor/text/TextOverlayView.kt:223-227 | only the selected box's typeface changes, to the index clamped to 0..2 |
| TextOverlay.TextOverlayView.SetSelectedTextSize | app/src/main/java/com/owenzx/lightedit/ui/editor/text/TextOverlayView.kt:230-234 | only the selected box's size changes, to the size clamped to 12..36 sp |
| TextOverlay.TextOverlayView.SetSelectedTextColor | app/src/main/java/com/owenzx/lightedit/ui/editor/text/TextOverlayView.kt:237-241 | only the selected box's colour changes |
| TextOverlay.TextOverlayView.SetSelectedTextAlpha | app/src/main/java/com/owenzx/lightedit/ui/editor/text/TextOverlayView.kt:244-250 | only the selected box's alpha changes, to the alpha for the percentage |
| TextOverlay.TextOverlayView.ClearSelection | app/src/main/java/com/owenzx/lightedit/ui/editor/text/TextOverlayView.kt:253-256 | nothing is selected |
| TextOverlay.TextOverlayView.SnapshotState | app/src/main/java/com/owenzx/lightedit/ui/editor/text/TextOverlayView.kt:261-279 | the snapshot of the current boxes and selection |
| TextOverlay.TextOverlayView.RestoreState | app/src/main/java/com/owenzx/lightedit/ui/editor/text/TextOverlayView.kt:282-301 | the boxes and the selection become the restored ones, and a snapshot of in-range boxes restores a valid state |
| TextOverlay.TextOverlayView.OnSingleTapUp | app/src/main/java/com/owenzx/lightedit/ui/editor/text/TextOverlayView.kt:81-117 | the tap is always handled and the new state is the single-tap result |
| TextOverlay.TextOverlayView.OnDoubleTap | app/src/main/java/com/owenzx/lightedit/ui/editor/text/TextOverlayView.kt:119-130 | the selection and the handled flag are the double-tap result |
| TextOverlay.TextOverlayView.LayoutElements | app/src/main/java/com/owenzx/lightedit/ui/editor/text/TextOverlayView.kt:305-314 | every box is laid out, selected exactly when it is the selection and selection drawing is not suppressed |
| TextOverlay.TextOverlayView.OnTouchEvent | app/src/main/java/com/owenzx/lightedit/ui/editor/text/TextOverlayView.kt:496-506 | events are consumed exactly when the tool is active; then the gesture step runs, otherwise nothing changes |
| TextOverlay.TextOverlayView.HandleTextTransformGesture | app/src/main/java/com/owenzx/lightedit/ui/editor/text/TextOverlayView.kt:510-636 | the boxes and the gesture state become the gesture step's result |
| TextOverlay.TextOverlayView.GestureDown | app/src/main/java/com/owenzx/lightedit/ui/editor/text/TextOverlayView.kt:514-539 | the gesture state becomes the DOWN step's |
| TextOverlay.TextOverlayView.GesturePointerDown | app/src/main/java/com/owenzx/lightedit/ui/editor/text/TextOverlayView.kt:542-559 | the gesture state becomes the POINTER_DOWN step's |
| TextOverlay.TextOverlayView.GestureMove | app/src/main/java/com/owenzx/lightedit/ui/editor/text/TextOverlayView.kt:561-626 | the selected box and the gesture state become the MOVE step's |
| TextOverlay.TextOverlayView.GestureEnd | app/src/main/java/com/owenzx/lightedit/ui/editor/text/TextOverlayView.kt:628-634 | the gesture state becomes the end step's |
| StickerOverlay.InitialScale | app/src/main/java/com/owenzx/lightedit/ui/editor/sticker/StickerOverlayView.kt:114-121 | a placed sticker's scale is in [0.2, 2.5]; inside that range its longer edge becomes a quarter of the shorter view side, and below it the scale is exactly 0.2 |
| StickerOverlay.DuplicateOf | app/src/main/java/com/owenzx/lightedit/ui/editor/sticker/StickerOverlayView.kt:400-411 | a duplicate shares the bitmap, scale and rotation and is shifted by the offset on both axes; a well-formed sticker gives a well-formed copy |
| StickerOverlay.LayerUp | app/src/main/java/com/owenzx/lightedit/ui/editor/sticker/StickerOverlayView.kt:152-161 | moving up one layer swaps the sticker with the one above it and keeps the same stickers |
| StickerOverlay.LayerDown | app/src/main/java/com/owenzx/lightedit/ui/editor/sticker/StickerOverlayView.kt:163-172 | moving down one layer swaps the sticker with the one below it and keeps the same stickers |
| StickerOverlay.ToFront | app/src/main/java/com/owenzx/lightedit/ui/editor/sticker/StickerOverlayView.kt:175-182 | bringing to front puts the sticker last, keeps the others in order, and keeps the same stickers |
| StickerOverlay.ToBack | app/src/main/java/com/owenzx/lightedit/ui/editor/sticker/StickerOverlayView.kt:184-191 | sending to back puts the sticker first, keeps the others in order, and keeps the same stickers |
| StickerOverlay.LayerUpDownInverse | app/src/main/java/com/owenzx/lightedit/ui/editor/sticker/StickerOverlayView.kt:152-172 | one layer down undoes one layer up |
| StickerOverlay.CopyOf | app/src/main/java/com/owenzx/lightedit/ui/editor/sticker/StickerOverlayView.kt:200-208 | a snapshot copy keeps the bitmap, centre, scale and rotation; a well-formed sticker gives a well-formed copy |
| StickerOverlay.Snapshot | app/src/main/java/com/owenzx/lightedit/ui/editor/sticker/StickerOverlayView.kt:199-210 | a snapshot holds one copy per sticker, in order, and the selection |
| StickerOverlay.SnapshotRestoreRoundTrip | app/src/main/java/com/owenzx/lightedit/ui/editor/sticker/StickerOverlayView.kt:199-217 | restoring a snapshot gives the same number of stickers with the same values, fresh zones, and the same selection, and keeps the state invariant |
| StickerOverlay.HandleZone | app/src/main/java/com/owenzx/lightedit/ui/editor/sticker/StickerOverlayView.kt:284-333 | a handle zone is centred on its corner and contains it when the half size is positive |
| StickerOverlay.LayoutAsWritten | app/src/main/java/com/owenzx/lightedit/ui/editor/sticker/StickerOverlayView.kt:221-262 | the drawing pass as written: the values stay, the corners are the mapped bitmap corners and the bounds their box, the three zones are set on the shown sticker's corners and left as they were on every other sticker; a recycled bitmap changes nothing |
| StickerOverlay.Layout | app/src/main/java/com/owenzx/lightedit/ui/editor/sticker/StickerOverlayView.kt:221-262 | the corrected drawing pass: as written for the shown sticker, but every sticker not drawn selected gets empty zones; well-formed stays well-formed |
| StickerOverlay.LayoutAll | app/src/main/java/com/owenzx/lightedit/ui/editor/sticker/StickerOverlayView.kt:226-263 | a pass lays out every sticker, showing only the one at the shown index, and keeps every sticker well-formed |
| StickerOverlay.OnlyShownButtonsHit | app/src/main/java/com/owenzx/lightedit/ui/editor/sticker/StickerOverlayView.kt:352-371 | after a corrected pass, a delete, duplicate or scale hit can only fall on the sticker drawn selected |
| StickerOverlay.ScaledRotated | app/src/main/java/com/owenzx/lightedit/ui/editor/sticker/StickerOverlayView.kt:498-545 | a scale/rotate step changes only scale and rotation; the scale follows the distance ratio clamped to [0.3, 4] when the start distance is positive and stays otherwise; the rotation equals the turned angle up to whole turns, stays strictly inside (-360, 360) and keeps the sum's sign |
| StickerOverlay.RotationCanBeNegative | app/src/main/java/com/owenzx/lightedit/ui/editor/sticker/StickerOverlayView.kt:519 | a quarter turn clockwise from zero gives -90 degrees, since the remainder is not normalised |
| StickerOverlay.SelectionAfterDelete | app/src/main/java/com/owenzx/lightedit/ui/editor/sticker/StickerOverlayView.kt:388-393 | deleting the selected sticker clears the selection, deleting one below shifts it down by one, deleting one above leaves it |
| StickerOverlay.AfterDelete | app/src/main/java/com/owenzx/lightedit/ui/editor/sticker/StickerOverlayView.kt:386-396 | a delete removes exactly that sticker, and the selection, unless cleared, still designates the same sticker |
| StickerOverlay.AfterDuplicate | app/src/main/java/com/owenzx/lightedit/ui/editor/sticker/StickerOverlayView.kt:399-415 | a duplicate appends the shifted copy after all stickers and selects it |
| StickerOverlay.BeginHandleScale | app/src/main/java/com/owenzx/lightedit/ui/editor/sticker/StickerOverlayView.kt:418-437 | pressing the scale handle starts a one-finger scale/rotate from the sticker's scale and rotation, with the distance and angle from its centre to the finger |
| StickerOverlay.BeginDrag | app/src/main/java/com/owenzx/lightedit/ui/editor/sticker/StickerOverlayView.kt:440-450 | pressing a sticker's body starts a drag at the finger position |
| StickerOverlay.DownStep | app/src/main/java/com/owenzx/lightedit/ui/editor/sticker/StickerOverlayView.kt:381-453 | a press acts on the topmost delete zone first, then duplicate, then scale handle, then body, else only clears the hit area; it keeps the state invariant |
| StickerOverlay.PointerDownStep | app/src/main/java/com/owenzx/lightedit/ui/editor/sticker/StickerOverlayView.kt:456-478 | a second finger on a selected sticker switches from dragging to a two-finger scale/rotate from the sticker's values and the two fingers' distance; otherwise nothing changes |
| StickerOverlay.MoveStep | app/src/main/java/com/owenzx/lightedit/ui/editor/sticker/StickerOverlayView.kt:480-548 | only the selected sticker changes; a drag with the tracked pointer found moves it by the finger's movement, keeps its offset from the finger and records the finger as the new last position; an untracked drag pointer, a missing pointer for a scale/rotate, or no gesture at all changes nothing; a scale/rotate step applies the one-finger or two-finger scaling; the state invariant is kept |
| StickerOverlay.EndStep | app/src/main/java/com/owenzx/lightedit/ui/editor/sticker/StickerOverlayView.kt:551-558 | lifting or cancelling clears all gesture flags, the pointer and the hit area, and leaves the rest |
| StickerOverlay.TouchStep | app/src/main/java/com/owenzx/lightedit/ui/editor/sticker/StickerOverlayView.kt:380-561 | every touch keeps the state invariant; only a press changes the selection and only a press or move changes the stickers |
| StickerOverlay.StaleDeleteZoneRemovesHiddenSticker | app/src/main/java/com/owenzx/lightedit/ui/editor/sticker/StickerOverlayView.kt:221-262 | with the drawing pass as written, a press on the old delete corner of a sticker no longer drawn selected removes that sticker |
| StickerOverlay.ExamplePressMisses | app/src/main/java/com/owenzx/lightedit/ui/editor/sticker/StickerOverlayView.kt:381-453 | on the example laid out by the corrected pass, the press at (100, 0) hits no zone and no sticker, so the list and the selection stay |
| StickerOverlay.CorrectedExampleLayout | app/src/main/java/com/owenzx/lightedit/ui/editor/sticker/StickerOverlayView.kt:221-262 | in the same scene the corrected pass leaves the deselected sticker with no zones and puts the zones on the selected sticker's corners |
| StickerOverlay.CorrectedLayoutLeavesHiddenStickerAlone | app/src/main/java/com/owenzx/lightedit/ui/editor/sticker/StickerOverlayView.kt:381-453 | with the corrected pass the same press changes nothing |
| StickerOverlay.StickerOverlayView.constructor | app/src/main/java/com/owenzx/lightedit/ui/editor/sticker/StickerOverlayView.kt:17-70 | a new view has no stickers, no selection, the tool inactive and the gesture state at its initial values |
| StickerOverlay.StickerOverlayView.ClearSelection | app/src/main/java/com/owenzx/lightedit/ui/editor/sticker/StickerOverlayView.kt:95-98 | the selection becomes -1 |
| StickerOverlay.StickerOverlayView.AddSticker | app/src/main/java/com/owenzx/lightedit/ui/editor/sticker/StickerOverlayView.kt:102-134 | an empty bitmap is ignored; before the view has a size the add is deferred; otherwise a sticker is appended at the view centre with the initial scale and no rotation, and selected |
| StickerOverlay.StickerOverlayView.ClearAllStickers | app/src/main/java/com/owenzx/lightedit/ui/editor/sticker/StickerOverlayView.kt:137-141 | no stickers and no selection remain |
| StickerOverlay.StickerOverlayView.DeleteSelected | app/src/main/java/com/owenzx/lightedit/ui/editor/sticker/StickerOverlayView.kt:144-150 | a valid selection is removed and cleared; otherwise nothing changes |
| StickerOverlay.StickerOverlayView.MoveSelectedUpOneLayer | app/src/main/java/com/owenzx/lightedit/ui/editor/sticker/StickerOverlayView.kt:152-161 | the selected sticker moves up a layer and stays selected; on the top layer or without a selection nothing changes |
| StickerOverlay.StickerOverlayView.MoveSelectedDownOneLayer | app/src/main/java/com/owenzx/lightedit/ui/editor/sticker/StickerOverlayView.kt:163-172 | the selected sticker moves down a layer and stays selected; on the bottom layer or without a selection nothing changes |
| StickerOverlay.StickerOverlayView.BringSelectedToFront | app/src/main/java/com/owenzx/lightedit/ui/editor/sticker/StickerOverlayView.kt:175-182 | the selected sticker becomes the top layer and stays selected |
| StickerOverlay.StickerOverlayView.SendSelectedToBack | app/src/main/java/com/owenzx/lightedit/ui/editor/sticker/StickerOverlayView.kt:184-191 | the selected sticker becomes the bottom layer and stays selected |
| StickerOverlay.StickerOverlayView.SnapshotState | app/src/main/java/com/owenzx/lightedit/ui/editor/sticker/StickerOverlayView.kt:199-210 | the snapshot of the view's stickers and selection |
| StickerOverlay.StickerOverlayView.RestoreState | app/src/main/java/com/owenzx/lightedit/ui/editor/sticker/StickerOverlayView.kt:212-217 | the stickers and selection become the snapshot's, and a well-formed snapshot gives a valid view |
| StickerOverlay.StickerOverlayView.LayoutStickers | app/src/main/java/com/owenzx/lightedit/ui/editor/sticker/StickerOverlayView.kt:221-263 | a drawing pass replaces the stickers by the corrected layout, showing the selection only while the tool is active and not suppressed |
| StickerOverlay.StickerOverlayView.FindStickerUnderPoint | app/src/main/java/com/owenzx/lightedit/ui/editor/sticker/StickerOverlayView.kt:345-350 | the topmost sticker whose bounds contain the point, or -1 |
| StickerOverlay.StickerOverlayView.HitDeleteHandle | app/src/main/java/com/owenzx/lightedit/ui/editor/sticker/StickerOverlayView.kt:352-357 | the topmost sticker whose delete zone contains the point, or -1 |
| StickerOverlay.StickerOverlayView.HitPlusHandle | app/src/main/java/com/owenzx/lightedit/ui/editor/sticker/StickerOverlayView.kt:359-364 | the topmost sticker whose duplicate zone contains the point, or -1 |
| StickerOverlay.StickerOverlayView.HitScaleHandle | app/src/main/java/com/owenzx/lightedit/ui/editor/sticker/StickerOverlayView.kt:366-371 | the topmost sticker whose scale zone contains the point, or -1 |
| StickerOverlay.StickerOverlayView.OnSingleTapUp | app/src/main/java/com/owenzx/lightedit/ui/editor/sticker/StickerOverlayView.kt:75-88 | with the tool inactive a tap is not handled; otherwise it is handled exactly when it falls on a sticker, which then becomes selected |
| StickerOverlay.StickerOverlayView.OnTouchEvent | app/src/main/java/com/owenzx/lightedit/ui/editor/sticker/StickerOverlayView.kt:375-562 | the event is consumed exactly when the tool is active; then the state becomes the touch step's, and otherwise nothing changes |
| StickerOverlay.StickerOverlayView.TouchDown | app/src/main/java/com/owenzx/lightedit/ui/editor/sticker/StickerOverlayView.kt:381-453 | the state becomes the press step's |
| StickerOverlay.StickerOverlayView.RemoveKeepingSelection | app/src/main/java/com/owenzx/lightedit/ui/editor/sticker/StickerOverlayView.kt:386-396 | the stickers and selection become those after the delete |
| StickerOverlay.StickerOverlayView.AppendDuplicate | app/src/main/java/com/owenzx/lightedit/ui/editor/sticker/StickerOverlayView.kt:399-415 | the stickers and selection become those after the duplicate |
| StickerOverlay.StickerOverlayView.StartHandleScale | app/src/main/java/com/owenzx/lightedit/ui/editor/sticker/StickerOverlayView.kt:418-437 | the sticker is selected and the gesture begins a one-finger scale |
| StickerOverlay.StickerOverlayView.StartDrag | app/src/main/java/com/owenzx/lightedit/ui/editor/sticker/StickerOverlayView.kt:440-450 | the gesture begins a drag |
| StickerOverlay.StickerOverlayView.TouchPointerDown | app/src/main/java/com/owenzx/lightedit/ui/editor/sticker/StickerOverlayView.kt:456-478 | the gesture becomes the second-finger step's |
| StickerOverlay.StickerOverlayView.TouchMove | app/src/main/java/com/owenzx/lightedit/ui/editor/sticker/StickerOverlayView.kt:480-548 | the stickers and the gesture become the move step's |
| StickerOverlay.StickerOverlayView.TouchEnd | app/src/main/java/com/owenzx/lightedit/ui/editor/sticker/StickerOverlayView.kt:551-558 | the gesture becomes the end step's |
| Editor.Pack | app/src/main/java/com/owenzx/lightedit/ui/editor/EditorFragment.kt:817 | packing four channels into a colour gives back each of the four channels |
| Editor.PackOfChannels | app/src/main/java/com/owenzx/lightedit/ui/editor/EditorFragment.kt:805-817 | splitting a colour into its channels and packing them again gives the same colour |
| Editor.AdjustChannel | app/src/main/java/com/owenzx/lightedit/ui/editor/EditorFragment.kt:796-815 | an adjusted channel is always in [0, 255], and with no brightness and no contrast a channel is unchanged |
| Editor.AdjustChannelMonotoneInBrightness | app/src/main/java/com/owenzx/lightedit/ui/editor/EditorFragment.kt:796-815 | more brightness never darkens a channel |
| Editor.FullBrightnessSaturatesGrey | app/src/main/java/com/owenzx/lightedit/ui/editor/EditorFragment.kt:796-815 | full brightness turns mid grey white |
| Editor.AdjustColor | app/src/main/java/com/owenzx/lightedit/ui/editor/EditorFragment.kt:803-817 | an adjusted colour keeps its alpha and adjusts each colour channel on its own |
| Editor.AdjustColorNeutral | app/src/main/java/com/owenzx/lightedit/ui/editor/EditorFragment.kt:803-817 | with no brightness and no contrast a colour is unchanged |
| Editor.AdjustAll | app/src/main/java/com/owenzx/lightedit/ui/editor/EditorFragment.kt:802-818 | every pixel is adjusted, one for one |
| Editor.AdjustAllNeutral | app/src/main/java/com/owenzx/lightedit/ui/editor/EditorFragment.kt:802-818 | with no brightness and no contrast the pixels are unchanged |
| Editor.AdjustPixels | app/src/main/java/com/owenzx/lightedit/ui/editor/EditorFragment.kt:802-818 | the loop leaves the pixel array equal to the adjusted pixels of its old contents |
| Editor.Allocate | app/src/main/java/com/owenzx/lightedit/ui/editor/EditorFragment.kt:820-821 | a new bitmap gets a handle never used before and nothing already allocated changes |
| Editor.Recycle | app/src/main/java/com/owenzx/lightedit/ui/editor/EditorFragment.kt:830 | recycling marks one bitmap and changes no image |
| Editor.RecycleHeld | app/src/main/java/com/owenzx/lightedit/ui/editor/EditorFragment.kt:853-857 | recycling a held backup marks it, and no bitmap when none is held |
| Editor.RecycleUnless | app/src/main/java/com/owenzx/lightedit/ui/editor/EditorFragment.kt:826-831 | the old preview is recycled unless it is the backup |
| Editor.CancelTo | app/src/main/java/com/owenzx/lightedit/ui/editor/EditorFragment.kt:842-852 | cancelling puts the backup on show and recycles the bitmap shown until then unless it is the backup |
| Editor.CancelShowsBackup | app/src/main/java/com/owenzx/lightedit/ui/editor/EditorFragment.kt:835-862 | after a cancel the bitmap on show is the live backup with the image it held, and nothing allocated is lost |
| Editor.Replace | app/src/main/java/com/owenzx/lightedit/ui/editor/EditorFragment.kt:820-831 | showing a new image allocates a fresh bitmap and recycles the old one unless it is the kept backup |
| Editor.ReplaceKeepsOthers | app/src/main/java/com/owenzx/lightedit/ui/editor/EditorFragment.kt:820-831 | a replacement keeps the store well formed, the new bitmap live with the new image, and any other live bitmap live and distinct |
| Editor.StepBrightness | app/src/main/java/com/owenzx/lightedit/ui/editor/EditorFragment.kt:445-458 | a brightness step stays in [-100, 100], is exact inside that range, and moves the value in the step's direction |
| Editor.StepContrast | app/src/main/java/com/owenzx/lightedit/ui/editor/EditorFragment.kt:459-472 | a contrast step stays in [-50, 150], is exact inside that range, and moves the value in the step's direction |
| Editor.AdjustedImage | app/src/main/java/com/owenzx/lightedit/ui/editor/EditorFragment.kt:782-821 | the preview keeps the size and adjusts each pixel of the source |
| Editor.NeutralPreviewIsOriginal | app/src/main/java/com/owenzx/lightedit/ui/editor/EditorFragment.kt:489-492 | the compare preview with no brightness and no contrast is the original picture |
| Editor.PreviewsDoNotAccumulate | app/src/main/java/com/owenzx/lightedit/ui/editor/EditorFragment.kt:782-821 | after two previews the bitmap shown is the backup adjusted by the second pair of values, whatever the first pair was, and the first preview was recycled |
| Editor.Preview | app/src/main/java/com/owenzx/lightedit/ui/editor/EditorFragment.kt:782-832 | a preview either puts a fresh bitmap on show or leaves the bitmap on show as it was |
| Editor.PreviewShowsAdjustedBackup | app/src/main/java/com/owenzx/lightedit/ui/editor/EditorFragment.kt:782-832 | with a backup that has area, the preview shows the backup adjusted by the two values in a fresh live bitmap, recycles the previous one and keeps the backup alive; otherwise nothing changes |
| Editor.ZeroPreviewShowsBackup | app/src/main/java/com/owenzx/lightedit/ui/editor/EditorFragment.kt:489-492 | the zero preview of the compare button shows the backup's own picture |
| Strings.TrimStart | app/src/main/java/com/owenzx/lightedit/ui/editor/EditorFragment.kt:527 | trimming the front leaves a suffix whose dropped characters are all white space and that does not start with white space |
| Strings.TrimEnd | app/src/main/java/com/owenzx/lightedit/ui/editor/EditorFragment.kt:527 | trimming the back leaves a prefix whose dropped characters are all white space and that does not end with white space |
| Strings.Trim | app/src/main/java/com/owenzx/lightedit/ui/editor/EditorFragment.kt:527-528 | the trimmed text is the slice of the input between leading and trailing white space, with white space at neither end, and empty exactly when the input is all white space |
| Strings.TrimBothEnds | app/src/main/java/com/owenzx/lightedit/ui/editor/EditorFragment.kt:527 | trimming the front and then the back of the rest trims both ends |
| Editor.WatermarkOrigin | app/src/main/java/com/owenzx/lightedit/ui/editor/EditorFragment.kt:954-994 | no watermark without a positive size; otherwise the text ends 16 dp from the right edge and its baseline sits 16 dp above the bottom |
| Editor.EditorFragment.constructor | app/src/main/java/com/owenzx/lightedit/ui/editor/EditorFragment.kt:55-84 | the screen starts in normal mode with no editing mode on, showing the decoded photo when there is one |
| Editor.EditorFragment.UpdateUiForMode | app/src/main/java/com/owenzx/lightedit/ui/editor/EditorFragment.kt:120-246 | the mode becomes the given one and the text tool is active exactly in text mode |
| Editor.EditorFragment.EnterCropMode | app/src/main/java/com/owenzx/lightedit/ui/editor/EditorFragment.kt:617-626 | entering crop mode closes rotate and adjust mode, recycling their backups, and turns crop on the canvas on; already in crop mode nothing changes |
| Editor.EditorFragment.ExitCropMode | app/src/main/java/com/owenzx/lightedit/ui/editor/EditorFragment.kt:628-634 | leaving crop mode turns canvas crop off and returns to normal mode; outside crop mode nothing changes |
| Editor.EditorFragment.OnCropConfirm | app/src/main/java/com/owenzx/lightedit/ui/editor/EditorFragment.kt:339-350 | a crop that succeeded shows the cropped image in a fresh bitmap and leaves crop mode; a failed crop changes nothing |
| Editor.EditorFragment.EnterRotateMode | app/src/main/java/com/owenzx/lightedit/ui/editor/EditorFragment.kt:636-653 | entering rotate mode with a picture backs up a copy of the picture on show; without a picture nothing is entered |
| Editor.EditorFragment.ApplyTransform | app/src/main/java/com/owenzx/lightedit/ui/editor/EditorFragment.kt:656-720 | in rotate mode a successful rotation or flip shows the result in a fresh bitmap and recycles the old one unless it is the backup; the backup's image never changes |
| Editor.EditorFragment.ExitRotateApplied | app/src/main/java/com/owenzx/lightedit/ui/editor/EditorFragment.kt:722-747 | keeping the rotation recycles the backup and returns to normal mode |
| Editor.EditorFragment.ExitRotateMode | app/src/main/java/com/owenzx/lightedit/ui/editor/EditorFragment.kt:722-747 | confirming keeps the picture and recycles the backup; cancelling puts the backed-up picture back on show |
| Editor.EditorFragment.EnterAdjustMode | app/src/main/java/com/owenzx/lightedit/ui/editor/EditorFragment.kt:750-779 | entering adjust mode with a picture backs it up, zeroes both values and puts the sliders at their offsets |
| Editor.EditorFragment.StartAdjust | app/src/main/java/com/owenzx/lightedit/ui/editor/EditorFragment.kt:758-779 | the backup holds the picture on show, the values are zero and the sliders at 100 and 50 |
| Editor.EditorFragment.ApplyAdjustPreview | app/src/main/java/com/owenzx/lightedit/ui/editor/EditorFragment.kt:782-832 | the store and the canvas become the preview of the backup with the given or current values: in adjust mode with a non-empty backup a fresh bitmap with the adjusted backup, the old preview recycled unless it is the backup; otherwise nothing changes |
| Editor.EditorFragment.ExitAdjustApplied | app/src/main/java/com/owenzx/lightedit/ui/editor/EditorFragment.kt:835-862 | keeping the adjustment recycles the backup and returns to normal mode |
| Editor.EditorFragment.ExitAdjustMode | app/src/main/java/com/owenzx/lightedit/ui/editor/EditorFragment.kt:835-862 | confirming keeps the picture and recycles the backup; cancelling puts the backed-up picture back on show |
| Editor.EditorFragment.OnBrightnessProgressChanged | app/src/main/java/com/owenzx/lightedit/ui/editor/EditorFragment.kt:401-410 | a user move of the slider in adjust mode sets the brightness to the progress minus 100 and shows the preview with that brightness and the current contrast; any other change is ignored |
| Editor.EditorFragment.OnContrastProgressChanged | app/src/main/java/com/owenzx/lightedit/ui/editor/EditorFragment.kt:419-428 | a user move of the slider in adjust mode sets the contrast to the progress minus 50 and shows the preview with the current brightness and that contrast; any other change is ignored |
| Editor.EditorFragment.ResetAdjust | app/src/main/java/com/owenzx/lightedit/ui/editor/EditorFragment.kt:435-444 | in adjust mode both values return to zero, the sliders to 100 and 50, and the zero preview (the backup itself) is shown; outside it nothing changes |
| Editor.EditorFragment.StepBrightnessBy | app/src/main/java/com/owenzx/lightedit/ui/editor/EditorFragment.kt:445-458 | in adjust mode the brightness takes a clamped step, the slider follows, and the preview with the new brightness is shown; outside it nothing changes |
| Editor.EditorFragment.StepContrastBy | app/src/main/java/com/owenzx/lightedit/ui/editor/EditorFragment.kt:459-472 | in adjust mode the contrast takes a clamped step, the slider follows, and the preview with the new contrast is shown; outside it nothing changes |
| Editor.EditorFragment.OnCompareTouch | app/src/main/java/com/owenzx/lightedit/ui/editor/EditorFragment.kt:483-502 | only a press, lift or cancel in adjust mode is handled; a press shows the zero preview (the backup unadjusted) and a lift or cancel the preview with the current values; unhandled events change nothing |
| Editor.EditorFragment.OnTextToolClicked | app/src/main/java/com/owenzx/lightedit/ui/editor/EditorFragment.kt:316-334 | opening the text tool closes the other modes, backs up the boxes and enters text mode; with no box it creates the default one (deferred until the overlay has a size), otherwise it keeps the boxes, keeps a valid selection and else selects the last box |
| Editor.EditorFragment.CloseEditingModes | app/src/main/java/com/owenzx/lightedit/ui/editor/EditorFragment.kt:317-320 | crop, rotate and adjust mode are all closed keeping their edits: backups are recycled and the picture stays |
| Editor.EditorFragment.ExitTextMode | app/src/main/java/com/owenzx/lightedit/ui/editor/EditorFragment.kt:904-916 | leaving text mode returns to normal mode, deactivates the text tool and clears the text selection |
| Editor.EditorFragment.OnTextModeCancel | app/src/main/java/com/owenzx/lightedit/ui/editor/EditorFragment.kt:595-604 | cancelling text mode restores the backed-up boxes when there is a backup, drops the backup and returns to normal mode |
| Editor.EditorFragment.OnTextModeConfirm | app/src/main/java/com/owenzx/lightedit/ui/editor/EditorFragment.kt:605-609 | confirming text mode keeps the boxes, drops the backup and returns to normal mode |
| Editor.EditorFragment.EnterTextEditModeForSelected | app/src/main/java/com/owenzx/lightedit/ui/editor/EditorFragment.kt:872-890 | the input field receives the selected box's text when a box is selected, and nothing otherwise |
| Editor.EditorFragment.OnTextContentConfirm | app/src/main/java/com/owenzx/lightedit/ui/editor/EditorFragment.kt:525-532 | a non-blank entry replaces the selected box's text with the trimmed entry; a blank one or no selection changes no box |
| Editor.EditorFragment.RotateThenCancelRestoresPhoto | app/src/main/java/com/owenzx/lightedit/ui/editor/EditorFragment.kt:636-747 | entering rotate mode, applying a transform and cancelling shows the picture shown on entry |
| Editor.EditorFragment.AdjustThenCancelRestoresPhoto | app/src/main/java/com/owenzx/lightedit/ui/editor/EditorFragment.kt:750-862 | entering adjust mode, stepping the brightness and cancelling shows the picture shown on entry |
| Editor.EditorFragment.TextThenCancelRestoresBoxes | app/src/main/java/com/owenzx/lightedit/ui/editor/EditorFragment.kt:316-604 | opening the text tool, editing the selected text and cancelling gives back every box's values |
| Editor.EditorFragment.ComposeWithWatermark | app/src/main/java/com/owenzx/lightedit/ui/editor/EditorFragment.kt:954-994 | composing places the watermark at its origin and leaves the overlay's selection drawing as it was |
| Editor.EditorFragment.OnDestroyView | app/src/main/java/com/owenzx/lightedit/ui/editor/EditorFragment.kt:1047-1074 | leaving the screen recycles both backups unless one is the picture on show, keeping that picture live |
| Thumbnail.SampleSizeFromSpec | app/src/main/java/com/owenzx/lightedit/core/image/ThumbnailLoader.kt:157-161 | halving from a power of two whose half still had room ends at a power of two at least as large, where the loop condition fails and held one step before |
| Thumbnail.SampleSizeSpec | app/src/main/java/com/owenzx/lightedit/core/image/ThumbnailLoader.kt:144-165 | the sample size is a power of two; it is 1 when the source fits the request; otherwise it is the first power of two at which half the source divided by it is no longer at least twice the request on both axes |
| Thumbnail.KeepHalvingMonotone | app/src/main/java/com/owenzx/lightedit/core/image/ThumbnailLoader.kt:157-158 | if the loop would go on at some sample size it would go on at every smaller one |
| Thumbnail.SampleSizeUnique | app/src/main/java/com/owenzx/lightedit/core/image/ThumbnailLoader.kt:157-161 | exactly one power of two is the first at which the loop stops |
| Thumbnail.ExitStaysExit | app/src/main/java/com/owenzx/lightedit/core/image/ThumbnailLoader.kt:157-158 | once the loop stops at a power of two it would also stop at every larger one's half |
| Thumbnail.PowerOfTwoHalf | app/src/main/java/com/owenzx/lightedit/core/image/ThumbnailLoader.kt:160 | of two powers of two the smaller is at most half the larger |
| Thumbnail.CalculateInSampleSize | app/src/main/java/com/owenzx/lightedit/core/image/ThumbnailLoader.kt:144-165 | the loop returns the sample size characterised above |
| Thumbnail.CenterCropSquare | app/src/main/java/com/owenzx/lightedit/core/image/ThumbnailLoader.kt:168-179 | a square bitmap is returned as it is; otherwise the cut is the centred square of the shorter side, inside the bitmap, flush with two opposite sides, with at most one pixel more on the far side |
| Thumbnail.DecodeAndCropSquare | app/src/main/java/com/owenzx/lightedit/core/image/ThumbnailLoader.kt:80-142 | no thumbnail when the bounds could not be read, a side is not positive or the decode fails; otherwise the decode uses the computed sample size, the centred square cut, a rescale exactly when the square's side differs from the target, and a thumbnail of the target side |
| Album.PhotoOf | app/src/main/java/com/owenzx/lightedit/data/album/MediaStoreAlbumRepository.kt:63-72 | a photo keeps the row's id, date and bucket id, and takes its display name and bucket name from the row or their defaults when the row has none |
| Album.PhotosOf | app/src/main/java/com/owenzx/lightedit/data/album/MediaStoreAlbumRepository.kt:63-72 | one photo per row, in row order |
| Album.Keys | app/src/main/java/com/owenzx/lightedit/data/album/MediaStoreAlbumRepository.kt:85 | the grouping keys are distinct and each has at least one photo |
| Album.GroupBy | app/src/main/java/com/owenzx/lightedit/data/album/MediaStoreAlbumRepository.kt:85 | one group per key, in the keys' order, each holding that bucket's photos |
| Album.GroupFolders | app/src/main/java/com/owenzx/lightedit/data/album/MediaStoreAlbumRepository.kt:89-101 | one folder per group, in group order |
| Album.InBucketMembers | app/src/main/java/com/owenzx/lightedit/data/album/MediaStoreAlbumRepository.kt:85 | a group holds exactly the photos of that bucket |
| Album.InBucketAppend | app/src/main/java/com/owenzx/lightedit/data/album/MediaStoreAlbumRepository.kt:85 | grouping keeps input order: the group of a concatenation is the concatenation of the groups |
| Album.KeysComplete | app/src/main/java/com/owenzx/lightedit/data/album/MediaStoreAlbumRepository.kt:85 | every photo's bucket is a key |
| Album.KeysInFirstAppearanceOrder | app/src/main/java/com/owenzx/lightedit/data/album/MediaStoreAlbumRepository.kt:85 | keys come in order of first appearance: a bucket listed earlier has a photo before every photo of a bucket listed later |
| Album.FolderOfFirstPhoto | app/src/main/java/com/owenzx/lightedit/data/album/MediaStoreAlbumRepository.kt:92-97 | a folder's name and cover come from the first photo of its bucket in query order |
| Album.UnnamedBucketFolder | app/src/main/java/com/owenzx/lightedit/data/album/MediaStoreAlbumRepository.kt:70 | a bucket whose first row has no name is called "未分类" |
| Album.KeyCountsSum | app/src/main/java/com/owenzx/lightedit/data/album/MediaStoreAlbumRepository.kt:85 | the group sizes add up to the number of photos |
| Album.GroupCountsSum | app/src/main/java/com/owenzx/lightedit/data/album/MediaStoreAlbumRepository.kt:98 | the folders' photo counts add up to the number of photos |
| Album.GroupFoldersSpec | app/src/main/java/com/owenzx/lightedit/data/album/MediaStoreAlbumRepository.kt:89-101 | the folders have distinct bucket ids, each describes its own bucket, and every photo's bucket has a folder |
| Album.LowerChar | app/src/main/java/com/owenzx/lightedit/data/album/MediaStoreAlbumRepository.kt:104 | lowering maps A-Z to a-z and leaves every other character |
| Album.LexTotal | app/src/main/java/com/owenzx/lightedit/data/album/MediaStoreAlbumRepository.kt:104 | any two names are ordered one way or the other |
| Album.LexTrans | app/src/main/java/com/owenzx/lightedit/data/album/MediaStoreAlbumRepository.kt:104 | the name order is transitive |
| Album.InsertPermutes | app/src/main/java/com/owenzx/lightedit/data/album/MediaStoreAlbumRepository.kt:104 | inserting adds exactly one element |
| Album.InsertSorted | app/src/main/java/com/owenzx/lightedit/data/album/MediaStoreAlbumRepository.kt:104 | inserting into a sorted list keeps it sorted |
| Album.SortByNameCounts | app/src/main/java/com/owenzx/lightedit/data/album/MediaStoreAlbumRepository.kt:104 | sorting keeps the same folders and the same total count |
| Album.SortByNameDistinct | app/src/main/java/com/owenzx/lightedit/data/album/MediaStoreAlbumRepository.kt:104 | sorting keeps bucket ids distinct |
| Album.SortByNameSorted | app/src/main/java/com/owenzx/lightedit/data/album/MediaStoreAlbumRepository.kt:104 | the sorted folders are in ascending lower-cased name order and are a permutation of the input |
| Album.InsertWithKey | app/src/main/java/com/owenzx/lightedit/data/album/MediaStoreAlbumRepository.kt:104 | inserting a folder puts it ahead of every folder with the same lower-cased name and changes the order within no name |
| Album.SortByNameStable | app/src/main/java/com/owenzx/lightedit/data/album/MediaStoreAlbumRepository.kt:104 | the sort is stable: for every lower-cased name, the folders carrying it come out in the order they went in (the grouping order) |
| Album.LoadAllFolders | app/src/main/java/com/owenzx/lightedit/data/album/MediaStoreAlbumRepository.kt:80-105 | no photos give no folders; otherwise the folders are the groups sorted by lower-cased name: a permutation of the groups, sorted, with distinct ids, each describing its bucket, covering every photo, and counting every photo once |
| Album.LoadPhotosInBucket | app/src/main/java/com/owenzx/lightedit/data/album/MediaStoreAlbumRepository.kt:108-117 | the result holds exactly the photos of the bucket |
| Album.LoadPhotosInBucketKeepsOrder | app/src/main/java/com/owenzx/lightedit/data/album/MediaStoreAlbumRepository.kt:116 | filtering keeps query order |
| Album.FolderCountMatchesBucket | app/src/main/java/com/owenzx/lightedit/data/album/MediaStoreAlbumRepository.kt:89-117 | every listed folder counts a positive number of photos, exactly as many as opening that bucket returns |

## Left out

- Drawing: every `onDraw`, Canvas, Paint and Path call (clip path, dashed borders, handle circles, text drawing). Only the rectangle and point arithmetic that drawing feeds is modelled.
- Trigonometry and the Android `Matrix`: `hypot`, `atan2` and `Math.toDegrees` are parameters (`Trig`), and the matrix that maps a sticker's or text box's local corners is a `Mapping` parameter, because their values are platform floating point.
- Text measurement: the width and height the `Paint` measures for a text box or the watermark are parameters.
- Bitmap operations: decoding, `Bitmap.createBitmap` with a rotate or flip matrix, the crop copy, `getPixels`/`setPixels` and `root.draw` composition are outside the model; their results are parameters, and a bitmap is an abstract handle in a store with a recycled set.
- Editor.EditorFragment.EnterRotateMode: assumes `Bitmap.copy` succeeds; the path where it returns null is not modelled.
- Animation timing: the `ValueAnimator` duration, interpolation and frame scheduling are left out; the settle animation is modelled by the fractions it delivers.
- I/O and threads: `saveBitmapToGallery` (MediaStore insert, JPEG compression, executor), the `queryAllPhotos` cursor loop and its log lines, and `loadSquareThumbnail` (LRU cache, thread pool, weak references, main-thread posting). The row mapping of `queryAllPhotos` is modelled by `Album.PhotoOf`; the content URI of a photo is represented by its id.
- Floating point: all coordinates, scales and angles are `real` without rounding; `toInt` truncation and `roundToInt` are modelled exactly on reals.
- `ImageFilters.kt`: not part of this model.
- Platform plumbing: fragments, navigation, adapters, permissions, the `AlbumFolder` data class beyond its four fields, views shown or hidden by `updateUiForMode`, toasts, keyboard show/hide, the click listeners themselves (each listener is a method), and font, size, colour and alpha controls that only forward to the text overlay.
- `post { … }` deferrals while a view has no size are modelled as a returned `deferred` flag; the later retry is not modelled.
- Gesture detector timing: when a tap counts as a single or double tap is the platform's decision; the tap callbacks are methods.
- Zoomable.ZoomableImageView: `setAutoInitFitEnabled`, which the editor screen calls, is not defined in `ZoomableImageView.kt`; those calls are left out.
- Thumbnail.CalculateInSampleSize: integers are unbounded, so `reqHeight * 2` does not wrap for requests of 2^30 or more as the 32-bit Kotlin `Int` would.
- Album.LowerChar: `lowercase()` is modelled for ASCII letters only; other case mappings are not, and names compare by code point.
- Album.LoadAllFolders: `photoCount` is an unbounded `nat`, not a 32-bit `Int`.
- Thumbnail.DecodeAndCropSquare: the recycling of the intermediate decoded and square bitmaps is not modelled.
- Editor.EditorFragment.EnterTextEditModeForSelected: the branch for a double tap outside text mode cannot be reached, because the text overlay reports double taps only while its tool is active, so the method requires the text tool to be active and omits that branch.
- Editor.EditorFragment.OnCropConfirm: the bitmap shown before the crop is not recycled by the source, and the model does not recycle it either.
- `composeCurrentImageWithText` is never called and is left out; the `downHitElementIndex` field of `TextOverlayView.kt` is declared but never used and is left out.
- StickerOverlay.StickerOverlayView.LayoutStickers: runs the corrected drawing pass of the Findings table, which clears the button zones of every sticker not drawn selected; the pass as written, which leaves them set, is `StickerOverlay.LayoutAsWritten` and is used only by the finding's lemmas, so the view's later hit tests are those of the corrected program.
- StickerOverlay.StickerOverlayView.RestoreState: the source shares the snapshot's element objects with the view; the model copies values, so later in-place edits of a restored sticker cannot reach the snapshot.
- Crop.CropOverlayView.ResizeCropRectByCorner: requires `ResizeDefined(m)`, the condition under which every `coerceIn` the resize reaches has its lower bound at most its upper bound; the `IllegalArgumentException` Kotlin's `coerceIn` throws otherwise is not modelled. That path is reachable in a tiny view: in a view less than 84 density units wide whose initial rectangle is width-limited, `onSizeChanged` puts `right` at `w - 24` density units (CropOverlayView.kt:120-126), so `right - 60` is negative and a top-left, left or bottom-left drag throws (CropOverlayView.kt:443, 451, 461); in fixed-ratio mode `coerceIn(minH, height)` throws in a view less than 60 density units high (CropOverlayView.kt:484). `Crop.CropOverlayView.OnSizeChanged` does not establish `Ok()` in such views.
- Crop.CropOverlayView.OnTouchEvent: a MOVE in a resize mode requires `ResizeDefined(touchMode)` for the same reason, so the same tiny-view throw is not modelled; `Crop.OkDefinesEveryResize` shows the requirement holds whenever the rectangle is in good standing.
- Crop: the fixed-ratio resize's final minimum-size correction can break the ratio (`Crop.FixedResizeAtMinimumLosesRatio` shows one case); this is modelled as written.

## Findings

| source | as written | input that shows it | evidently intended | confidence | as-written member | corrected member |
|---|---|---|---|---|---|---|
| app/src/main/java/com/owenzx/lightedit/ui/editor/sticker/StickerOverlayView.kt:221-262 | the drawing pass sets the delete, duplicate and scale zones only on the sticker drawn selected and never clears them on the others, while a press tests every sticker's zones (lines 386-437) | sticker 0 at (0,0)-(100,100) is drawn selected, then sticker 1 at (500,500)-(600,600) is selected and both are redrawn; a press at (100, 0), sticker 0's old delete corner, removes sticker 0 although its buttons are no longer drawn | only the buttons on screen respond: zones of stickers not drawn selected are empty, as the text overlay does for its boxes | not executed | StickerOverlay.StaleDeleteZoneRemovesHiddenSticker | StickerOverlay.CorrectedLayoutLeavesHiddenStickerAlone |
