# ImagePickerKit core, modelled in Dafny

This project models the logic of the Athlee image picker that is more than
UIKit wiring:

- **The floating panel** (`FloatingViewLayout` and the crop screen that hosts
  it). A view pinned to the top of its superview is dragged between two rest
  positions by pan gestures. Its top-constraint constant is 0 when Unfolded and
  `-(height - visibleArea)` when Folded. The module `FloatingLayout` states what
  `move`, `restore` and `receivePanGesture` do, as functions on a `Layout`
  value. The class `CropController.CropViewController` carries out the same
  steps in place on its own fields and is proved to match those functions. The
  crop screen's own handlers (tap to unfold, main and check pans, the zoom
  flags, the `offset` clamp, the grid-offset sync) are methods of the same
  class.
- **The photo cache window** (`CGRect.difference(with:)`,
  `CGRect.exclusiveOr`, `PhotoCachable`). When the grid scrolls, a look-ahead
  window twice the viewport's height is compared with the previous window. The
  rows that became visible are cached and the rows that went away are
  released. This only happens once the window's middle has moved more than a
  third of the viewport height. The image manager is a log of requests, so the
  order of the requests is part of each contract.
- **The crop area** (`Cropable`). The image is centred while it is smaller
  than the scroll view. It is zoomed to fit between a fitted minimum and 4.
  The grid of lines is shown while zooming.
- **Small helpers.** `IndexSet.indexPaths(from:)` and the flash button's
  three-mode cycle on the capture screen.

`CGFloat` is `real`. The panel's frame is taken to start at the constraint
constant (`frame.minY == constant`), so its middle is `constant + height / 2`.

## Model

| member | source | states |
|---|---|---|
| FloatingLayout.Direction.Changed | Source/FloatingViewLayout.swift:51-59 | the result keeps the case (Up, Down or None) and, for Up and Down, carries the new delta |
| FloatingLayout.DirectionFor | Source/FloatingViewLayout.swift:161-169 | Up iff velocity.y < 0, Down iff velocity.y > 0, None iff velocity.y == 0; Up and Down carry the delta unchanged |
| FloatingLayout.ClosestState | Source/FloatingViewLayout.swift:171-177 | Folded iff the panel's midY is at most 0, Unfolded otherwise |
| FloatingLayout.CrossedEnough | Source/FloatingViewLayout.swift:309-317 | for Down, true iff midY >= 0; for Up, true iff midY <= 0; for None, false |
| FloatingLayout.Progress | Source/FloatingViewLayout.swift:283-284 | the overlay alpha is min(0.6, abs(constant) / (height - visibleArea)), so it lies in [0, 0.6] |
| FloatingLayout.StateOf | Example/Athlee-ImagePicker/Athlee-ImagePicker/CropViewController.swift:58-66 | the host's state, from the constant alone: Unfolded exactly at 0, Folded only at the folded constant, Moved only away from both rest positions |
| FloatingLayout.StateOfRestPositions | Example/Athlee-ImagePicker/Athlee-ImagePicker/CropViewController.swift:58-66 | Unfolded iff the constant is 0, Folded iff it is the folded constant, Moved iff it is neither; exactly one holds |
| FloatingLayout.MoveRejected | Source/FloatingViewLayout.swift:259-270 | the guards of move reject only an Up or Down move whose new constant would lie outside [folded constant, 0] |
| FloatingLayout.MoveSpec | Source/FloatingViewLayout.swift:256-300 | move keeps the remembered touch, the pan-outside flag and the completion, only appends hook calls, and either changes nothing or leaves the overlay alpha in [0, 0.6] |
| FloatingLayout.RestoreSpec | Source/FloatingViewLayout.swift:221-248 | restore keeps the remembered touch, the pan-outside flag and the completion, only appends hook calls, and when animated sets the overlay alpha to 0 or 0.6 |
| FloatingLayout.SnapTarget | Source/FloatingViewLayout.swift:366-382 | the state an ended pan restores to is never Moved |
| FloatingLayout.TrackSpec | Source/FloatingViewLayout.swift:349-361 | the move step of a tracked sample remembers the new touch, keeps the pan-outside flag and the completion, and only appends hook calls |
| FloatingLayout.ReceivePan | Source/FloatingViewLayout.swift:325-385 | handling a sample keeps the pan-outside flag and the completion and only appends hook calls; a Began sample never moves the panel nor calls a hook |
| FloatingLayout.RejectedMoveChangesNothing | Source/FloatingViewLayout.swift:256-270 | an Up move that would lift the bottom edge above the visible area, or a Down move past 0, changes nothing: no constant, no overlay, no hook call |
| FloatingLayout.AcceptedMove | Source/FloatingViewLayout.swift:256-287 | an accepted move adds exactly the delta (None adds nothing), sets the overlay to min(0.6, abs(constant) / travel), and calls prepareForMovement (not for None) and then didEndMoving; the touch memory and pan-outside flag are kept |
| FloatingLayout.MoveKeepsRange | Source/FloatingViewLayout.swift:256-276 | from a constant between the folded constant and 0, a move whose delta has its direction's sign keeps the constant in that range |
| FloatingLayout.MoveAllKeepsRange | Source/FloatingViewLayout.swift:256-276 | any run of such moves keeps the constant in range |
| FloatingLayout.UpMoveWithDownwardDeltaLeavesRange | Source/FloatingViewLayout.swift:256-265 | the direction comes from the velocity: an Up move with a positive delta on an unfolded panel is accepted and leaves the range (constant 10) |
| FloatingLayout.StaleTouchOutlivesRestingEnd | Source/FloatingViewLayout.swift:334-364 | the touch is forgotten only when an ended pan snaps: after a pan that ends unfolded at its touch, a Began above the dragging zone is ignored, yet the next Changed sample is tracked from the old touch and moves the panel to -90 |
| FloatingLayout.MoveOverlayBounded | Source/FloatingViewLayout.swift:279-285 | after any accepted move the overlay exists and its alpha lies in [0, 0.6] |
| FloatingLayout.RestoreReachesTarget | Source/FloatingViewLayout.swift:221-248 | restore puts the constant at 0 for Unfolded and at the folded constant for Folded, and keeps it for Moved; when animated the overlay goes to 0 if the result is Unfolded and to 0.6 otherwise, then didEndMoving and the installed completion each run once; without animation no hook runs |
| FloatingLayout.BeganOutsideZoneIgnored | Source/FloatingViewLayout.swift:334-338 | a Began sample above the dragging zone (location.y < maxY - zone height) changes nothing |
| FloatingLayout.BeganRemembersTouch | Source/FloatingViewLayout.swift:340-343 | any other Began sample only remembers the touch |
| FloatingLayout.UntrackedSampleIgnored | Source/FloatingViewLayout.swift:345-347 | a later sample with no remembered touch changes nothing |
| FloatingLayout.TrackedSampleMoves | Source/FloatingViewLayout.swift:349-361 | a Changed or Cancelled sample remembers the new touch and moves the panel exactly when the touch is inside the frame, or the direction is Down on a Moved panel, or panning outside is allowed; it never snaps |
| FloatingLayout.EndedSampleComesToRest | Source/FloatingViewLayout.swift:363-383 | an Ended sample with a remembered touch always leaves the panel at rest; if its move left the panel Moved, the touch is forgotten and the panel snaps to the snap target computed after the move; otherwise nothing more happens |
| FloatingLayout.SnapTargetRule | Source/FloatingViewLayout.swift:366-382 | fast (abs(v.y) >= 1000) or crossed enough: Up goes to Folded and Down to Unfolded; otherwise Up goes back to Unfolded and Down to Folded; None goes to the closest state; never Moved |
| FloatingLayout.FastReleaseFollowsVelocity | Source/FloatingViewLayout.swift:363-370 | a fast upward release of a moved panel folds it and a fast downward one unfolds it, wherever it is |
| FloatingLayout.ReceivePanKeepsOverlayInRange | Source/FloatingViewLayout.swift:325-385 | handling any sample keeps the overlay alpha in [0, 0.6] |
| FloatingLayout.ReceiveAll | Source/FloatingViewLayout.swift:325-385 | a pan handled sample by sample only appends hook calls |
| FloatingLayout.ReceivePanKeepsTouchedWhileMoved | Source/FloatingViewLayout.swift:325-385 | handling a sample never leaves the panel Moved without a remembered touch, if it was not so before |
| FloatingLayout.ReceiveAllKeepsTouchedWhileMoved | Source/FloatingViewLayout.swift:325-385 | the same for any run of samples, so it holds on every layout the gestures reach from an unfolded panel |
| FloatingLayout.EndedSampleAlwaysComesToRest | Source/FloatingViewLayout.swift:345-383 | on such a layout every Ended sample leaves the panel at rest, with or without a remembered touch |
| CropController.CropViewController.constructor | Example/Athlee-ImagePicker/Athlee-ImagePicker/CropViewController.swift:52-68 | the host's configuration: 50 points stay visible, pans begin in the bottom 50 points; the panel starts unfolded, with no touch, no overlay and panning outside off |
| CropController.CropViewController.UpdateCropViewScrolling | Example/Athlee-ImagePicker/Athlee-ImagePicker/CropViewController.swift:155-161 | the crop view takes touches iff the panel is Unfolded |
| CropController.CropViewController.PrepareForMovement | Example/Athlee-ImagePicker/Athlee-ImagePicker/CropViewController.swift:147-149 | records the hook call; afterwards the crop view takes touches iff the panel is Unfolded |
| CropController.CropViewController.DidEndMoving | Example/Athlee-ImagePicker/Athlee-ImagePicker/CropViewController.swift:151-153 | records the hook call; afterwards the crop view takes touches iff the panel is Unfolded |
| CropController.CropViewController.SetAnimationCompletion | Example/Athlee-ImagePicker/Athlee-ImagePicker/CropViewController.swift:45 | installs or clears the animation completion |
| CropController.CropViewController.RunAnimationCompletion | Source/FloatingViewLayout.swift:242-245 | the completion runs with `finished` only when one is installed |
| CropController.CropViewController.Move | Source/FloatingViewLayout.swift:256-300 | the new panel state is MoveSpec of the old one; the crop view's interaction is left alone by a rejected move and otherwise follows the state |
| CropController.CropViewController.Restore | Source/FloatingViewLayout.swift:221-248 | the new panel state is RestoreSpec of the old one; an animated restore leaves the crop view taking touches iff Unfolded |
| CropController.CropViewController.Track | Source/FloatingViewLayout.swift:349-361 | the move step of a sample with a remembered touch: the direction comes from the velocity and the touch distance, and the new panel state is TrackSpec of the old one |
| CropController.CropViewController.Snap | Source/FloatingViewLayout.swift:363-383 | the snap step of an Ended sample: the touch is forgotten and the panel is restored, animated, to the snap target; afterwards the crop view takes touches iff Unfolded |
| CropController.CropViewController.ReceivePanGesture | Source/FloatingViewLayout.swift:325-385 | the new panel state is ReceivePan of the old one; the crop view's interaction changes only when a hook ran, and then follows the state |
| CropController.CropViewController.DidRecognizeTap | Example/Athlee-ImagePicker/Athlee-ImagePicker/CropViewController.swift:112-116 | a tap on a Folded panel restores it to Unfolded with animation and enables the crop view; in any other state nothing changes |
| CropController.CropViewController.SetOffset | Example/Athlee-ImagePicker/Athlee-ImagePicker/CropViewController.swift:120-126 | a negative offset assigned while the panel is Moved becomes 0; any other value is kept |
| CropController.CropViewController.UpdatePhotoCollectionViewScrolling | Example/Athlee-ImagePicker/Athlee-ImagePicker/CropViewController.swift:163-169 | while Moved the grid is held at `offset`; otherwise `offset` takes the grid's offset (through the clamping setter) |
| CropController.CropViewController.DidRecognizeMainPan | Example/Athlee-ImagePicker/Athlee-ImagePicker/CropViewController.swift:128-138 | while zooming nothing changes; otherwise an Unfolded panel first turns panning outside off, the sample is handled as ReceivePan says, and the grid offset is synchronised; the crop view takes touches iff the panel is Unfolded whenever a hook ran, and keeps its setting otherwise |
| CropController.CropViewController.DidRecognizeCheckPan | Example/Athlee-ImagePicker/Athlee-ImagePicker/CropViewController.swift:140-143 | panning outside is turned on unless zooming |
| CropController.CropViewController.WillZoom | Example/Athlee-ImagePicker/Athlee-ImagePicker/CropViewController.swift:173-175 | zooming becomes true |
| CropController.CropViewController.WillEndZooming | Example/Athlee-ImagePicker/Athlee-ImagePicker/CropViewController.swift:177-179 | zooming becomes false |
| CropController.CropViewController.ViewDidAppear | Example/Athlee-ImagePicker/Athlee-ImagePicker/CropViewController.swift:85-104 | the crop content is fitted and centred; the recognizers are installed on the first appearance only |
| CropController.DragFoldsAndTapUnfolds | Source/FloatingViewLayout.swift:325-385 | on the crop screen's panel, a touch in the dragging zone, a 90-point drag up and a fast upward release fold the panel and forget the touch; an animated restore to Unfolded brings it back with the overlay at 0 |
| CropController.FoldAndTapBack | Example/Athlee-ImagePicker/Athlee-ImagePicker/CropViewController.swift:112-116 | after a drag that folds the panel and a tap that unfolds it, the crop view takes touches again |
| RectDifference.ExclusiveOr | Source/CGRect.swift:18-42 | the array built step by step is exactly the strips of `rect` outside `base`, bottom strip first |
| RectDifference.Strips | Source/CGRect.swift:18-42 | at most two strips, each of positive height and as wide as `rect` |
| RectDifference.StripsShape | Source/CGRect.swift:18-41 | at most two strips; the bottom strip is present iff rect.maxY > base.maxY and spans base.maxY to rect.maxY; the top strip is present iff base.minY > rect.minY and spans rect.minY to base.minY; each has positive height, rect's width and x = max(rect.x, base.x) |
| RectDifference.StripsOutsideBase | Source/CGRect.swift:21-39 | no strip shares a row with `base` |
| RectDifference.StripsAreRowDifference | Source/CGRect.swift:18-41 | for overlapping rects the strips cover exactly the rows of `rect` that are not rows of `base` |
| RectDifference.DifferenceWith | Source/CGRect.swift:44-53 | at most four entries, at least two for rects that do not overlap, and no Added entry after a Removed one |
| RectDifference.DifferenceOfDisjoint | Source/CGRect.swift:44-47 | rects that do not overlap give exactly [Added(rect), Removed(base)] |
| RectDifference.DifferenceOfOverlapping | Source/CGRect.swift:49-52 | overlapping rects give at most two Added entries from base.exclusiveOr(rect), in order, then at most two Removed entries from rect.exclusiveOr(base); no Added entry follows a Removed one |
| RectDifference.DifferenceIsRowXor | Source/CGRect.swift:44-52 | for overlapping rects the Added areas cover exactly the new rows and the Removed areas exactly the rows that are gone |
| RectDifference.DifferenceWithItself | Source/CGRect.swift:44-52 | a rect of positive area differenced with itself gives the empty list |
| RectDifference.DifferenceExample | Source/CGRect.swift:18-52 | (0,0,100,300) differenced with (0,150,100,300) is [Added((0,300,100,150)), Removed((0,0,100,150))] |
| PhotoCaching.PreheatRect | Source/PhotoCachable.swift:62-63 | the preheat rect keeps x and width, is twice as tall as the viewport and has its midY |
| PhotoCaching.MovedEnough | Source/PhotoCachable.swift:64-66 | the hysteresis test compares the viewport's own middle with the recorded window's middle against a third of the viewport height |
| PhotoCaching.AddedAssets | Source/PhotoCachable.swift:72-78 | a difference without Added entries gives an empty start list |
| PhotoCaching.RemovedAssets | Source/PhotoCachable.swift:72-78 | a difference without Removed entries gives an empty stop list |
| PhotoCaching.AddedAssetsFromAddedAreas | Source/PhotoCachable.swift:72-78 | every asset of the start list belongs to some Added area |
| PhotoCaching.RemovedAssetsFromRemovedAreas | Source/PhotoCachable.swift:72-78 | every asset of the stop list belongs to some Removed area |
| PhotoCaching.CollectAssets | Source/PhotoCachable.swift:69-78 | the lists built by the loop over the difference are exactly the start list and the stop list, each in the difference's order |
| PhotoCaching.PreheatRectShape | Source/PhotoCachable.swift:62-63 | the preheat rect keeps x and width, starts half a height higher, is twice as tall and has the viewport's midY |
| PhotoCaching.SameViewportNotMovedEnough | Source/PhotoCachable.swift:63-66 | a window recorded for a viewport is never far enough from the same viewport to recompute |
| PhotoCaching.AddedAssetsOfTagged | Source/PhotoCachable.swift:72-78 | the start list of Added entries followed by Removed entries is the concatenation of the assets of the Added areas, in order |
| PhotoCaching.RemovedAssetsOfTagged | Source/PhotoCachable.swift:72-78 | the stop list of Added entries followed by Removed entries is the concatenation of the assets of the Removed areas, in order |
| PhotoCaching.UpdateRequestsAreStrips | Source/PhotoCachable.swift:67-78 | without overlap the start list is the whole new window's assets and the stop list the whole old window's; with overlap they are the assets of the new strips and of the gone strips |
| PhotoCaching.AssetsAt | Source/PhotoCachable.swift:106-114 | no paths give no assets; otherwise one asset per path, the fetch result's entry at the path's item, in order |
| PhotoCaching.PhotoCache.constructor | Example/Athlee-ImagePicker/Athlee-ImagePicker/PhotoViewController.swift:34 | the recorded window starts as the zero rect, with no request issued |
| PhotoCaching.PhotoCache.ResetCachedAssets | Source/PhotoCachable.swift:50-53 | one stop-all request is issued and the recorded window becomes the zero rect |
| PhotoCaching.PhotoCache.UpdateCachedAssets | Source/PhotoCachable.swift:61-93 | when the window's middle moved more than a third of the viewport height: exactly one start request for the Added assets, then one stop request for the Removed assets, both at the target size, and the new window is recorded; otherwise no request and no change |
| PhotoCaching.ResetTwice | Source/PhotoCachable.swift:50-53 | two resets leave the recorded window where one reset leaves it |
| PhotoCaching.UpdateTwice | Source/PhotoCachable.swift:61-93 | the first update does what UpdateCachedAssets promises, and the second update for the same viewport issues no request and keeps the recorded window |
| Cropping.CenteredFrame | Source/Cropable.swift:149-166 | the centred frame keeps the child's size and has a non-negative origin |
| Cropping.FitScale | Source/Cropable.swift:127-132 | at the chosen scale the child fits inside the superview on both axes |
| Cropping.LinesAlpha | Source/Cropable.swift:201-214 | the lines' alpha is 1 exactly when highlighting and 0 exactly when not |
| Cropping.CenteredOrigin | Source/Cropable.swift:153-163 | a child shorter than the bounds gets equal positive margins on both sides; otherwise it starts at 0 |
| Cropping.CenteredFrameProperties | Source/Cropable.swift:149-166 | centring changes only the origin, never makes it negative, gives a narrower or shorter child equal margins, puts a wider or taller one at 0, and centring twice is centring once |
| Cropping.FitScaleFits | Source/Cropable.swift:127-132 | at the chosen scale the child fits inside the superview and fills it along at least one axis |
| Cropping.CropArea.constructor | Source/Cropable.swift:87-92 | the content size is the container's size, the still empty child is added, and the scroll view's defaults hold |
| Cropping.CropArea.CenterContent | Source/Cropable.swift:149-166 | the child frame becomes its centred frame |
| Cropping.CropArea.UpdateContent | Source/Cropable.swift:127-144 | interaction is enabled, the minimum and current zoom are the fitting scale, the maximum is 4, and the child is centred |
| Cropping.CropArea.HighlightArea | Source/Cropable.swift:190-216 | nothing without a key window; the first call inserts the lines with alpha 0 whatever is asked; later calls set alpha 1 when highlighting and 0 otherwise |
| Cropping.CropArea.DidZoom | Source/Cropable.swift:171-174 | centres the child, then highlights |
| Cropping.CropArea.DidEndZooming | Source/Cropable.swift:179-181 | hides the lines |
| Cropping.CropArea.AddImage | Source/Cropable.swift:112-118 | the child and the content size take the image's size, the zoom is fitted, the child is centred, and the lines end hidden |
| IndexSets.LeastMemberExists | Source/NSIndexSet.swift:16-18 | every non-empty index set has a least member, the one an ascending walk visits next |
| IndexSets.IndexPathsFrom | Source/NSIndexSet.swift:12-21 | one path per member, all in the given section, items strictly ascending and exactly the set's members; the empty set gives no paths |
| Capture.NextFlashMode | Example/Athlee-ImagePicker/Athlee-ImagePicker/CaptureViewController.swift:105-114 | a press always changes the mode |
| Capture.NextFlashModeCycles | Example/Athlee-ImagePicker/Athlee-ImagePicker/CaptureViewController.swift:106-113 | three presses bring back the starting mode after visiting the other two |
| Capture.FlashIcon | Example/Athlee-ImagePicker/Athlee-ImagePicker/CaptureViewController.swift:49-56 | the icon is "Flash" exactly for On, "FlashOff" exactly for Off and "FlashAuto" exactly for Auto |
| Capture.FlashIconsDistinct | Example/Athlee-ImagePicker/Athlee-ImagePicker/CaptureViewController.swift:49-56 | different modes show different icons |
| Capture.CaptureViewController.constructor | Example/Athlee-ImagePicker/Athlee-ImagePicker/CaptureViewController.swift:47 | the flash mode starts On, with no device yet |
| Capture.CaptureViewController.SetFlashMode | Example/Athlee-ImagePicker/Athlee-ImagePicker/CaptureViewController.swift:47-60 | the icon becomes "Flash", "FlashOff" or "FlashAuto" for On, Off or Auto, then the mode is passed to the device |
| Capture.CaptureViewController.DidPressFlashButton | Example/Athlee-ImagePicker/Athlee-ImagePicker/CaptureViewController.swift:105-114 | Auto becomes On, On becomes Off, Off becomes Auto, with the icon and device update of an assignment |
| Capture.CaptureViewController.DidSetFlashMode | Example/Athlee-ImagePicker/Athlee-ImagePicker/CaptureViewController.swift:119-121 | the same effects as assigning the mode |
| Capture.CaptureViewController.SetDevice | Example/Athlee-ImagePicker/Athlee-ImagePicker/CaptureViewController.swift:23-29 | a device without a flash hides the button; a device with one, or no device, leaves the button as it was |
| Capture.PressThreeTimes | Example/Athlee-ImagePicker/Athlee-ImagePicker/CaptureViewController.swift:105-114 | three presses return the mode to where it started and the icon then shows that mode (so it is back where it started when it showed the mode to begin with), passing the next mode, the one after it and the starting mode to the device, in that order; the device and the button's visibility are left alone |

## Left out

- The code is followed, not the intent suggested by its commented-out `restore` calls: an overshooting move is dropped, not clamped. A Cancelled sample is handled like Changed, and only an Ended sample that leaves the panel Moved snaps and forgets the touch, so a pan that ends at rest leaves its touch for the next pan to be tracked from (`FloatingLayout.StaleTouchOutlivesRestingEnd`). The direction comes from the sign of the velocity, so the range bound holds only for moves whose delta has the same sign (`FloatingLayout.UpMoveWithDownwardDeltaLeavesRange` shows a move that leaves it).
- `FloatingLayout.MoveKeepsRange`: requires the delta's sign to agree with the direction, because the code does not guarantee the range otherwise.
- The panel's frame is taken to start at the constraint constant. Layout passes that would let the frame lag behind the constant are not modelled.
- Animations run to completion at once: the animated `restore` sets the overlay, then calls `didEndMoving` and the installed completion with `finished == true`. Durations, easing and interruption are not modelled. The animated lines fade ends at the same alpha as the immediate one.
- `prepareOverlayBlurringViews` and the Auto Layout setup of `addCropable` are not modelled beyond their effect: the overlay exists from the first move or animated restore (`overlayAlpha` is `None` before that).
- The `print("Direction is not found yet!")` call in `move` is left out.
- `CropController.CropViewController.ReceivePanGesture`: the guard on a recognizer without a view (`assertionFailure`) is not modelled; samples always come from an attached recognizer. The recognizer phases that deliver no sample (Possible, Failed) are not modelled.
- `Cropping.CropArea.UpdateContent`: requires a child with positive width and height. Reals have no infinity or NaN, and the code divides by the child's size before any image is set.
- `Cropping.CropArea.AddImage`: requires an image of positive size, for the same reason. `sizeToFit` is taken to keep the child's origin and set its size to the image's size.
- `CropController.CropViewController.ViewDidAppear`: requires a child of positive size, for the same reason. The gesture recognizers themselves are only recorded by a flag.
- `Cropping.FitScaleFits`: holds for the reals; floating-point rounding of CGFloat is not modelled anywhere.
- The lines view's frame computed in `highlightArea` (the intersection of the visible rect with the child) is not modelled, nor `setNeedsDisplay`. The scroll view's own reaction to a new zoom scale (rescaling the child frame) and the delegate assignment in `updateContent` are not modelled.
- `PhotoCaching.PhotoCache.UpdateCachedAssets`: requires a viewport of non-negative width and height. The grid's bounds always have one, and `insetBy` on a rect of negative height would first standardize it, which the model does not do.
- `CGRect.intersects` is modelled as an overlap of positive area. Rects that only touch, and zero-size rects such as `CGRect.zero`, intersect nothing. This is an assumption about CoreGraphics.
- `PhotoCaching.AssetsAt`: requires every item to be inside the fetch result. The code traps otherwise.
- The caching image manager is a log of requests. `contentMode` and `options` are left out. `cachingAssets(at:)` (the collection view's layout query) is a function passed in by the caller. The `as! PHAsset` cast is left out.
- `Capture.CaptureViewController.SetFlashMode`: the device configuration done by `setFlashMode` is not modelled; each mode passed on is recorded in a log. The icon is its image name.
- Not modelled: AVFoundation capture and notifications (Capturable.swift, PhotoCapturable.swift, CaptureNotificationObserver.swift) are framework wrappers with concurrency. Trigonometric numerics (CGAffineTransform.swift, Radians.swift) are floating-point. Rendering and snapshotting (LinesView.swift, UIView.swift) are drawing. The layout query (UICollectionView.swift) is the function passed to the cache. The Photos change callback (CollectionViewChangeObserver.swift) runs on the main queue. PhotoFetchable.swift, ContainerType.swift and CropableScrollViewDelegate.swift only declare protocols or forward calls. The other view controllers only wire views together.
