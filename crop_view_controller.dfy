// The crop screen of the example app: the host of the floating panel (its
// state getter, hooks and gesture handlers) together with the panel's default
// move/restore/receivePan implementations, carried out step by step on the
// controller's own fields and proved against FloatingLayout's functions.

module CropController {
  import opened Geometry
  import Optionals
  import opened FloatingLayout
  import Cropping

  /** The panel configuration the crop screen installs: 50 points stay visible, pans begin in the bottom 50 points. */
  function HostPanel(height: real, x: real, width: real): Panel {
    Panel(height, 50.0, DraggingZone.Some(50.0), x, width)
  }

  class CropViewController {
    const panel: Panel
    const crop: Cropping.CropArea

    var constant: real                               // topConstraint.constant
    var previousPoint: Optionals.Option<Point>
    var allowPanOutside: bool
    var overlayAlpha: Optionals.Option<real>         // None while overlayBlurringView is nil
    var hasCompletion: bool                          // animationCompletion != nil
    var hooks: seq<Hook>                             // calls into the host's hooks, in order
    var zooming: bool
    var offset: real
    var collectionOffsetY: real                      // the photo grid's contentOffset.y
    var recognizersAdded: bool

    /** The fields the panel's default implementations read and write, as one value. */
    function Snapshot(): Layout
      reads this
    {
      Layout(constant, previousPoint, allowPanOutside, overlayAlpha, hasCompletion, hooks)
    }

    /** The `state` getter. */
    function CurrentState(): State
      reads this
    {
      StateOf(panel, constant)
    }

    /** The crop screen with an unfolded panel of the given frame and a grid scrolled to `gridOffsetY`. */
    constructor (height: real, x: real, width: real, cropArea: Cropping.CropArea, gridOffsetY: real)
      requires height > 50.0 && width >= 0.0
      ensures panel == HostPanel(height, x, width) && panel.Valid() && crop == cropArea
      ensures Snapshot() == Layout(0.0, Optionals.None, false, Optionals.None, false, [])
      ensures !zooming && offset == 0.0 && collectionOffsetY == gridOffsetY && !recognizersAdded
    {
      panel := HostPanel(height, x, width);
      crop := cropArea;
      constant := 0.0;
      previousPoint := Optionals.None;
      allowPanOutside := false;
      overlayAlpha := Optionals.None;
      hasCompletion := false;
      hooks := [];
      zooming := false;
      offset := 0.0;
      collectionOffsetY := gridOffsetY;
      recognizersAdded := false;
    }

    /** Installing or clearing `animationCompletion`. */
    method SetAnimationCompletion(installed: bool)
      modifies this`hasCompletion
      ensures hasCompletion == installed
    {
      hasCompletion := installed;
    }

    /** `updateCropViewScrolling`: the crop view takes touches only while the panel is unfolded. */
    method UpdateCropViewScrolling()
      modifies crop`interactionEnabled
      ensures crop.interactionEnabled == (CurrentState() == Unfolded)
    {
      if CurrentState() == Folded || CurrentState() == Moved {
        crop.interactionEnabled := false;
      } else {
        crop.interactionEnabled := true;
      }
    }

    method PrepareForMovement()
      modifies this`hooks, crop`interactionEnabled
      ensures hooks == old(hooks) + [Hook.PrepareForMovement]
      ensures crop.interactionEnabled == (CurrentState() == Unfolded)
    {
      hooks := hooks + [Hook.PrepareForMovement];
      UpdateCropViewScrolling();
    }

    method DidEndMoving()
      modifies this`hooks, crop`interactionEnabled
      ensures hooks == old(hooks) + [Hook.DidEndMoving]
      ensures crop.interactionEnabled == (CurrentState() == Unfolded)
    {
      hooks := hooks + [Hook.DidEndMoving];
      UpdateCropViewScrolling();
    }

    /** The installed `animationCompletion`, if any, called with `finished`. */
    method RunAnimationCompletion(finished: bool)
      modifies this`hooks
      ensures hooks == old(hooks) + (if hasCompletion then [AnimationCompletion(finished)] else [])
    {
      if hasCompletion {
        hooks := hooks + [AnimationCompletion(finished)];
      }
    }

    /** `move(view:in:)`, proved to do what MoveSpec says. */
    method Move(dir: Direction)
      requires panel.Valid()
      modifies this`constant, this`overlayAlpha, this`hooks, crop`interactionEnabled
      ensures Snapshot() == MoveSpec(panel, old(Snapshot()), dir)
      ensures crop.interactionEnabled ==
        if MoveRejected(panel, old(constant), dir) then old(crop.interactionEnabled) else CurrentState() == Unfolded
    {
      match dir {
        case Up(delta) =>
          if !(constant + panel.height + delta >= panel.visibleArea) {
            return;
          }
          PrepareForMovement();
          constant := constant + delta;
        case Down(delta) =>
          if !(constant + delta <= 0.0) {
            return;
          }
          PrepareForMovement();
          constant := constant + delta;
        case None =>
      }
      var progress := Abs(constant / -(panel.height - panel.visibleArea));
      progress := if progress > 0.6 then 0.6 else progress;
      overlayAlpha := Optionals.Some(progress);
      DidEndMoving();
    }

    /**
     * `restore(view:to:animated:)`, proved to do what RestoreSpec says; the
     * animation's block and completion run at once.
     */
    method Restore(target: FloatingLayout.State, animated: bool)
      requires panel.Valid()
      modifies this`constant, this`overlayAlpha, this`hooks, crop`interactionEnabled
      ensures Snapshot() == RestoreSpec(panel, old(Snapshot()), target, animated)
      ensures crop.interactionEnabled == if animated then CurrentState() == Unfolded else old(crop.interactionEnabled)
    {
      if target == Unfolded {
        constant := 0.0;
      } else if target == Folded {
        constant := -(panel.height - panel.visibleArea);
      }
      if animated {
        overlayAlpha := Optionals.Some(if CurrentState() == Unfolded then 0.0 else 0.6);
        DidEndMoving();
        RunAnimationCompletion(true);
      }
    }

    /** The move step of `receivePanGesture` for a sample with a remembered touch, proved to do what TrackSpec says. */
    method Track(s: PanSample) returns (direction: Direction)
      requires panel.Valid() && previousPoint.Some?
      modifies this`constant, this`previousPoint, this`overlayAlpha, this`hooks, crop`interactionEnabled
      ensures direction == SampleDirection(old(Snapshot()), s)
      ensures Snapshot() == TrackSpec(panel, old(Snapshot()), s)
      ensures |hooks| == |old(hooks)| ==> crop.interactionEnabled == old(crop.interactionEnabled)
      ensures |hooks| > |old(hooks)| ==> crop.interactionEnabled == (CurrentState() == Unfolded)
    {
      var delta := s.location.y - previousPoint.value.y;
      direction := DirectionFor(s.velocity, delta);
      previousPoint := Optionals.Some(s.location);

      if panel.Frame(constant).Contains(s.location) {
        Move(direction);
      } else {
        if direction.Down? && CurrentState() == Moved {
          Move(direction);
        } else if allowPanOutside {
          Move(direction);
        }
      }
    }

    /** The snap step of `receivePanGesture` for an Ended sample that left the panel Moved. */
    method Snap(direction: Direction, velocity: Point)
      requires panel.Valid()
      modifies this`constant, this`previousPoint, this`overlayAlpha, this`hooks, crop`interactionEnabled
      ensures Snapshot() == RestoreSpec(panel, old(Snapshot()).(previousPoint := Optionals.None),
        SnapTarget(panel, old(constant), direction, velocity), true)
      ensures crop.interactionEnabled == (CurrentState() == Unfolded)
    {
      previousPoint := Optionals.None;
      var target: FloatingLayout.State;
      if Abs(velocity.y) >= 1000.0 || CrossedEnough(panel, constant, direction) {
        if direction.Up? {
          target := Folded;
        } else if direction.Down? {
          target := Unfolded;
        } else {
          target := ClosestState(panel, constant);
        }
      } else {
        if direction.Up? {
          target := Unfolded;
        } else if direction.Down? {
          target := Folded;
        } else {
          target := ClosestState(panel, constant);
        }
      }
      Restore(target, true);
    }

    /** `receivePanGesture(recognizer:with:)` for one sample, proved to do what ReceivePan says. */
    method ReceivePanGesture(s: PanSample)
      requires panel.Valid()
      modifies this`constant, this`previousPoint, this`overlayAlpha, this`hooks, crop`interactionEnabled
      ensures Snapshot() == ReceivePan(panel, old(Snapshot()), s)
      ensures |hooks| == |old(hooks)| ==> crop.interactionEnabled == old(crop.interactionEnabled)
      ensures |hooks| > |old(hooks)| ==> crop.interactionEnabled == (CurrentState() == Unfolded)
    {
      if s.phase == Began && panel.draggingZone.Some? {
        if s.location.y < panel.Frame(constant).MaxY() - panel.draggingZone.height {
          return;
        }
      }
      if s.phase == Began {
        previousPoint := Optionals.Some(s.location);
        return;
      }
      if previousPoint.None? {
        return;
      }
      var direction := Track(s);
      if s.phase == Ended && CurrentState() == Moved {
        Snap(direction, s.velocity);
      }
    }

    // -------------------------------------------------------------------------
    // The crop screen's own handlers

    /** `didRecognizeTap(_:)`: a tap on a folded panel unfolds it, animated; otherwise nothing happens. */
    method DidRecognizeTap()
      requires panel.Valid()
      modifies this`constant, this`overlayAlpha, this`hooks, crop`interactionEnabled
      ensures old(CurrentState()) == Folded ==> Snapshot() == RestoreSpec(panel, old(Snapshot()), Unfolded, true)
      ensures old(CurrentState()) == Folded ==> CurrentState() == Unfolded && crop.interactionEnabled
      ensures old(CurrentState()) != Folded ==> Snapshot() == old(Snapshot()) && crop.interactionEnabled == old(crop.interactionEnabled)
    {
      if CurrentState() == Folded {
        Restore(Unfolded, true);
      }
    }

    /** The `offset` property with its didSet: a negative offset while the panel is moved becomes 0. */
    method SetOffset(newValue: real)
      modifies this`offset
      ensures offset == if newValue < 0.0 && CurrentState() == Moved then 0.0 else newValue
    {
      offset := newValue;
      if offset < 0.0 && CurrentState() == Moved {
        offset := 0.0;
      }
    }

    /**
     * `updatePhotoCollectionViewScrolling`: while the panel is moved the grid
     * is held at `offset`; otherwise `offset` follows the grid.
     */
    method UpdatePhotoCollectionViewScrolling()
      modifies this`offset, this`collectionOffsetY
      ensures CurrentState() == Moved ==> collectionOffsetY == old(offset) && offset == old(offset)
      ensures CurrentState() != Moved ==> offset == old(collectionOffsetY) && collectionOffsetY == old(collectionOffsetY)
    {
      if CurrentState() == Moved {
        collectionOffsetY := offset;
      } else {
        SetOffset(collectionOffsetY);
      }
    }

    /**
     * `didRecognizeMainPan(_:)`: ignored while zooming; otherwise an unfolded
     * panel first forbids panning outside, the sample goes to the panel, and
     * the grid offset is synchronised.
     */
    method DidRecognizeMainPan(s: PanSample)
      requires panel.Valid()
      modifies this`constant, this`previousPoint, this`overlayAlpha, this`hooks, this`allowPanOutside,
        this`offset, this`collectionOffsetY, crop`interactionEnabled
      ensures old(zooming) ==>
        && Snapshot() == old(Snapshot()) && offset == old(offset)
        && collectionOffsetY == old(collectionOffsetY) && crop.interactionEnabled == old(crop.interactionEnabled)
      ensures !old(zooming) ==> Snapshot() == ReceivePan(panel,
        old(Snapshot()).(allowPanOutside := old(CurrentState()) != Unfolded && old(allowPanOutside)), s)
      ensures !old(zooming) && CurrentState() == Moved ==> collectionOffsetY == old(offset) && offset == old(offset)
      ensures !old(zooming) && CurrentState() != Moved ==> offset == old(collectionOffsetY) && collectionOffsetY == old(collectionOffsetY)
      ensures !old(zooming) && |hooks| == |old(hooks)| ==> crop.interactionEnabled == old(crop.interactionEnabled)
      ensures !old(zooming) && |hooks| > |old(hooks)| ==> crop.interactionEnabled == (CurrentState() == Unfolded)
    {
      if zooming {
        return;
      }
      if CurrentState() == Unfolded {
        allowPanOutside := false;
      }
      ReceivePanGesture(s);
      UpdatePhotoCollectionViewScrolling();
    }

    /** `didRecognizeCheckPan(_:)`: a pan on the panel itself allows panning outside, unless zooming. */
    method DidRecognizeCheckPan()
      modifies this`allowPanOutside
      ensures allowPanOutside == (old(allowPanOutside) || !zooming)
    {
      if zooming {
        return;
      }
      allowPanOutside := true;
    }

    method WillZoom()
      modifies this`zooming
      ensures zooming
    {
      zooming := true;
    }

    method WillEndZooming()
      modifies this`zooming
      ensures !zooming
    {
      zooming := false;
    }

    /**
     * `viewDidAppear(_:)`: fits the crop content, then installs the main pan,
     * check pan and tap recognizers the first time only.
     */
    method ViewDidAppear() returns (installed: bool)
      requires crop.childBoundsSize.width > 0.0 && crop.childBoundsSize.height > 0.0
      modifies this`recognizersAdded, crop`interactionEnabled, crop`minimumZoomScale,
        crop`maximumZoomScale, crop`zoomScale, crop`childFrame
      ensures installed == !old(recognizersAdded) && recognizersAdded
      ensures crop.interactionEnabled && crop.maximumZoomScale == Cropping.MaximumZoom
      ensures crop.minimumZoomScale == crop.zoomScale == Cropping.FitScale(crop.superviewSize, crop.childBoundsSize)
      ensures crop.childFrame == Cropping.CenteredFrame(crop.boundsSize, old(crop.childFrame))
    {
      crop.UpdateContent();
      installed := !recognizersAdded;
      if !recognizersAdded {
        recognizersAdded := true;
      }
    }
  }

  /**
   * On the crop screen's panel (300 points tall): a touch in the dragging zone,
   * a drag of 90 points up and a fast upward release fold the panel and forget
   * the touch; an animated restore to Unfolded, which a tap performs on a folded
   * panel, brings it back.
   */
  lemma DragFoldsAndTapUnfolds()
    ensures var p := HostPanel(300.0, 0.0, 320.0);
      var l0 := Layout(0.0, Optionals.None, false, Optionals.None, false, []);
      var l1 := ReceivePan(p, l0, PanSample(Began, Point(10.0, 290.0), Point(0.0, -10.0)));
      var l2 := ReceivePan(p, l1, PanSample(Phase.Changed, Point(10.0, 200.0), Point(0.0, -500.0)));
      var l3 := ReceivePan(p, l2, PanSample(Ended, Point(10.0, 150.0), Point(0.0, -1200.0)));
      var l4 := RestoreSpec(p, l3, Unfolded, true);
      && l1.previousPoint == Optionals.Some(Point(10.0, 290.0))
      && l2.constant == -90.0 && StateOf(p, l2.constant) == Moved
      && StateOf(p, l3.constant) == Folded && l3.previousPoint.None?
      && StateOf(p, l4.constant) == Unfolded && l4.overlayAlpha == Optionals.Some(0.0)
  {
    var p := HostPanel(300.0, 0.0, 320.0);
    var l0 := Layout(0.0, Optionals.None, false, Optionals.None, false, []);
    var s1 := PanSample(Began, Point(10.0, 290.0), Point(0.0, -10.0));
    var s2 := PanSample(Phase.Changed, Point(10.0, 200.0), Point(0.0, -500.0));
    var s3 := PanSample(Ended, Point(10.0, 150.0), Point(0.0, -1200.0));
    assert !OutsideDraggingZone(p, l0, s1);
    var l1 := l0.(previousPoint := Optionals.Some(s1.location));
    assert ReceivePan(p, l0, s1) == l1;
    assert SampleDirection(l1, s2) == Up(-90.0);
    assert p.Frame(0.0).Contains(s2.location);
    var l2 := ReceivePan(p, l1, s2);
    assert l2.constant == -90.0;
    assert SampleDirection(l2, s3) == Up(-50.0);
    assert p.Frame(-90.0).Contains(s3.location);
    assert TrackSpec(p, l2, s3).constant == -140.0;
    assert SnapTarget(p, -140.0, Up(-50.0), s3.velocity) == Folded;
  }

  /** A drag that folds the panel and a tap that unfolds it again, on the crop screen itself. */
  method FoldAndTapBack(cropArea: Cropping.CropArea)
    modifies cropArea
    ensures cropArea.interactionEnabled
  {
    var c := new CropViewController(300.0, 0.0, 320.0, cropArea, 0.0);
    c.ReceivePanGesture(PanSample(Began, Point(10.0, 290.0), Point(0.0, -10.0)));
    assert c.previousPoint == Optionals.Some(Point(10.0, 290.0));
    c.ReceivePanGesture(PanSample(Phase.Changed, Point(10.0, 200.0), Point(0.0, -500.0)));
    assert c.constant == -90.0 && c.CurrentState() == Moved;
    c.ReceivePanGesture(PanSample(Ended, Point(10.0, 150.0), Point(0.0, -1200.0)));
    assert c.CurrentState() == Folded && c.previousPoint.None?;
    c.DidRecognizeTap();
    assert c.CurrentState() == Unfolded && c.overlayAlpha == Optionals.Some(0.0);
  }
}
