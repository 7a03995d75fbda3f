// The floating panel of the picker: a view pinned to the top of its superview
// whose top-constraint constant moves between 0 (Unfolded) and
// -(height - visibleArea) (Folded) under pan gestures.
//
// This module holds the pure part: the panel's states and directions, the
// helper decisions (direction of a pan, closest rest state, "crossed enough"),
// and, as functions on a `Layout` value, what `move`, `restore` and
// `receivePanGesture` do to the panel. CropController's class carries out the
// same steps in place and is proved against these functions.

module FloatingLayout {
  import opened Geometry
  import Optionals

  datatype State = Unfolded | Folded | Moved

  /** A vertical movement with the distance between the previous and the current touch. */
  datatype Direction = Up(delta: real) | Down(delta: real) | None {
    /** `changed(delta:)`: the same case carrying a new distance. */
    function Changed(newDelta: real): (r: Direction)
      ensures r.Up? == Up? && r.Down? == Down? && r.None? == None?
      ensures !r.None? ==> r.delta == newDelta
    {
      if Up? then Up(newDelta) else if Down? then Down(newDelta) else None
    }
  }

  /** Where a pan may begin: anywhere, or within `height` points above the panel's bottom edge. */
  datatype DraggingZone = All | Some(height: real)

  /**
   * The phases of a pan gesture recognizer that deliver samples. `Changed` is
   * written `Phase.Changed` wherever it could be read as `Direction.Changed`.
   */
  datatype Phase = Began | Changed | Ended | Cancelled

  /** One pan sample: its phase, the touch location and velocity in the superview. */
  datatype PanSample = PanSample(phase: Phase, location: Point, velocity: Point)

  /** Calls the default implementations make into the host, in order. */
  datatype Hook = PrepareForMovement | DidEndMoving | AnimationCompletion(finished: bool)

  /**
   * The panel's fixed configuration: its frame height and horizontal extent,
   * the area left visible when folded and the dragging zone. The frame's
   * minY is the top-constraint constant.
   */
  datatype Panel = Panel(height: real, visibleArea: real, draggingZone: DraggingZone, x: real, width: real) {
    predicate Valid() { height > visibleArea && width >= 0.0 }

    /** The distance between the two rest positions. */
    function Travel(): real { height - visibleArea }

    /** The constant of the folded rest position. */
    function FoldedConstant(): real { -(height - visibleArea) }

    function Frame(constant: real): Rect { Rect(x, constant, width, height) }
  }

  /**
   * Everything the gesture handling reads or writes: the constraint constant,
   * the remembered touch, the pan-outside flag, the overlay's alpha (`None`
   * while the overlay view does not exist yet), whether the host installed an
   * animation completion, and the log of hook calls.
   */
  datatype Layout = Layout(
    constant: real,
    previousPoint: Optionals.Option<Point>,
    allowPanOutside: bool,
    overlayAlpha: Optionals.Option<real>,
    hasCompletion: bool,
    hooks: seq<Hook>)

  /** The host's `state` getter, derived from the constant alone. */
  function StateOf(p: Panel, constant: real): (r: State)
    ensures r == Unfolded <==> constant == 0.0
    ensures r == Folded ==> constant == p.FoldedConstant()
    ensures r == Moved ==> constant != 0.0 && constant != p.FoldedConstant()
  {
    if constant == 0.0 then Unfolded
    else if constant + p.height == p.visibleArea then Folded
    else Moved
  }

  /** Unfolded exactly at constant 0, Folded exactly at the folded constant, Moved everywhere else. */
  lemma StateOfRestPositions(p: Panel, constant: real)
    requires p.Valid()
    ensures StateOf(p, constant) == Unfolded <==> constant == 0.0
    ensures StateOf(p, constant) == Folded <==> constant == p.FoldedConstant()
    ensures StateOf(p, constant) == Moved <==> constant != 0.0 && constant != p.FoldedConstant()
  {
  }

  /** `direction(withVelocity:delta:)`: the sign of the vertical velocity picks the case. */
  function DirectionFor(velocity: Point, delta: real): (r: Direction)
    ensures r.Up? <==> velocity.y < 0.0
    ensures r.Down? <==> velocity.y > 0.0
    ensures r.None? <==> velocity.y == 0.0
    ensures !r.None? ==> r.delta == delta
  {
    if velocity.y < 0.0 then Up(delta)
    else if velocity.y > 0.0 then Down(delta)
    else None
  }

  function MidY(p: Panel, constant: real): real {
    p.Frame(constant).MidY()
  }

  /** `closestState(of:)`: Folded when the panel's middle is at or above the superview's top. */
  function ClosestState(p: Panel, constant: real): (r: State)
    ensures r == Folded <==> constant + p.height / 2.0 <= 0.0
    ensures r == Unfolded <==> constant + p.height / 2.0 > 0.0
  {
    if MidY(p, constant) <= 0.0 then Folded else Unfolded
  }

  /** `crossedEnough(view:in:)`: the panel's middle is past the superview's top in the direction of travel. */
  function CrossedEnough(p: Panel, constant: real, dir: Direction): (r: bool)
    ensures dir.Down? ==> (r <==> constant + p.height / 2.0 >= 0.0)
    ensures dir.Up? ==> (r <==> constant + p.height / 2.0 <= 0.0)
    ensures dir.None? ==> !r
  {
    if dir.Down? then MidY(p, constant) >= 0.0
    else if dir.Up? then MidY(p, constant) <= 0.0
    else false
  }

  /** The guards of `move`: an Up move that would lift the bottom edge above the visible area, or a Down move past 0. */
  predicate MoveRejected(p: Panel, constant: real, dir: Direction): (r: bool)
    ensures r ==> !dir.None? && !InRange(p, constant + dir.delta)
  {
    match dir
    case Up(delta) => constant + p.height + delta < p.visibleArea
    case Down(delta) => constant + delta > 0.0
    case None => false
  }

  /** The overlay alpha for a constant: the travelled fraction, capped at 0.6. */
  function Progress(p: Panel, constant: real): (r: real)
    requires p.Valid()
    ensures 0.0 <= r <= 0.6
    ensures r == Min(0.6, Abs(constant) / p.Travel())
  {
    var progress := Abs(constant / -(p.height - p.visibleArea));
    AbsOfNegatedQuotient(constant, p.Travel());
    if progress > 0.6 then 0.6 else progress
  }

  /** |c / -t| == |c| / t for a positive t. */
  lemma AbsOfNegatedQuotient(c: real, t: real)
    requires t > 0.0
    ensures Abs(c / -t) == Abs(c) / t
  {
    var a, b := c / -t, -(c / t);
    assert a * -t == c;
    assert b * -t == c;
    assert (a - b) * -t == 0.0;
    if c < 0.0 {
      assert -c / t == -(c / t);
    }
  }

  /**
   * `move(view:in:)`: a rejected move returns before touching anything;
   * otherwise Up/Down call prepareForMovement and add the delta, None moves
   * nothing, and then the overlay alpha is set from the new constant and
   * didEndMoving is called.
   */
  function MoveSpec(p: Panel, l: Layout, dir: Direction): (r: Layout)
    requires p.Valid()
    ensures r.previousPoint == l.previousPoint && r.allowPanOutside == l.allowPanOutside
    ensures r.hasCompletion == l.hasCompletion && l.hooks <= r.hooks
    ensures r == l || (r.overlayAlpha.Some? && 0.0 <= r.overlayAlpha.value <= 0.6)
  {
    if MoveRejected(p, l.constant, dir) then l
    else
      var c := if dir.None? then l.constant else l.constant + dir.delta;
      l.(constant := c,
         overlayAlpha := Optionals.Some(Progress(p, c)),
         hooks := l.hooks + (if dir.None? then [] else [PrepareForMovement]) + [DidEndMoving])
  }

  /** The constant `restore` sets for a target state; Moved keeps the current one. */
  function RestConstant(p: Panel, target: State, constant: real): real {
    match target
    case Unfolded => 0.0
    case Folded => p.FoldedConstant()
    case Moved => constant
  }

  /**
   * `restore(view:to:animated:)`: sets the constant for the target; when
   * animated, the overlay goes to 0 if the panel is now Unfolded and to 0.6
   * otherwise, then didEndMoving and the completion (if one is installed) run.
   */
  function RestoreSpec(p: Panel, l: Layout, target: State, animated: bool): (r: Layout)
    ensures r.previousPoint == l.previousPoint && r.allowPanOutside == l.allowPanOutside
    ensures r.hasCompletion == l.hasCompletion && l.hooks <= r.hooks
    ensures animated ==> r.overlayAlpha.Some? && (r.overlayAlpha.value == 0.0 || r.overlayAlpha.value == 0.6)
  {
    var c := RestConstant(p, target, l.constant);
    if !animated then l.(constant := c)
    else
      l.(constant := c,
         overlayAlpha := Optionals.Some(if StateOf(p, c) == Unfolded then 0.0 else 0.6),
         hooks := l.hooks + [DidEndMoving] + (if l.hasCompletion then [AnimationCompletion(true)] else []))
  }

  /** Where an ended pan sends the panel. */
  function SnapTarget(p: Panel, constant: real, dir: Direction, velocity: Point): (r: State)
    ensures r != Moved
  {
    if Abs(velocity.y) >= 1000.0 || CrossedEnough(p, constant, dir) then
      (if dir.Up? then Folded else if dir.Down? then Unfolded else ClosestState(p, constant))
    else
      (if dir.Up? then Unfolded else if dir.Down? then Folded else ClosestState(p, constant))
  }

  /** A Began sample above the dragging zone is ignored. */
  predicate OutsideDraggingZone(p: Panel, l: Layout, s: PanSample) {
    s.phase == Began && p.draggingZone.Some? &&
    s.location.y < p.Frame(l.constant).MaxY() - p.draggingZone.height
  }

  /** A tracked sample moves the panel when inside it, when dragging a moved panel down, or when panning outside is allowed. */
  predicate AppliesMove(p: Panel, l: Layout, s: PanSample, dir: Direction) {
    p.Frame(l.constant).Contains(s.location) ||
    (dir.Down? && StateOf(p, l.constant) == Moved) ||
    l.allowPanOutside
  }

  /** The direction of a tracked sample, from the remembered touch. */
  function SampleDirection(l: Layout, s: PanSample): Direction
    requires l.previousPoint.Some?
  {
    DirectionFor(s.velocity, s.location.y - l.previousPoint.value.y)
  }

  /** The layout after the move step of a tracked sample, before any snap. */
  function TrackSpec(p: Panel, l: Layout, s: PanSample): (r: Layout)
    requires p.Valid() && l.previousPoint.Some?
    ensures r.previousPoint == Optionals.Some(s.location)
    ensures r.allowPanOutside == l.allowPanOutside && r.hasCompletion == l.hasCompletion && l.hooks <= r.hooks
  {
    var dir := SampleDirection(l, s);
    var l1 := l.(previousPoint := Optionals.Some(s.location));
    if AppliesMove(p, l, s, dir) then MoveSpec(p, l1, dir) else l1
  }

  /** `receivePanGesture(recognizer:with:)` on one sample. */
  function ReceivePan(p: Panel, l: Layout, s: PanSample): (r: Layout)
    requires p.Valid()
    ensures r.allowPanOutside == l.allowPanOutside && r.hasCompletion == l.hasCompletion
    ensures l.hooks <= r.hooks
    ensures s.phase == Began ==> r.constant == l.constant && r.hooks == l.hooks
  {
    if OutsideDraggingZone(p, l, s) then l
    else if s.phase == Began then l.(previousPoint := Optionals.Some(s.location))
    else if l.previousPoint.None? then l
    else
      var l2 := TrackSpec(p, l, s);
      if s.phase == Ended && StateOf(p, l2.constant) == Moved then
        RestoreSpec(p, l2.(previousPoint := Optionals.None), SnapTarget(p, l2.constant, SampleDirection(l, s), s.velocity), true)
      else l2
  }

  // ---------------------------------------------------------------------------
  // Properties of move and restore

  /** The constant stays between the folded and the unfolded position. */
  predicate InRange(p: Panel, constant: real) {
    p.FoldedConstant() <= constant <= 0.0
  }

  /** The delta has the sign its direction names: Up never moves down, Down never moves up. */
  predicate Consistent(dir: Direction) {
    match dir
    case Up(delta) => delta <= 0.0
    case Down(delta) => delta >= 0.0
    case None => true
  }

  /** A rejected move changes nothing at all: no constant, no overlay, no hook. */
  lemma RejectedMoveChangesNothing(p: Panel, l: Layout, dir: Direction)
    requires p.Valid() && MoveRejected(p, l.constant, dir)
    ensures MoveSpec(p, l, dir) == l
  {
  }

  /**
   * An accepted move adds exactly the delta (None adds nothing), sets the
   * overlay to min(0.6, |constant| / travel), and calls prepareForMovement
   * (except for None) and then didEndMoving.
   */
  lemma AcceptedMove(p: Panel, l: Layout, dir: Direction)
    requires p.Valid() && !MoveRejected(p, l.constant, dir)
    ensures var r := MoveSpec(p, l, dir);
      && r.constant == l.constant + (if dir.None? then 0.0 else dir.delta)
      && r.overlayAlpha == Optionals.Some(Min(0.6, Abs(r.constant) / p.Travel()))
      && r.hooks == l.hooks + (if dir.None? then [DidEndMoving] else [PrepareForMovement, DidEndMoving])
      && r.previousPoint == l.previousPoint && r.allowPanOutside == l.allowPanOutside
  {
    if dir.None? {
      assert [] + [DidEndMoving] == [DidEndMoving];
    }
  }

  /** A move whose delta agrees with its direction keeps the constant in range. */
  lemma MoveKeepsRange(p: Panel, l: Layout, dir: Direction)
    requires p.Valid() && InRange(p, l.constant) && Consistent(dir)
    ensures InRange(p, MoveSpec(p, l, dir).constant)
  {
  }

  /** Moves applied one after another. */
  function MoveAll(p: Panel, l: Layout, dirs: seq<Direction>): Layout
    requires p.Valid()
    decreases |dirs|
  {
    if dirs == [] then l else MoveAll(p, MoveSpec(p, l, dirs[0]), dirs[1..])
  }

  /** Any run of moves whose deltas agree with their directions keeps the constant in range. */
  lemma {:induction false} MoveAllKeepsRange(p: Panel, l: Layout, dirs: seq<Direction>)
    requires p.Valid() && InRange(p, l.constant)
    requires forall i :: 0 <= i < |dirs| ==> Consistent(dirs[i])
    ensures InRange(p, MoveAll(p, l, dirs).constant)
    decreases |dirs|
  {
    if dirs != [] {
      MoveKeepsRange(p, l, dirs[0]);
      MoveAllKeepsRange(p, MoveSpec(p, l, dirs[0]), dirs[1..]);
    }
  }

  /**
   * The direction comes from the velocity, not from the delta: an upward
   * velocity with a downward delta on an unfolded panel is accepted and
   * pushes the constant above 0.
   */
  lemma UpMoveWithDownwardDeltaLeavesRange()
    ensures var p := Panel(300.0, 50.0, Some(50.0), 0.0, 320.0);
      var l := Layout(0.0, Optionals.None, false, Optionals.None, false, []);
      && InRange(p, l.constant)
      && !MoveRejected(p, l.constant, Up(10.0))
      && MoveSpec(p, l, Up(10.0)).constant == 10.0
      && !InRange(p, MoveSpec(p, l, Up(10.0)).constant)
  {
  }

  /**
   * The touch is forgotten only when an ended pan snaps. A pan that ends at
   * rest leaves its touch behind: the next pan's Began above the dragging
   * zone is ignored, yet its first Changed sample is tracked from the old
   * touch and moves the panel.
   */
  lemma StaleTouchOutlivesRestingEnd()
    ensures var p := Panel(300.0, 50.0, Some(50.0), 0.0, 320.0);
      var l0 := Layout(0.0, Optionals.None, false, Optionals.None, false, []);
      var l1 := ReceivePan(p, l0, PanSample(Began, Point(10.0, 290.0), Point(0.0, 0.0)));
      var l2 := ReceivePan(p, l1, PanSample(Ended, Point(10.0, 290.0), Point(0.0, 0.0)));
      var l3 := ReceivePan(p, l2, PanSample(Began, Point(10.0, 100.0), Point(0.0, 0.0)));
      var l4 := ReceivePan(p, l3, PanSample(Phase.Changed, Point(10.0, 200.0), Point(0.0, -500.0)));
      && StateOf(p, l2.constant) == Unfolded
      && l2.previousPoint == Optionals.Some(Point(10.0, 290.0))
      && l3 == l2
      && l4.constant == -90.0
  {
    var p := Panel(300.0, 50.0, Some(50.0), 0.0, 320.0);
    var l0 := Layout(0.0, Optionals.None, false, Optionals.None, false, []);
    var l1 := ReceivePan(p, l0, PanSample(Began, Point(10.0, 290.0), Point(0.0, 0.0)));
    assert l1 == l0.(previousPoint := Optionals.Some(Point(10.0, 290.0)));
    var ended := PanSample(Ended, Point(10.0, 290.0), Point(0.0, 0.0));
    assert SampleDirection(l1, ended) == Direction.None;
    assert p.Frame(l1.constant).Contains(ended.location);
    var l2 := ReceivePan(p, l1, ended);
    assert l2.constant == 0.0;
    var began := PanSample(Began, Point(10.0, 100.0), Point(0.0, 0.0));
    assert OutsideDraggingZone(p, l2, began);
    var changed := PanSample(Phase.Changed, Point(10.0, 200.0), Point(0.0, -500.0));
    assert SampleDirection(l2, changed) == Up(-90.0);
    assert p.Frame(l2.constant).Contains(changed.location);
  }

  /** After any accepted move the overlay alpha lies in [0, 0.6]. */
  lemma MoveOverlayBounded(p: Panel, l: Layout, dir: Direction)
    requires p.Valid() && !MoveRejected(p, l.constant, dir)
    ensures var r := MoveSpec(p, l, dir);
      r.overlayAlpha.Some? && 0.0 <= r.overlayAlpha.value <= 0.6
  {
  }

  /**
   * restore reaches its target (Moved keeps the constant); when animated the
   * overlay is 0 for Unfolded and 0.6 otherwise, and didEndMoving and the
   * installed completion each run once, in that order.
   */
  lemma RestoreReachesTarget(p: Panel, l: Layout, target: State, animated: bool)
    requires p.Valid()
    ensures var r := RestoreSpec(p, l, target, animated);
      && (target != Moved ==> StateOf(p, r.constant) == target)
      && (target == Unfolded ==> r.constant == 0.0)
      && (target == Folded ==> r.constant == p.FoldedConstant())
      && (target == Moved ==> r.constant == l.constant)
      && (animated ==> r.overlayAlpha == Optionals.Some(if StateOf(p, r.constant) == Unfolded then 0.0 else 0.6))
      && (animated ==> r.hooks == l.hooks + [DidEndMoving] + (if l.hasCompletion then [AnimationCompletion(true)] else []))
      && (!animated ==> r.hooks == l.hooks && r.overlayAlpha == l.overlayAlpha)
      && r.previousPoint == l.previousPoint
  {
    StateOfRestPositions(p, RestConstant(p, target, l.constant));
  }

  // ---------------------------------------------------------------------------
  // Properties of receivePanGesture

  /** A Began sample above the dragging zone changes nothing. */
  lemma BeganOutsideZoneIgnored(p: Panel, l: Layout, s: PanSample)
    requires p.Valid() && s.phase == Began && p.draggingZone.Some?
    requires s.location.y < l.constant + p.height - p.draggingZone.height
    ensures ReceivePan(p, l, s) == l
  {
  }

  /** Any other Began sample only remembers the touch. */
  lemma BeganRemembersTouch(p: Panel, l: Layout, s: PanSample)
    requires p.Valid() && s.phase == Began && !OutsideDraggingZone(p, l, s)
    ensures ReceivePan(p, l, s) == l.(previousPoint := Optionals.Some(s.location))
  {
  }

  /** A later sample with no remembered touch is ignored. */
  lemma UntrackedSampleIgnored(p: Panel, l: Layout, s: PanSample)
    requires p.Valid() && s.phase != Began && l.previousPoint.None?
    ensures ReceivePan(p, l, s) == l
  {
  }

  /**
   * A Changed or Cancelled sample with a remembered touch remembers the new
   * touch and moves the panel exactly when the sample is inside the panel,
   * drags a moved panel down, or panning outside is allowed; it never snaps.
   */
  lemma TrackedSampleMoves(p: Panel, l: Layout, s: PanSample)
    requires p.Valid() && (s.phase == Phase.Changed || s.phase == Cancelled) && l.previousPoint.Some?
    ensures var dir := DirectionFor(s.velocity, s.location.y - l.previousPoint.value.y);
      var r := ReceivePan(p, l, s);
      var l1 := l.(previousPoint := Optionals.Some(s.location));
      && r.previousPoint == Optionals.Some(s.location)
      && r.allowPanOutside == l.allowPanOutside
      && (AppliesMove(p, l, s, dir) ==> r == MoveSpec(p, l1, dir))
      && (!AppliesMove(p, l, s, dir) ==> r == l1)
  {
  }

  /**
   * An Ended sample with a remembered touch always leaves the panel at rest:
   * if the move left it Moved, the touch is forgotten and it snaps to the
   * target of SnapTarget, evaluated after the move.
   */
  lemma EndedSampleComesToRest(p: Panel, l: Layout, s: PanSample)
    requires p.Valid() && s.phase == Ended && l.previousPoint.Some?
    ensures var r := ReceivePan(p, l, s);
      var l2 := TrackSpec(p, l, s);
      && StateOf(p, r.constant) != Moved
      && (StateOf(p, l2.constant) == Moved ==>
            r.previousPoint.None? &&
            StateOf(p, r.constant) == SnapTarget(p, l2.constant, SampleDirection(l, s), s.velocity))
      && (StateOf(p, l2.constant) != Moved ==> r == l2)
  {
    var l2 := TrackSpec(p, l, s);
    var target := SnapTarget(p, l2.constant, SampleDirection(l, s), s.velocity);
    assert target != Moved;
    RestoreReachesTarget(p, l2.(previousPoint := Optionals.None), target, true);
  }

  /**
   * A fast release (|v.y| >= 1000) of a moved panel snaps in the direction of
   * travel: upward to Folded, downward to Unfolded, whatever the position.
   */
  lemma FastReleaseFollowsVelocity(p: Panel, l: Layout, s: PanSample)
    requires p.Valid() && s.phase == Ended && l.previousPoint.Some?
    requires StateOf(p, TrackSpec(p, l, s).constant) == Moved
    ensures s.velocity.y <= -1000.0 ==> StateOf(p, ReceivePan(p, l, s).constant) == Folded
    ensures s.velocity.y >= 1000.0 ==> StateOf(p, ReceivePan(p, l, s).constant) == Unfolded
  {
    EndedSampleComesToRest(p, l, s);
  }

  /**
   * The snap table of an ended pan, read as the panel's rest-position rules:
   * fast or far enough follows the direction, otherwise goes back; None goes
   * to the closest state.
   */
  lemma SnapTargetRule(p: Panel, constant: real, dir: Direction, velocity: Point)
    ensures var t := SnapTarget(p, constant, dir, velocity);
      var decisive := Abs(velocity.y) >= 1000.0 || CrossedEnough(p, constant, dir);
      && t != Moved
      && (dir.Up? ==> t == (if decisive then Folded else Unfolded))
      && (dir.Down? ==> t == (if decisive then Unfolded else Folded))
      && (dir.None? ==> t == ClosestState(p, constant))
  {
  }

  /** The overlay alpha never leaves [0, 0.6] once it is in range. */
  predicate OverlayInRange(l: Layout) {
    l.overlayAlpha.Some? ==> 0.0 <= l.overlayAlpha.value <= 0.6
  }

  lemma ReceivePanKeepsOverlayInRange(p: Panel, l: Layout, s: PanSample)
    requires p.Valid() && OverlayInRange(l)
    ensures OverlayInRange(ReceivePan(p, l, s))
  {
    if !OutsideDraggingZone(p, l, s) && s.phase != Began && l.previousPoint.Some? {
      var dir := SampleDirection(l, s);
      var l1 := l.(previousPoint := Optionals.Some(s.location));
      if AppliesMove(p, l, s, dir) && !MoveRejected(p, l1.constant, dir) {
        MoveOverlayBounded(p, l1, dir);
      }
    }
  }

  /**
   * The gesture path never leaves the panel Moved without a remembered touch:
   * only a tracked sample moves it, and an ended pan that forgets the touch
   * snaps it to a rest position.
   */
  predicate TouchedWhileMoved(p: Panel, l: Layout) {
    StateOf(p, l.constant) == Moved ==> l.previousPoint.Some?
  }

  /** Handling a sample keeps TouchedWhileMoved. */
  lemma ReceivePanKeepsTouchedWhileMoved(p: Panel, l: Layout, s: PanSample)
    requires p.Valid() && TouchedWhileMoved(p, l)
    ensures TouchedWhileMoved(p, ReceivePan(p, l, s))
  {
    if !OutsideDraggingZone(p, l, s) && s.phase == Ended && l.previousPoint.Some? {
      EndedSampleComesToRest(p, l, s);
    }
  }

  /** A pan handled sample by sample. */
  function ReceiveAll(p: Panel, l: Layout, samples: seq<PanSample>): (r: Layout)
    requires p.Valid()
    ensures l.hooks <= r.hooks
    decreases |samples|
  {
    if samples == [] then l else ReceiveAll(p, ReceivePan(p, l, samples[0]), samples[1..])
  }

  /** Any run of samples from a layout with TouchedWhileMoved keeps it. */
  lemma {:induction false} ReceiveAllKeepsTouchedWhileMoved(p: Panel, l: Layout, samples: seq<PanSample>)
    requires p.Valid() && TouchedWhileMoved(p, l)
    ensures TouchedWhileMoved(p, ReceiveAll(p, l, samples))
    decreases |samples|
  {
    if samples != [] {
      ReceivePanKeepsTouchedWhileMoved(p, l, samples[0]);
      ReceiveAllKeepsTouchedWhileMoved(p, ReceivePan(p, l, samples[0]), samples[1..]);
    }
  }

  /**
   * On a layout reached by gestures, an Ended sample always leaves the panel
   * at rest: with no remembered touch the panel was already at rest and the
   * sample is ignored.
   */
  lemma EndedSampleAlwaysComesToRest(p: Panel, l: Layout, s: PanSample)
    requires p.Valid() && TouchedWhileMoved(p, l) && s.phase == Ended
    ensures StateOf(p, ReceivePan(p, l, s).constant) != Moved
  {
    if l.previousPoint.Some? {
      EndedSampleComesToRest(p, l, s);
    }
  }
}
