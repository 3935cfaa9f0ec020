/**
 The gesture side of the card deck: where a drag leaves the active card,
 how a release is classified against the swipe threshold, and where the
 animation started by that release sends the card.
 */
module SwipeGesture {

  /** Displacement of the active card from its resting place. */
  datatype Offset = Offset(x: real, y: real)

  const Origin: Offset := Offset(0.0, 0.0)

  /** Duration of the swipe-out animation, in milliseconds. */
  const SwipeOutDuration: nat := 250

  /** The direction names the release handler hands to the swipe animation. */
  const Right: string := "right"
  const Left: string := "left"

  /**
   An animation started on the card's position value:
   a timed linear run that calls the completion handler with `direction`
   when it ends, or a spring back that calls nothing.
   */
  datatype Animation =
    | Timing(target: Offset, duration: nat, direction: string)
    | Spring(target: Offset)

  /** A quarter of the screen width. */
  function SwipeThreshold(screenWidth: real): (t: real)
    ensures 4.0 * t == screenWidth
  {
    0.25 * screenWidth
  }

  /**
   The swipe-out animation: a full screen width to the right for the name
   "right", a full screen width to the left for any other name, level.
   */
  function ForceSwipe(direction: string, screenWidth: real): (a: Animation)
    ensures a.Timing? && a.direction == direction && a.duration == SwipeOutDuration
    ensures a.target.y == 0.0
    ensures a.target.x == screenWidth || a.target.x == -screenWidth
    ensures screenWidth != 0.0 ==> (a.target.x == screenWidth <==> direction == Right)
  {
    var x := if direction == Right then screenWidth else -screenWidth;
    Timing(Offset(x, 0.0), SwipeOutDuration, direction)
  }

  /** The spring back to the resting place. */
  function ResetPosition(): (a: Animation)
    ensures a.Spring? && a.target == Origin
  {
    Spring(Origin)
  }

  /**
   The release handler. A drag past the threshold to the right swipes right,
   past it to the left swipes left, anything else springs back; the
   comparisons are strict. With a non-negative width the three outcomes are
   exclusive and each is characterised both ways.
   */
  function OnRelease(dx: real, screenWidth: real): (a: Animation)
    ensures a.Timing? ==> a == ForceSwipe(a.direction, screenWidth)
    ensures a.Spring? ==> a == ResetPosition() && a.target == Origin
    ensures a.Timing? <==> dx > SwipeThreshold(screenWidth) || dx < -SwipeThreshold(screenWidth)
    ensures dx > SwipeThreshold(screenWidth) ==> a.Timing? && a.direction == Right
    ensures !(dx > SwipeThreshold(screenWidth)) && dx < -SwipeThreshold(screenWidth) ==>
      a.Timing? && a.direction == Left
    ensures 0.0 <= screenWidth ==>
      ((a.Timing? && a.direction == Right) <==> dx > SwipeThreshold(screenWidth))
    ensures 0.0 <= screenWidth ==>
      ((a.Timing? && a.direction == Left) <==> dx < -SwipeThreshold(screenWidth))
    ensures 0.0 <= screenWidth ==>
      (a.Spring? <==> -SwipeThreshold(screenWidth) <= dx <= SwipeThreshold(screenWidth))
  {
    if dx > SwipeThreshold(screenWidth) then ForceSwipe(Right, screenWidth)
    else if dx < -SwipeThreshold(screenWidth) then ForceSwipe(Left, screenWidth)
    else ResetPosition()
  }

  /** A release exactly on either threshold springs back: the comparisons are strict. */
  lemma ThresholdReleaseResets(screenWidth: real)
    requires 0.0 <= screenWidth
    ensures OnRelease(SwipeThreshold(screenWidth), screenWidth) == Spring(Origin)
    ensures OnRelease(-SwipeThreshold(screenWidth), screenWidth) == Spring(Origin)
  {
  }

  /**
   On a real screen a committed swipe sends the card off the side the
   finger dragged it towards, a full screen width from rest, which is
   further than the drag that committed it had to go.
   */
  lemma SwipeFollowsDrag(dx: real, screenWidth: real)
    requires 0.0 < screenWidth
    requires OnRelease(dx, screenWidth).Timing?
    ensures var x := OnRelease(dx, screenWidth).target.x;
      (x > 0.0 <==> dx > 0.0) && (x == screenWidth || x == -screenWidth)
    ensures SwipeThreshold(screenWidth) < screenWidth
  {
  }

  /** The worked case of a 400-wide screen: 150 swipes right, -50 springs back. */
  lemma FourHundredWideScreen()
    ensures SwipeThreshold(400.0) == 100.0
    ensures OnRelease(150.0, 400.0) == Timing(Offset(400.0, 0.0), 250, Right)
    ensures OnRelease(-50.0, 400.0) == Spring(Origin)
    ensures OnRelease(-150.0, 400.0) == Timing(Offset(-400.0, 0.0), 250, Left)
  {
  }
}
