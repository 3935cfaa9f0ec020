/**
 The deck component's own state: the index of the first item not yet
 swiped away and the offset of the active card, together with the list the
 caller supplied and a log of the swipe callbacks the component has fired.
 */
module DeckState {
  import opened SwipeGesture
  import opened StackRender

  /** A call of one of the caller's two swipe callbacks, with its item. */
  datatype Callback<T> = SwipedRight(item: T) | SwipedLeft(item: T)

  /** The callback fired on completing a swipe in `direction`: right for "right", left otherwise. */
  function CallbackFor<T>(direction: string, item: T): (c: Callback<T>)
    ensures c.item == item
    ensures c.SwipedRight? <==> direction == Right
    ensures c.SwipedLeft? <==> direction != Right
  {
    if direction == Right then SwipedRight(item) else SwipedLeft(item)
  }

  /** The callbacks expected from completing the swipes `directions`, in order, from the top of `data`. */
  function SwipeLog<T>(data: seq<T>, directions: seq<string>): (log: seq<Callback<T>>)
    requires |directions| <= |data|
  {
    seq(|directions|, k requires 0 <= k < |directions| => CallbackFor(directions[k], data[k]))
  }

  class Deck<T> {
    /** The list the caller supplied. */
    var data: seq<T>
    /** How many items have been swiped away. */
    var index: nat
    /** Offset of the active card from its resting place. */
    var position: Offset
    /** Every swipe callback fired so far, oldest first. */
    var log: seq<Callback<T>>
    /** The screen width, read once when the deck is set up. */
    const screenWidth: real

    ghost predicate Valid()
      reads this
    {
      index <= |data|
    }

    /** A new deck shows the first item at rest. */
    constructor (data: seq<T>, screenWidth: real)
      ensures Valid()
      ensures this.data == data && index == 0 && position == Origin && log == []
      ensures this.screenWidth == screenWidth
    {
      this.data := data;
      this.screenWidth := screenWidth;
      index := 0;
      position := Origin;
      log := [];
    }

    /** A drag puts the active card exactly at the gesture's delta. */
    method Move(dx: real, dy: real)
      modifies this`position
      ensures position == Offset(dx, dy)
    {
      position := Offset(dx, dy);
    }

    /**
     New props: a different list (by identity, which `changed` reports)
     starts the deck again at its first item; the same list keeps the index,
     even if its contents changed in place. A list that shrank in place can
     leave the index past its end, which the render treats as used up.
     */
    method ReceiveProps(nextData: seq<T>, changed: bool)
      modifies this`data, this`index
      ensures changed || old(index) <= |nextData| ==> Valid()
      ensures data == nextData
      ensures index == if changed then 0 else old(index)
    {
      if changed {
        index := 0;
      }
      data := nextData;
    }

    /**
     The end of a swipe-out animation: the active item goes to exactly one
     callback, the next item becomes active, and the card is back at rest.
     */
    method SwipeComplete(direction: string)
      requires index < |data|
      modifies this`index, this`position, this`log
      ensures Valid()
      ensures log == old(log) + [CallbackFor(direction, data[old(index)])]
      ensures index == old(index) + 1
      ensures position == Origin
    {
      var item := data[index];
      log := log + [CallbackFor(direction, item)];
      index := index + 1;
      position := Origin;
    }

    /**
     A release on the active card, with the animation it starts run to its
     target: past the threshold the card is swiped out and the swipe
     completes; otherwise it springs back and nothing else changes.
     */
    method Release(dx: real) returns (animation: Animation)
      requires index < |data|
      modifies this`index, this`position, this`log
      ensures Valid()
      ensures animation == OnRelease(dx, screenWidth)
      ensures position == Origin
      ensures animation.Timing? ==>
        index == old(index) + 1 && log == old(log) + [CallbackFor(animation.direction, data[old(index)])]
      ensures animation.Spring? ==> index == old(index) && log == old(log)
    {
      animation := OnRelease(dx, screenWidth);
      match animation
      case Timing(target, _, direction) =>
        position := target;
        SwipeComplete(direction);
      case Spring(target) =>
        position := target;
    }
  }

  /**
   A fresh deck over `data` after the swipes `directions` have completed one
   by one: the index counts them, the callbacks went to the first items of
   the list in order, and the next render shows the item at that index as the
   active card, or the empty state once the list is used up.
   */
  method CompleteSwipes<T>(data: seq<T>, directions: seq<string>, screenWidth: real, baseTop: real)
    returns (index: nat, log: seq<Callback<T>>, plan: Plan<T>)
    requires |directions| <= |data|
    ensures index == |directions|
    ensures log == SwipeLog(data, directions)
    ensures index < |data| ==>
      plan.Cards? && |plan.entries| == |data| && plan.entries[|data| - 1 - index] == Active(data[index])
    ensures index == |data| ==> plan == NoMoreCards
  {
    var deck := new Deck(data, screenWidth);
    var n := 0;
    while n < |directions|
      invariant n <= |directions|
      invariant deck.Valid() && deck.data == data && deck.index == n
      invariant deck.log == SwipeLog(data, directions[..n])
    {
      deck.SwipeComplete(directions[n]);
      n := n + 1;
    }
    assert directions[..n] == directions;
    index, log := deck.index, deck.log;
    plan := RenderCards(data, index, baseTop);
    if index < |data| {
      RenderShape(data, index, baseTop);
    }
  }

  /**
   Two items on a 400-wide screen: a release at 150 sends the first item to
   the right callback and makes the second active; a release at -50 then
   springs back without any callback.
   */
  method TwoCardWalkthrough()
  {
    var deck := new Deck([1, 2], 400.0);
    var a := deck.Release(150.0);
    FourHundredWideScreen();
    assert a.Timing? && deck.index == 1 && deck.log == [SwipedRight(1)];
    RenderShape(deck.data, deck.index, 0.0);
    assert RenderCards(deck.data, deck.index, 0.0).entries[0] == Active(2);
    a := deck.Release(-50.0);
    assert a.Spring? && deck.index == 1 && deck.log == [SwipedRight(1)] && deck.position == Origin;
  }
}
