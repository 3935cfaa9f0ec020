/**
 The stack renderer: given the list of items and the index of the first
 item not yet swiped away, the plan of what is drawn, back to front.
 */
module StackRender {

  /** What one item of the list becomes in a render. */
  datatype Entry<T> =
    | Swiped                         // already swiped away: nothing is drawn
    | Active(item: T)                // the top card, following the gesture
    | Stacked(item: T, top: real)    // a card waiting underneath, fixed at `top`

  /** Either the empty-state view or one entry per item of the list. */
  datatype Plan<T> = NoMoreCards | Cards(entries: seq<Entry<T>>)

  /** Vertical distance between two neighbouring cards of the stack. */
  const CardSpacing: nat := 10

  /** The entry for the item at position `i` of `data`. */
  function CardAt<T>(data: seq<T>, index: nat, baseTop: real, i: nat): (e: Entry<T>)
    requires i < |data|
    ensures e.Swiped? <==> i < index
    ensures e.Active? <==> i == index
    ensures !e.Swiped? ==> e.item == data[i]
    ensures e.Stacked? ==> e.top == baseTop + (10 * (i - index)) as real && baseTop < e.top
  {
    if i < index then Swiped
    else if i == index then Active(data[i])
    else Stacked(data[i], baseTop + (CardSpacing * (i - index)) as real)
  }

  /** The sequence read back to front. */
  function Reversed<T>(s: seq<T>): (r: seq<T>)
    ensures |r| == |s|
    ensures forall k :: 0 <= k < |s| ==> r[k] == s[|s| - 1 - k]
  {
    if s == [] then [] else Reversed(s[1..]) + [s[0]]
  }

  /**
   The render: the empty state once every item has been swiped, otherwise
   the per-item entries in reverse, so that the card furthest down the stack
   is drawn first and the active card last.
   */
  function RenderCards<T>(data: seq<T>, index: nat, baseTop: real): (r: Plan<T>)
    ensures r.NoMoreCards? <==> index >= |data|
    ensures r.Cards? ==> |r.entries| == |data|
    ensures r.Cards? ==>
      forall k :: 0 <= k < |data| ==> r.entries[k] == CardAt(data, index, baseTop, |data| - 1 - k)
  {
    if index >= |data| then NoMoreCards
    else Cards(Reversed(seq(|data|, i requires 0 <= i < |data| => CardAt(data, index, baseTop, i))))
  }

  /**
   The shape of a render with cards left: the last `index` entries are empty,
   the active card is the last entry drawn, and every entry before it is a
   stacked card.
   */
  lemma RenderShape<T>(data: seq<T>, index: nat, baseTop: real)
    requires index < |data|
    ensures var r := RenderCards(data, index, baseTop);
      && r.Cards?
      && r.entries[|data| - 1 - index] == Active(data[index])
      && (forall k :: |data| - index <= k < |data| ==> r.entries[k] == Swiped)
      && (forall k :: 0 <= k < |data| - 1 - index ==> r.entries[k].Stacked?)
      && (forall k :: 0 <= k < |data| ==> (r.entries[k].Active? <==> k == |data| - 1 - index))
  {
    var r := RenderCards(data, index, baseTop);
    forall k | 0 <= k < |data|
      ensures r.entries[k].Active? <==> k == |data| - 1 - index
    {
      assert r.entries[k] == CardAt(data, index, baseTop, |data| - 1 - k);
    }
  }

  /**
   Every stacked card of a render sits below the base top by ten times its
   distance `d` from the active card, and carries its own item.
   */
  lemma StackedCardAt<T>(data: seq<T>, index: nat, baseTop: real, k: nat)
    requires index < |data|
    requires k < |data| - 1 - index
    ensures var r := RenderCards(data, index, baseTop);
      && r.entries[k] == Stacked(data[|data| - 1 - k], baseTop + (10 * (|data| - 1 - k - index)) as real)
      && baseTop < r.entries[k].top
  {
  }

  /**
   The stacked cards fan out downwards: their tops fall strictly from the
   first entry drawn to the last stacked one.
   */
  lemma StackFansOut<T>(data: seq<T>, index: nat, baseTop: real, j: nat, k: nat)
    requires index < |data|
    requires j < k < |data| - 1 - index
    ensures var r := RenderCards(data, index, baseTop);
      r.entries[j].Stacked? && r.entries[k].Stacked? && r.entries[k].top < r.entries[j].top
  {
  }

  /** The items a plan actually draws, in drawing order. */
  function Drawn<T>(entries: seq<Entry<T>>): seq<T>
  {
    if entries == [] then []
    else (if entries[0].Swiped? then [] else [entries[0].item]) + Drawn(entries[1..])
  }

  lemma {:induction false} DrawnAppend<T>(a: seq<Entry<T>>, b: seq<Entry<T>>)
    ensures Drawn(a + b) == Drawn(a) + Drawn(b)
  {
    if a == [] {
      assert a + b == b;
    } else {
      assert (a + b)[0] == a[0] && (a + b)[1..] == a[1..] + b;
      DrawnAppend(a[1..], b);
    }
  }

  lemma {:induction false} DrawnReversed<T>(s: seq<Entry<T>>)
    ensures Drawn(Reversed(s)) == Reversed(Drawn(s))
  {
    if s != [] {
      calc {
        Drawn(Reversed(s));
        Drawn(Reversed(s[1..]) + [s[0]]);
        { DrawnAppend(Reversed(s[1..]), [s[0]]); }
        Drawn(Reversed(s[1..])) + Drawn([s[0]]);
        { DrawnReversed(s[1..]); }
        Reversed(Drawn(s[1..])) + Drawn([s[0]]);
      }
      if !s[0].Swiped? {
        var d := Drawn(s);
        assert d == [s[0].item] + Drawn(s[1..]);
        assert d[1..] == Drawn(s[1..]);
        assert Drawn([s[0]]) == [s[0].item] by { assert [s[0]][1..] == []; }
      }
    }
  }

  /**
   Entries that are empty exactly below position `from` and otherwise carry
   the item of `data` at the same position draw exactly `data[from..]`.
   */
  lemma {:induction false} DrawnSuffix<T>(s: seq<Entry<T>>, data: seq<T>, from: nat)
    requires |s| == |data| && from <= |data|
    requires forall i :: 0 <= i < |s| ==> (s[i].Swiped? <==> i < from)
    requires forall i :: 0 <= i < |s| && !s[i].Swiped? ==> s[i].item == data[i]
    ensures Drawn(s) == data[from..]
  {
    if s != [] {
      DrawnSuffix(s[1..], data[1..], if from == 0 then 0 else from - 1);
      if from == 0 {
        assert data[0..] == [data[0]] + data[1..];
      } else {
        assert data[from..] == data[1..][from - 1..];
      }
    }
  }

  /**
   A render with cards left draws exactly the items not yet swiped away,
   each once, from the last item of the list down to the active one.
   */
  lemma RenderDrawsRemainingItems<T>(data: seq<T>, index: nat, baseTop: real)
    requires index < |data|
    ensures Drawn(RenderCards(data, index, baseTop).entries) == Reversed(data[index..])
  {
    var m := seq(|data|, i requires 0 <= i < |data| => CardAt(data, index, baseTop, i));
    DrawnSuffix(m, data, index);
    DrawnReversed(m);
  }
}
