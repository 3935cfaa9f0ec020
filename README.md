# Swipeable card deck: a Dafny model

This project models the `Deck` component of a React Native "Tinder-style"
card deck (`src/Deck.js`). The component shows a caller-supplied list of items
as a stack of cards. The top card follows the user's finger. Releasing it past
a quarter of the screen width swipes it out to the right or to the left and
reports the item to the matching callback. Any shorter release springs the
card back.

The model has three modules:

- `SwipeGesture` (`swipe_gesture.dfy`) holds the pure gesture logic: the swipe
  threshold, the three-way classification of a release, and the animation
  targets of `forceSwipe` and `resetPosition`. Animations are values:
  `Timing(target, 250, direction)` or `Spring(target)`.
- `StackRender` (`stack_render.dfy`) holds `renderCards` as a pure render plan.
  The plan is either `NoMoreCards` or one entry per item (`Swiped`, `Active` or
  `Stacked` with its top), reversed so the furthest card is drawn first.
- `DeckState` (`deck.dfy`) holds the `Deck` class with the component's state.
  `index` and `position` are its own state. `data` is the caller's list, and
  `log` records every call of `onSwipeRight`/`onSwipeLeft` with its item.
  Its methods are the drag-move handler, new props, swipe completion, and a
  release whose animation runs to its target. The screen width is a constant
  of the deck, fixed when it is built, as the source reads it once at load.
  `CompleteSwipes` is a client that runs N swipe completions on a fresh deck.
  `TwoCardWalkthrough` swipes the first of two items right on a 400-wide
  screen, then springs the second back.

Directions are the strings the source passes (`"right"`, `"left"`). As in the
code, every name other than `"right"` counts as left, both for the swipe target
and for the choice of callback.

## Model

| member | source | states |
|---|---|---|
| `SwipeGesture.SwipeThreshold` | src/Deck.js:6 | the threshold is exactly a quarter of the screen width |
| `SwipeGesture.ForceSwipe` | src/Deck.js:61-67 | the swipe-out is a 250 ms timed animation to y = 0 and x = ±width, +width exactly when the direction is "right" (on a non-zero width), and it completes with the same direction |
| `SwipeGesture.ResetPosition` | src/Deck.js:79-83 | the spring-back animation targets the resting place (0, 0) |
| `SwipeGesture.OnRelease` | src/Deck.js:34-42 | a release starts a swipe iff dx is strictly beyond ±threshold, right whenever dx > threshold, left whenever dx is not above the threshold but below its negation; on a non-negative width: right iff dx > threshold, left iff dx < -threshold, spring back to (0, 0) iff -threshold <= dx <= threshold |
| `SwipeGesture.ThresholdReleaseResets` | src/Deck.js:34-42 | a release exactly at +threshold or -threshold springs back to the origin (strict comparisons) |
| `SwipeGesture.SwipeFollowsDrag` | src/Deck.js:34-67 | on a positive width a committed swipe sends the card a full width off the side it was dragged towards, and the threshold is below that width |
| `SwipeGesture.FourHundredWideScreen` | src/Deck.js:34-42 | width 400: threshold 100, dx 150 swipes right to (400, 0), dx -50 springs back, dx -150 swipes left to (-400, 0) |
| `StackRender.CardAt` | src/Deck.js:104-127 | the per-item entry: empty iff the item is before the index, the active card iff it is at the index, otherwise a stacked card; every non-empty entry carries its own item, and a stacked one sits at base + 10·(i - index), below the base |
| `StackRender.Reversed` | src/Deck.js:128 | the reversed list has the same length, and its k-th element is the input's (n-1-k)-th |
| `StackRender.RenderCards` | src/Deck.js:100-128 | the plan is the empty state iff index >= length; otherwise it has one entry per item, and entry k is the per-item entry of item n-1-k |
| `StackRender.RenderShape` | src/Deck.js:104-119 | with cards left: the last `index` entries are empty, the entry at n-1-index is the active card with data[index], it is the only active entry, and every entry before it is a stacked card |
| `StackRender.StackedCardAt` | src/Deck.js:120-124 | every stacked entry of a render, d places behind the active card, is a stacked card with its own item at top = base + 10·d, below the base |
| `StackRender.StackFansOut` | src/Deck.js:120-124 | between two stacked entries, the one drawn later has the strictly smaller top: the stack fans out from back to front |
| `StackRender.RenderDrawsRemainingItems` | src/Deck.js:104-128 | the items drawn are exactly data[index..], each once, in reverse order |
| `DeckState.CallbackFor` | src/Deck.js:73 | exactly one callback fires with the item: right iff the direction is "right", left otherwise |
| `DeckState.Deck.constructor` | src/Deck.js:4-45 | a new deck starts at index 0 with the card at (0, 0), no callbacks fired, and the screen width it is given |
| `DeckState.Deck.Move` | src/Deck.js:29-31 | a drag sets the position to exactly (dx, dy) and changes nothing else |
| `DeckState.Deck.ReceiveProps` | src/Deck.js:49-53 | the new list becomes the deck's list; a changed reference resets index to 0, the same reference keeps it even if the list changed in place; 0 <= index <= length holds afterwards when the reference changed or the old index still fits the new list |
| `DeckState.Deck.SwipeComplete` | src/Deck.js:70-77 | on completion data[index] is appended to the log under exactly one callback, index advances by 1, position is (0, 0), and 0 <= index <= length is kept |
| `DeckState.Deck.Release` | src/Deck.js:34-83 | the release starts the animation `OnRelease` chooses for the deck's fixed screen width; a swipe completes with its direction; a spring back leaves index and log unchanged; the card ends at (0, 0) either way |
| `DeckState.CompleteSwipes` | src/Deck.js:70-77 | from a fresh deck, N <= length completions give index N, one callback per swipe with data[0..N) in order, and a render whose active card is data[N], or the empty state when N = length |

## Left out

- Animation execution is left out: `Animated.timing`, `Animated.spring` and `LayoutAnimation.spring` with the Android `UIManager` flag (src/Deck.js:56-59, 63-66, 80-82). These are time-driven framework physics. The model keeps only each animation's target and duration. `Deck.Release` runs the chosen animation straight to its target.
- The rotation interpolation in `getCardStyle` is left out (src/Deck.js:86-98). It is computed by a framework `interpolate` that is not part of this model.
- PanResponder wiring, `onStartShouldSetPanResponder`, `Dimensions.get`, JSX elements, React keys and `StyleSheet` are left out. The screen width is a parameter. `SCREEN_HEIGHT / 4` is the `baseTop` parameter of the render plan.
- Interleaving of drags with animations that are still running is left out. Every event is one atomic step, in order, as on the UI thread.
- The caller's `renderCard`, `renderNoMoreCards`, `onSwipeRight` and `onSwipeLeft` are left out beyond the fact that they are called. The swipe callbacks appear as entries of `log`, whether the caller gave them or the no-op defaults apply. The render functions appear as plan entries.
- React's asynchronous, batched `setState` is modelled as an immediate assignment.
- `DeckState.Deck.ReceiveProps`: JavaScript reference identity is not modelled. The `changed` flag stands for `nextProps.data !== this.props.data`, so a structurally equal new list still resets the index, and the same array changed in place (a different `nextData` with `changed` false) keeps it. The bound 0 <= index <= length is then not promised: an array that shrank in place can leave the index past its end, and the render shows the empty state, as its `>=` test does in the source.
- `DeckState.Deck.SwipeComplete` and `DeckState.Deck.Release` require `index < |data|`. In the source, `data[index]` is `undefined` otherwise, and only the active card, which exists only then, receives gestures.
