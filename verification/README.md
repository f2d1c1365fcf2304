# Slider transition engine — a Dafny model

This project models the two slide engines of the `tenub/slider` jQuery carousel and proves properties about them. Slides are opaque values of a type `T`.

- **slider.js** is the later plugin engine. It keeps three render elements in the container. Each element carries a role (prev, curr or next), a hidden flag, and the content last written into it. Every move does the same things in order:
  1. compute a target index (`next`, `prev`, an autoplay tick, or `goTo`);
  2. drop the move if the target is the current index or the animation lock is held;
  3. otherwise reassign the roles, suspend autoplay for a manual move, and repaint the three elements around the target;
  4. release the lock, either at once (`movetime <= 0`) or when the completion event arrives. A suspended autoplay restarts at that point.
- **app.js** is the earlier engine. It shows one child of the container and hides the rest. Its `next`/`prev` wrap around in the same way, but it has no lock, no equality guard and no autoplay. This is the engine the build ships: `Gruntfile.js:90-94` concatenates only `src/js/app/*.js`, and `src/js/main.js:10` loads that bundle.

The engines are modelled as pure functions over immutable states:

- `Slider.State` holds the index, the lock, the elements, the autoplay handle `ival`, the browser's set of running intervals, the pending completion listener and the custom-event log.
- `App.Carousel` holds the index and one shown/hidden flag per child.

Timer ticks and the completion event (`transitionend` and its vendor-prefixed names) are explicit events (`Slider.Event`).

| file | module | models |
|---|---|---|
| `opt.dfy` | `Opt` | `undefined` as `Option` |
| `jquery.dfy` | `JQuery` | jQuery 2.1's `.eq(i)` (a negative index counts back once; other out-of-range indices select nothing) and `.html(undefined)` (changes nothing) |
| `start_index.dfy` | `StartIndex` | `_setStart`, `_parseN`, and the parts of `parseInt(s, 10)` and `Number.prototype.toString` they use |
| `slots.dfy` | `Slots` | the three render elements, role reassignment, `_setSlideHtml`'s writes, `$prev.show()/$next.show()` |
| `slider.dfy` | `Slider` | state, timer, `_transition`, `_transitionEnd`, `_moveTo`, `next`, `prev`, `goTo`, autoplay ticks, keydown, `init`, runs of events |
| `slider_properties.dfy` | `SliderProperties` | the invariant of every run, and lemmas about the lock, the timer, `goTo` and out-of-range indices |
| `app.dfy` | `App` | the app.js engine |
| `circular.dfy` | `Circular` | remainder arithmetic used by the wrap-around proofs |

Behaviour of the source that the model exposes rather than corrects:

- `_parseN` clamps only when `n > size`. A start option equal to the slide count (`4` with four slides) therefore yields index `size`. The slider then paints only the prev element: curr and next stay empty. Forward moves from there only increase the index.
- `goTo(k)` neither clamps `k` nor takes the shorter way round. Its direction is the sign of `k - n`. `goTo(k)` with `k > size` sets the index and repaints nothing. `goTo(size)` repaints only the prev element, with the last slide.
- One slide does not pin the slider. With `start: 1` the clamp keeps index 1. From there `next()` moves to 2 and `prev()` moves to 0, and both transitions run.
- `init`'s `goTo(self.n)` never does anything.
- Calling `autoplay()` while autoplay already runs starts a second interval. The first one is no longer tracked, and a manual move stops only the second.
- A short start text goes through `parseInt` (`"3x"` gives 3, `"-5"` gives 0). A start text is measured in UTF-16 code units, as JavaScript's `length` does, so a digit followed by an emoji is three units long and starts at slide 0. A numeric start is used only when its text is at most two characters long (-9 to 99). `100` therefore starts at slide 0, not at the last slide.

The active index can therefore leave `[0, size)`: nothing clamps `goTo`'s argument, and `_parseN` keeps `size`. In the model the index is any integer.

## Model

| member | source | states |
|---|---|---|
| StartIndex.ParseIntOfIntToString | src/js/plugin/slider.js:500-505 | `parseInt` reads back the text `toString` gives for any integer |
| StartIndex.IntToStringShort | src/js/plugin/slider.js:502-504 | a number's text is at most two characters long exactly for -9..99 |
| StartIndex.ParseN | src/js/plugin/slider.js:365-381 | NaN and negatives give 0; values above `size` give `size - 1`; values in `[0, size]` are kept, `size` included; the result lies in `[0, size]` |
| StartIndex.SetStart | src/js/plugin/slider.js:496-516 | texts of at most two UTF-16 code units go through `_parseN`; "last"/"end" give `size - 1`; other values give 0; the result lies in `[0, size]` |
| StartIndex.AstralTextIsLong | src/js/plugin/slider.js:502-514 | `"1"` followed by U+1F600 is three code units long, so it skips `_parseN` (which would give 1) and starts at slide 0 |
| StartIndex.SetStartNumber | src/js/plugin/slider.js:500-506 | a number in -9..99 is clamped; any other number starts at 0 |
| StartIndex.SizeIsReturnedUnclamped | src/js/plugin/slider.js:371-379 | `start` equal to the slide count, as a number or as text, resolves to the out-of-range index `size` |
| StartIndex.SetStartInRangeUnlessSize | src/js/plugin/slider.js:365-381 | the resolved start is a real slide unless the option parses to exactly `size` |
| Slots.Fresh | src/js/plugin/slider.js:241-260 | `_initHtml` builds three shown, empty elements that carry the three roles |
| Slots.Reassign | src/js/plugin/slider.js:600-631 | next/auto: prev→next (hidden), curr→prev, next→curr; prev: the mirror, with the old next hidden; other moves keep roles; contents untouched; a role triple stays a triple |
| Slots.RoleAfterIsPermutation | src/js/plugin/slider.js:600-631 | each reassignment is a bijection on roles, and forward and backward undo each other |
| Slots.OffsetWraps | src/js/plugin/slider.js:472-474 | `_setSlideHtml`'s explicit wrap at 0 and at `size - 1` is the circular −1/+1 offset |
| Slots.PaintSlotsInRange | src/js/plugin/slider.js:469-481 | for `0 <= k < size`, prev/curr/next hold slides `(k-1) mod size`, `k`, `(k+1) mod size` |
| Slots.PaintSlotsAtSize | src/js/plugin/slider.js:471-481 | painting index `size` writes only the prev element (with the last slide); curr and next keep their old content |
| Slots.PaintSlotsFarOut | src/js/plugin/slider.js:471-481 | painting an index beyond `size`, or below `-size - 1`, writes nothing |
| Slots.Reveal | src/js/plugin/slider.js:579-580 | exactly the captured elements become shown; roles and contents unchanged |
| Slider.NextIndex | src/js/plugin/slider.js:100-109 | on a real slide the target is `(n + 1) mod size`; past the end it is `n + 1` and never wraps |
| Slider.PrevIndex | src/js/plugin/slider.js:119-126 | on a real slide the target is `(n - 1) mod size`; from `size` it returns to `size - 1` |
| Slider.GoToMove | src/js/plugin/slider.js:162-165 | the move is 'prev' exactly when `k < n`, and 'next' otherwise |
| Slider.Autoplay | src/js/plugin/slider.js:137-155 | starts one fresh interval and arms `ival` with it; running intervals are kept; nothing else changes |
| Slider.ResetInterval | src/js/plugin/slider.js:404-413 | stops the interval `ival` names, sets `ival` to suspended, and changes nothing else |
| Slider.SetSlideHtml | src/js/plugin/slider.js:469-489 | the index becomes `k`; in range the elements are painted around `k`; roles and hidden flags are kept |
| Slider.TransitionEnd | src/js/plugin/slider.js:573-590 | releases the lock and shows the captured elements; re-arms autoplay exactly when it was suspended; appends the end event |
| Slider.Transition | src/js/plugin/slider.js:523-564 | a held lock drops the call unchanged; otherwise: index `k`, roles reassigned, the far-side element (prev on next/auto, next on prev) hidden until the completion event, painted around `k`, locked iff `movetime > 0` with a listener for the old side elements; manual moves suspend autoplay (restarted at once when `movetime <= 0`); auto moves and unset autoplay leave the timer alone |
| Slider.MoveTo | src/js/plugin/slider.js:275-285 | the state is unchanged exactly when the target equals the index or the lock is held; otherwise the index becomes the target |
| Slider.Next | src/js/plugin/slider.js:100-113 | drops exactly when locked or when the target is the current index; otherwise moves to `(n + 1) mod size` from a real slide, rotating roles forward as a 'next' move |
| Slider.Prev | src/js/plugin/slider.js:119-132 | drops exactly when locked or when the target is the current index; otherwise moves to `(n - 1) mod size` from a real slide, rotating roles backward as a 'prev' move |
| Slider.GoTo | src/js/plugin/slider.js:162-171 | drops exactly when locked or when `k == n`; otherwise the index becomes `k`, unclamped, with roles rotated backward iff `k < n` |
| Slider.Tick | src/js/plugin/slider.js:141-151 | a tick moves exactly when its interval is running, the lock is free and the next index differs from the current one, and then rotates roles as an 'auto' move; when autoplay is not suspended a tick leaves the timer and the running intervals as they were; an accepted tick moves to the next index |
| Slider.AnimationEnd | src/js/plugin/slider.js:550-554 | without a pending listener nothing changes; otherwise the lock is released, the listener consumed, and autoplay re-armed only if it was suspended |
| Slider.KeyDown | src/js/plugin/slider.js:209-231 | keys 37 and 40 call `prev()`, keys 38 and 39 call `next()`, and every other key does nothing |
| Slider.Init | src/js/plugin/slider.js:46-94 | index from `_setStart`; unlocked, no listener, log `[loaded]`; one interval iff autoplay is 'on'; three shown elements, painted when the index is a real slide |
| SliderProperties.InitEstablishesInv | src/js/plugin/slider.js:46-94 | a fresh slider is well formed and runs at most one interval |
| SliderProperties.TransitionPreservesInv | src/js/plugin/slider.js:523-564 | a transition keeps the role triple, the lock/listener link and the hidden/reveal cover, and paints a real target |
| SliderProperties.TransitionHidesOnlySides | src/js/plugin/slider.js:536-560 | the element a transition hides is one its listener will show; with `movetime <= 0` nothing is left hidden |
| SliderProperties.AnimationEndPreservesInv | src/js/plugin/slider.js:573-590 | the completion event keeps the invariant |
| SliderProperties.StepPreservesInv | src/js/plugin/slider.js:100-171 | every call or event keeps the invariant |
| SliderProperties.RunPreservesInv | src/js/plugin/slider.js:523-590 | every run of calls and events keeps the invariant |
| SliderProperties.ReachableStatesAreWellFormed | src/js/plugin/slider.js:46-94 | every state reachable from `init` is well formed |
| SliderProperties.NextPrevInverse | src/js/plugin/slider.js:100-132 | on a real slide, `next` and `prev` targets undo each other |
| SliderProperties.LockedDropsMoves | src/js/plugin/slider.js:530-532 | while locked, every move request leaves the whole state unchanged |
| SliderProperties.OnlyAnimationEndUnlocks | src/js/plugin/slider.js:573-577 | no call or event other than the completion event releases a held lock |
| SliderProperties.AcceptedMoveLocks | src/js/plugin/slider.js:534-554 | an accepted move with `movetime > 0` holds the lock and registers a listener |
| SliderProperties.SyncRunsNeverLock | src/js/plugin/slider.js:548-560 | with `movetime <= 0`, no run leaves the lock held |
| SliderProperties.NextTwiceMovesOnce | src/js/plugin/slider.js:530-534 | a second `next()` before the completion event is dropped, so the index moves one step |
| SliderProperties.SingleSlideIgnoresMoves | src/js/plugin/slider.js:275-285 | with one slide at index 0, `next`, `prev`, ticks and keys change nothing |
| SliderProperties.SingleSlideStartedAtOneMoves | src/js/plugin/slider.js:100-129 | one slide started at 1 keeps index 1, and from there `next` moves to 2 and `prev` moves back to 0 |
| SliderProperties.NextRepaints | src/js/plugin/slider.js:469-483 | after `next` from a real slide, the elements show the new slide and its neighbours |
| SliderProperties.GoToIgnoresShorterPath | src/js/plugin/slider.js:162-171 | `goTo(size - 1)` from 0 reaches the same index as `prev`, but rotates roles forward |
| SliderProperties.GoToPastTheEnd | src/js/plugin/slider.js:162-171 | `goTo(k)` with `k > size` sets the index to `k` and changes no content |
| SliderProperties.ManualMoveSuspendsAutoplay | src/js/plugin/slider.js:542-544 | a manual move stops the only interval, so no tick fires until the completion event; that event starts a new interval |
| SliderProperties.AutoMovesKeepTimer | src/js/plugin/slider.js:141-151 | autoplay ticks, and the end of their transitions, leave the timer as it was |
| SliderProperties.AutoplayOffStaysOff | src/js/plugin/slider.js:542-544 | with `ival` unset and no `autoplay()` call, no run starts or stops an interval |
| SliderProperties.StepKeepsOneTimer | src/js/plugin/slider.js:404-413 | every call or event except `autoplay()` keeps "the only running interval is `ival`'s" |
| SliderProperties.RunKeepsOneTimer | src/js/plugin/slider.js:582-584 | runs without `autoplay()` calls never run more than the tracked interval |
| SliderProperties.AutoplayTwiceLeaks | src/js/plugin/slider.js:137-155 | a second `autoplay()` leaves two intervals, and a manual move stops only the tracked one |
| SliderProperties.StartAtSizeShowsNothing | src/js/plugin/slider.js:469-481 | when the start resolves to `size`, only the prev element gets content (the last slide); curr and next stay empty |
| SliderProperties.PastTheEndStaysPast | src/js/plugin/slider.js:100-109 | from an index past the end, forward moves, ticks and completions never lower the index |
| SliderProperties.RunExtendsLog | src/js/plugin/slider.js:600-631 | the custom-event stream only grows |
| App.ShowSlide | src/js/app/app.js:137-150 | child `k` alone is shown for `0 <= k < size`; a negative `k` counts back once; any other `k` changes nothing |
| App.MoveTo | src/js/app/app.js:84-94 | the index becomes `k` unconditionally, and in range only child `k` is shown |
| App.Next | src/js/app/app.js:40-51 | from a real child: index `(n + 1) mod size`, and only that child shown |
| App.Prev | src/js/app/app.js:53-64 | from a real child: index `(n - 1) mod size`, and only that child shown |
| App.Init | src/js/app/app.js:28-38 | index 0, and only child 0 shown, whatever the options and prior visibility |
| App.InitIsValid | src/js/app/app.js:28-35 | `init` on a non-empty container gives a well-formed carousel |
| App.MoveToSameIndexRepaints | src/js/app/app.js:84-94 | with no equality guard, moving to the current index still hides every other child |
| App.NextPrevInverse | src/js/app/app.js:40-64 | on a well-formed carousel, `next` and `prev` undo each other exactly |
| App.ClicksAdvance | src/js/app/app.js:74-78 | after `j` clicks the carousel shows only child `(n + j) mod size` |
| App.ClicksCycle | src/js/app/app.js:74-78 | `size` clicks return the carousel to exactly its starting state |
| App.ClicksVisitEverySlide | src/js/app/app.js:74-78 | every child is reached within fewer than `size` clicks |

## Left out

- DOM wrapping in `init`, element creation and transition CSS in `_initHtml`, and the `_navigation` and `_pagination` markup and click wiring. These are jQuery plumbing; only the three elements `_initHtml` produces are modelled.
- Sizing: `_setContainerSize`, `_setSlideCss` and `_redrawSlider` in slider.js; `_setContainerSize`, `_setSlidesSize` and `_redrawSlider` in app.js. They read browser layout.
- CSS transition strings built from `movetime / 1000`. This is floating-point rendering detail.
- The real `setInterval`/`clearInterval`, and the `stoptime` period. Intervals are ids in a set, and a tick is an event that only a running interval can produce.
- The completion event's vendor names and jQuery's `.one` semantics. The model delivers the completion event at most once per transition. A second firing under another vendor name, or a `transitionend` bubbling up from slide content, is not modelled.
- Custom events and the `loaded.slider` handler that makes the element visible. The events are kept only as an append-only log.
- The window resize handlers of both engines. They only redraw sizes.
- The `$.fn.slider` per-element registry. It is a jQuery data call.
- JavaScript coercions of `goTo`'s argument. The model takes an integer, which is what pagination passes.
- `Gruntfile.js` and `src/js/main.js`: build configuration and bootstrap.
- Index arithmetic in JavaScript numbers. The model's indices are unbounded integers. In the source, `goTo(2**53)` followed by `next()` computes `n + 1 == n`, so the move is dropped; the model moves to 2^53 + 1.
- Role elements nested in slide markup. `container.find('.prev')`, `'.curr'` and `'.next'` match every descendant carrying those classes, not just the three render elements. A slide whose markup uses those class names would add elements that get role changes, hiding and content writes. The model assumes exactly three role elements, as `IsTriple` and `Sides` state.
- StartIndex.IntToString: writes integers of 10^21 and above in plain digits, where JavaScript switches to exponent notation. Both texts are far longer than two characters, so `_setStart` gives 0 either way.
