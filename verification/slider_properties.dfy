/** What the slider.js engine guarantees, stated over the step functions of
    `Slider`: a well-formedness invariant every run preserves, the animation
    lock, the autoplay handle, and the consequences of indices that the
    engine never clamps. */
module SliderProperties {
  import opened Opt
  import opened Slots
  import opened Slider
  import StartIndex

  /** The state every run of a slider keeps:
      - the three elements carry the three roles;
      - the lock is held exactly while a completion listener is pending;
      - autoplay is only ever suspended during a transition;
      - no element is hidden at rest, and while a transition is pending every
        hidden element is one the listener will show;
      - the handle in `ival` names a running interval, and ids are fresh;
      - whenever the active index is a real slide, the elements show it and
        its two circular neighbours. */
  ghost predicate Inv<T>(s: State<T>) {
    && IsTriple(s.elems)
    && (s.animated <==> s.pending.Some?)
    && (s.ival == Suspended ==> s.animated)
    && (!s.animated ==> forall i :: 0 <= i < |s.elems| ==> !s.elems[i].hidden)
    && (s.pending.Some? ==> forall i :: 0 <= i < |s.elems| && s.elems[i].hidden ==> i in s.pending.value)
    && (s.ival.Armed? ==> s.ival.id in s.live)
    && FreshIds(s)
    && (0 <= s.n < |s.slides| ==> Painted(s.elems, s.slides, s.n))
  }

  /** The only running interval is the one `ival` names. */
  predicate OneTimer<T>(s: State<T>) {
    s.live == ArmedIds(s.ival)
  }

  lemma InitEstablishesInv<T>(slides: seq<T>, cfg: Config)
    ensures Inv(Init(slides, cfg)) && OneTimer(Init(slides, cfg))
  {
  }

  /** The element a transition hides is one of the two its listener will
      show, so it is visible again once the transition ends. */
  lemma TransitionHidesOnlySides<T>(s: State<T>, k: int, move: Move)
    requires !s.animated && IsTriple(s.elems)
    requires forall i :: 0 <= i < |s.elems| ==> !s.elems[i].hidden
    ensures var t := Transition(s, k, move);
      && (t.pending.Some? ==> forall i :: 0 <= i < |t.elems| && t.elems[i].hidden ==> i in t.pending.value)
      && (s.movetime <= 0 ==> forall i :: 0 <= i < |t.elems| ==> !t.elems[i].hidden)
  {
  }

  lemma TransitionPreservesInv<T>(s: State<T>, k: int, move: Move)
    requires Inv(s)
    ensures Inv(Transition(s, k, move))
  {
    if !s.animated {
      TransitionHidesOnlySides(s, k, move);
    }
  }

  lemma AnimationEndPreservesInv<T>(s: State<T>)
    requires Inv(s)
    ensures Inv(AnimationEnd(s))
  {
  }

  lemma MoveToPreservesInv<T>(s: State<T>, k: int, move: Move)
    requires Inv(s)
    ensures Inv(MoveTo(s, k, move))
  {
    if s.n != k {
      TransitionPreservesInv(s, k, move);
    }
  }

  lemma StepPreservesInv<T>(s: State<T>, e: Event)
    requires Inv(s)
    ensures Inv(Step(s, e))
  {
    match e
    case CallNext => MoveToPreservesInv(s, NextIndex(s.n, |s.slides|), MoveNext);
    case CallPrev => MoveToPreservesInv(s, PrevIndex(s.n, |s.slides|), MovePrev);
    case CallGoTo(k) => MoveToPreservesInv(s, k, GoToMove(s.n, k));
    case CallAutoplay =>
    case IntervalFires(id) =>
      if id in s.live {
        MoveToPreservesInv(s, NextIndex(s.n, |s.slides|), MoveAuto);
      }
    case AnimationFinishes => AnimationEndPreservesInv(s);
    case KeyPressed(code) =>
      if code == 37 || code == 40 {
        MoveToPreservesInv(s, PrevIndex(s.n, |s.slides|), MovePrev);
      } else if code == 38 || code == 39 {
        MoveToPreservesInv(s, NextIndex(s.n, |s.slides|), MoveNext);
      }
  }

  /** Every sequence of calls and events keeps the invariant. */
  lemma {:induction false} RunPreservesInv<T>(s: State<T>, events: seq<Event>)
    requires Inv(s)
    ensures Inv(Run(s, events))
    decreases |events|
  {
    if events != [] {
      StepPreservesInv(s, events[0]);
      RunPreservesInv(Step(s, events[0]), events[1..]);
    }
  }

  /** A slider fresh from `init` keeps the invariant through any run. */
  lemma ReachableStatesAreWellFormed<T>(slides: seq<T>, cfg: Config, events: seq<Event>)
    ensures Inv(Run(Init(slides, cfg), events))
  {
    InitEstablishesInv(slides, cfg);
    RunPreservesInv(Init(slides, cfg), events);
  }

  // ---------------------------------------------------------------------
  // Index arithmetic
  // ---------------------------------------------------------------------

  /** On a real slide, `next` and `prev` stay on real slides and undo each
      other. */
  lemma NextPrevInverse(n: int, size: int)
    requires 0 <= n < size
    ensures PrevIndex(NextIndex(n, size), size) == n
    ensures NextIndex(PrevIndex(n, size), size) == n
  {
  }

  // ---------------------------------------------------------------------
  // The animation lock
  // ---------------------------------------------------------------------

  predicate IsMoveRequest(e: Event) {
    e.CallNext? || e.CallPrev? || e.CallGoTo? || e.IntervalFires? || e.KeyPressed?
  }

  /** While the lock is held every move request is dropped: nothing about the
      slider changes, not its index, roles, contents, timer or events. */
  lemma LockedDropsMoves<T>(s: State<T>, e: Event)
    requires s.animated && IsMoveRequest(e)
    ensures Step(s, e) == s
  {
  }

  /** Only the completion event releases a held lock. */
  lemma OnlyAnimationEndUnlocks<T>(s: State<T>, e: Event)
    requires s.animated && e != AnimationFinishes
    ensures Step(s, e).animated
  {
  }

  /** A move request that is accepted with `movetime > 0` leaves the lock held
      and a completion listener registered. */
  lemma AcceptedMoveLocks<T>(s: State<T>, e: Event)
    requires !s.animated && s.movetime > 0 && IsMoveRequest(e) && Step(s, e) != s
    ensures Step(s, e).animated && Step(s, e).pending.Some?
  {
  }

  lemma SyncMoveNeverLocks<T>(s: State<T>, k: int, move: Move)
    requires s.movetime <= 0 && !s.animated
    ensures var t := MoveTo(s, k, move); !t.animated && t.movetime == s.movetime
  {
  }

  lemma SyncStepNeverLocks<T>(s: State<T>, e: Event)
    requires s.movetime <= 0 && !s.animated
    ensures !Step(s, e).animated && Step(s, e).movetime == s.movetime
  {
    match e
    case CallNext => SyncMoveNeverLocks(s, NextIndex(s.n, |s.slides|), MoveNext);
    case CallPrev => SyncMoveNeverLocks(s, PrevIndex(s.n, |s.slides|), MovePrev);
    case CallGoTo(k) => SyncMoveNeverLocks(s, k, GoToMove(s.n, k));
    case CallAutoplay =>
    case IntervalFires(id) => SyncMoveNeverLocks(s, NextIndex(s.n, |s.slides|), MoveAuto);
    case AnimationFinishes =>
    case KeyPressed(code) =>
      if code == 37 || code == 40 {
        SyncMoveNeverLocks(s, PrevIndex(s.n, |s.slides|), MovePrev);
      } else if code == 38 || code == 39 {
        SyncMoveNeverLocks(s, NextIndex(s.n, |s.slides|), MoveNext);
      }
  }

  /** With `movetime <= 0` no run ever leaves the lock held. */
  lemma {:induction false} SyncRunsNeverLock<T>(s: State<T>, events: seq<Event>)
    requires s.movetime <= 0 && !s.animated
    ensures !Run(s, events).animated
    decreases |events|
  {
    if events != [] {
      SyncStepNeverLocks(s, events[0]);
      SyncRunsNeverLock(Step(s, events[0]), events[1..]);
    }
  }

  /** Two `next()` calls before the completion event move by one slide. */
  lemma NextTwiceMovesOnce<T>(s: State<T>)
    requires !s.animated && s.movetime > 0
    requires 0 <= s.n < |s.slides| && |s.slides| >= 2
    ensures Next(Next(s)) == Next(s)
    ensures Next(s).n == (s.n + 1) % |s.slides|
  {
  }

  /** With a single slide at index 0 the index arithmetic returns the same
      index, so `next`, `prev`, the arrow keys and autoplay ticks change
      nothing. */
  lemma SingleSlideIgnoresMoves<T>(s: State<T>, e: Event)
    requires |s.slides| == 1 && s.n == 0
    requires e.CallNext? || e.CallPrev? || e.IntervalFires? || e.KeyPressed?
    ensures Step(s, e) == s
  {
  }

  /** One slide does not pin the index: a start of 1 is kept by the clamp,
      and from there `next` goes to 2 and `prev` back to 0. */
  lemma SingleSlideStartedAtOneMoves<T>(x: T, movetime: int)
    ensures var s := Init([x], Config(StartIndex.StartNumber(1), false, movetime));
      && s.n == 1
      && Next(s) != s && Next(s).n == 2
      && Prev(s) != s && Prev(s).n == 0
  {
    StartIndex.SizeIsReturnedUnclamped(1);
  }

  /** After an accepted `next()` from a real slide the elements show the
      following slide and its neighbours. */
  lemma NextRepaints<T>(s: State<T>)
    requires !s.animated && 0 <= s.n < |s.slides| && |s.slides| >= 2
    ensures var t := Next(s); t.n == (s.n + 1) % |s.slides| && Painted(t.elems, s.slides, t.n)
  {
  }

  // ---------------------------------------------------------------------
  // goTo
  // ---------------------------------------------------------------------

  /** `goTo` picks its direction by sign, not by circular distance: from
      slide 0 to the last slide it rotates forward, as a run of `next` calls
      would, although a single `prev` reaches the same slide. */
  lemma GoToIgnoresShorterPath<T>(s: State<T>)
    requires Inv(s) && !s.animated && s.n == 0 && |s.slides| >= 3
    ensures GoTo(s, |s.slides| - 1).n == Prev(s).n
    ensures forall i :: 0 <= i < |s.elems| && s.elems[i].role == PrevSlot ==>
      GoTo(s, |s.slides| - 1).elems[i].role == NextSlot && Prev(s).elems[i].role == CurrSlot
  {
  }

  /** `goTo(k)` past the end is accepted as is: the index becomes `k` and no
      element receives new content, so the slider keeps showing the old
      slide while reporting index `k`. */
  lemma GoToPastTheEnd<T>(s: State<T>, k: int)
    requires !s.animated && k > |s.slides| && k != s.n
    ensures GoTo(s, k).n == k
    ensures |GoTo(s, k).elems| == |s.elems|
    ensures forall i :: 0 <= i < |s.elems| ==> GoTo(s, k).elems[i].html == s.elems[i].html
  {
    var move := GoToMove(s.n, k);
    var re := Reassign(s.elems, move);
    PaintSlotsFarOut(re, s.slides, k);
  }

  // ---------------------------------------------------------------------
  // Autoplay
  // ---------------------------------------------------------------------

  /** A manual move while autoplay runs stops its interval, so no tick can
      arrive during the transition; the completion event starts a new
      interval with a new id. */
  lemma ManualMoveSuspendsAutoplay<T>(s: State<T>, k: int)
    requires Inv(s) && OneTimer(s) && s.ival.Armed? && !s.animated && s.movetime > 0 && k != s.n
    ensures var t := GoTo(s, k);
      t.ival == Suspended && t.live == {} && forall id :: Tick(t, id) == t
    ensures var u := AnimationEnd(GoTo(s, k));
      !u.animated && u.ival.Armed? && u.live == {u.ival.id} && u.ival.id != s.ival.id
  {
  }

  /** Autoplay ticks never touch the timer. */
  lemma AutoMovesKeepTimer<T>(s: State<T>, id: nat)
    requires Inv(s)
    ensures Tick(s, id).ival == s.ival && Tick(s, id).live == s.live
    ensures AnimationEnd(Tick(s, id)).ival == s.ival || s.animated
  {
  }

  /** Without a call to `autoplay()`, a slider whose autoplay is off never
      starts or stops an interval. */
  lemma {:induction false} AutoplayOffStaysOff<T>(s: State<T>, events: seq<Event>)
    requires s.ival == Unset
    requires forall i :: 0 <= i < |events| ==> events[i] != CallAutoplay
    ensures Run(s, events).ival == Unset && Run(s, events).live == s.live
    decreases |events|
  {
    if events != [] {
      AutoplayOffStaysOff(Step(s, events[0]), events[1..]);
    }
  }

  lemma MoveToKeepsOneTimer<T>(s: State<T>, k: int, move: Move)
    requires Inv(s) && OneTimer(s)
    ensures OneTimer(MoveTo(s, k, move))
  {
  }

  lemma StepKeepsOneTimer<T>(s: State<T>, e: Event)
    requires Inv(s) && OneTimer(s) && e != CallAutoplay
    ensures OneTimer(Step(s, e))
  {
    match e
    case CallNext => MoveToKeepsOneTimer(s, NextIndex(s.n, |s.slides|), MoveNext);
    case CallPrev => MoveToKeepsOneTimer(s, PrevIndex(s.n, |s.slides|), MovePrev);
    case CallGoTo(k) => MoveToKeepsOneTimer(s, k, GoToMove(s.n, k));
    case IntervalFires(id) =>
      if id in s.live {
        MoveToKeepsOneTimer(s, NextIndex(s.n, |s.slides|), MoveAuto);
      }
    case AnimationFinishes =>
    case KeyPressed(code) =>
      if code == 37 || code == 40 {
        MoveToKeepsOneTimer(s, PrevIndex(s.n, |s.slides|), MovePrev);
      } else if code == 38 || code == 39 {
        MoveToKeepsOneTimer(s, NextIndex(s.n, |s.slides|), MoveNext);
      }
  }

  /** Unless `autoplay()` is called again, at most one interval runs, and it
      is the one `ival` names. */
  lemma {:induction false} RunKeepsOneTimer<T>(s: State<T>, events: seq<Event>)
    requires Inv(s) && OneTimer(s)
    requires forall i :: 0 <= i < |events| ==> events[i] != CallAutoplay
    ensures OneTimer(Run(s, events))
    decreases |events|
  {
    if events != [] {
      StepKeepsOneTimer(s, events[0]);
      StepPreservesInv(s, events[0]);
      RunKeepsOneTimer(Step(s, events[0]), events[1..]);
    }
  }

  /** Calling `autoplay()` while it already runs loses the first interval: it
      keeps running, a manual move stops only the second, and the first keeps
      firing while autoplay is meant to be suspended. */
  lemma AutoplayTwiceLeaks<T>(s: State<T>)
    requires Inv(s) && OneTimer(s) && s.ival.Armed? && !s.animated && s.movetime > 0
    requires 0 <= s.n < |s.slides| && |s.slides| >= 2
    ensures |Autoplay(s).live| == 2
    ensures var t := Next(Autoplay(s)); t.ival == Suspended && t.live == {s.ival.id}
  {
    var a := Autoplay(s);
    assert a.live == {s.ival.id, a.ival.id};
  }

  // ---------------------------------------------------------------------
  // Start index one past the end
  // ---------------------------------------------------------------------

  /** When the start option resolves to the slide count, `init` paints only
      the prev element (with the last slide): the curr and next elements stay
      empty. */
  lemma StartAtSizeShowsNothing<T>(slides: seq<T>, cfg: Config)
    requires |slides| >= 1 && StartIndex.SetStart(cfg.start, |slides|) == |slides|
    ensures var s := Init(slides, cfg);
      s.n == |slides| &&
      forall i :: 0 <= i < |s.elems| ==>
        s.elems[i].html == (if s.elems[i].role == PrevSlot then Some(slides[|slides| - 1]) else None)
  {
    var n := StartIndex.SetStart(cfg.start, |slides|);
    var s0 := State(slides, cfg.movetime, n, false, Fresh(), Unset, {}, 0, None, []);
    var s1 := SetSlideHtml(s0, n);
    assert GoTo(s1, s1.n) == s1;
    PaintSlotsAtSize(Fresh<T>(), slides);
    assert s1.elems == PaintSlots(Fresh<T>(), slides, |slides|);
  }

  predicate IsForward(e: Event) {
    e.CallNext? || e.IntervalFires? || e.AnimationFinishes? || e.CallAutoplay?
    || (e.KeyPressed? && (e.code == 38 || e.code == 39))
  }

  /** Once the index is past the last slide, forward moves only push it
      further: `next` wraps at exactly `size - 1`, an index it never meets. */
  lemma {:induction false} PastTheEndStaysPast<T>(s: State<T>, events: seq<Event>)
    requires s.n >= |s.slides|
    requires forall i :: 0 <= i < |events| ==> IsForward(events[i])
    ensures Run(s, events).n >= s.n && Run(s, events).slides == s.slides
    decreases |events|
  {
    if events != [] {
      var t := Step(s, events[0]);
      assert t.n >= s.n && t.slides == s.slides;
      PastTheEndStaysPast(t, events[1..]);
    }
  }

  // ---------------------------------------------------------------------
  // Events
  // ---------------------------------------------------------------------

  lemma MoveToExtendsLog<T>(s: State<T>, k: int, move: Move)
    ensures s.log <= MoveTo(s, k, move).log
  {
    if s.n != k && !s.animated {
      var t := Transition(s, k, move);
      assert t.log[..|s.log|] == s.log;
    }
  }

  lemma StepExtendsLog<T>(s: State<T>, e: Event)
    ensures s.log <= Step(s, e).log
  {
    match e
    case CallNext => MoveToExtendsLog(s, NextIndex(s.n, |s.slides|), MoveNext);
    case CallPrev => MoveToExtendsLog(s, PrevIndex(s.n, |s.slides|), MovePrev);
    case CallGoTo(k) => MoveToExtendsLog(s, k, GoToMove(s.n, k));
    case CallAutoplay =>
    case IntervalFires(id) => MoveToExtendsLog(s, NextIndex(s.n, |s.slides|), MoveAuto);
    case AnimationFinishes =>
    case KeyPressed(code) =>
      if code == 37 || code == 40 {
        MoveToExtendsLog(s, PrevIndex(s.n, |s.slides|), MovePrev);
      } else if code == 38 || code == 39 {
        MoveToExtendsLog(s, NextIndex(s.n, |s.slides|), MoveNext);
      }
  }

  /** The custom-event stream is append-only. */
  lemma {:induction false} RunExtendsLog<T>(s: State<T>, events: seq<Event>)
    ensures s.log <= Run(s, events).log
    decreases |events|
  {
    if events != [] {
      StepExtendsLog(s, events[0]);
      RunExtendsLog(Step(s, events[0]), events[1..]);
    }
  }
}
