/** The slide-transition engine of slider.js as a pure state machine. A
    `State` holds everything the engine reads or writes: the active index, the
    animation lock, the three render elements, the autoplay handle, the
    browser's table of running intervals, the completion listener that may be
    pending, and the custom events triggered so far. Each public entry point
    and each external event is a function from state to state. */
module Slider {
  import opened Opt
  import opened Slots
  import StartIndex
  import Circular

  /** `self.ival`: never assigned (`undefined`), cleared by `_resetInterval`
      (`false`), or the id of the interval `autoplay()` started. */
  datatype Timer = Unset | Suspended | Armed(id: nat)

  /** The custom events triggered on the slider element. */
  datatype Notice = Loaded | NextStarted | PrevStarted | TransitionEnded

  /** The options the engine reads; `autoplay` is `options.autoplay === 'on'`. */
  datatype Config = Config(start: StartIndex.StartValue, autoplay: bool, movetime: int)

  datatype State<T> = State(
    slides: seq<T>,             // `_slides`: the original children, never changed
    movetime: int,              // `options.movetime`
    n: int,                     // `self.n`, the active index
    animated: bool,             // `_isAnimated`, the animation lock
    elems: seq<Element<T>>,     // the render elements inside the container
    ival: Timer,                // `self.ival`
    live: set<nat>,             // intervals the browser keeps firing
    nextId: nat,                // the id the next `setInterval` hands out
    pending: Option<set<nat>>,  // a registered completion listener, with the elements it will show
    log: seq<Notice>)           // custom events triggered so far, oldest first

  /** Ids of the interval a handle names. */
  function ArmedIds(t: Timer): set<nat> {
    if t.Armed? then {t.id} else {}
  }

  /** Every running interval has an id below the next one to be handed out. */
  predicate FreshIds<T>(s: State<T>) {
    forall x :: x in s.live ==> x < s.nextId
  }

  // ---------------------------------------------------------------------
  // Index arithmetic
  // ---------------------------------------------------------------------

  /** The target of `next()` and of an autoplay tick: 0 after the last index,
      otherwise one more. */
  function NextIndex(n: int, size: int): (m: int)
    ensures 0 <= n < size ==> 0 <= m < size && m == (n + 1) % size
    ensures n >= size ==> m == n + 1
  {
    Circular.WrapForward(n, size);
    if n != size - 1 then n + 1 else 0
  }

  /** The target of `prev()`: the last index before 0, otherwise one less. */
  function PrevIndex(n: int, size: int): (m: int)
    ensures 0 <= n < size ==> 0 <= m < size && m == (n - 1) % size
    ensures n < 0 ==> m == n - 1
    ensures n == size ==> m == size - 1
  {
    Circular.WrapBack(n, size);
    if n != 0 then n - 1 else size - 1
  }

  /** The move `goTo(k)` asks for: 'prev' when `k - n` is negative, 'next'
      otherwise, whatever the circular distance. */
  function GoToMove(n: int, k: int): (m: Move)
    ensures m == MovePrev <==> k < n
    ensures m != MovePrev ==> m == MoveNext
  {
    if k - n < 0 then MovePrev else MoveNext
  }

  predicate IsManual(move: Move) {
    move == MoveNext || move == MovePrev
  }

  function Announce(move: Move): seq<Notice> {
    match move
    case MoveNext | MoveAuto => [NextStarted]
    case MovePrev => [PrevStarted]
    case MoveOther => []
  }

  /** The elements carrying the prev and next roles: the `$prev` and `$next`
      sets `_transition` captures before reassigning roles. */
  function Sides<T>(elems: seq<Element<T>>): (r: set<nat>)
    ensures forall i :: i in r <==> 0 <= i < |elems| && elems[i].role != CurrSlot
  {
    set i: nat | i < |elems| && elems[i].role != CurrSlot
  }

  // ---------------------------------------------------------------------
  // Timer
  // ---------------------------------------------------------------------

  /** `autoplay()`: start a new interval and keep its id in `ival`. An
      interval already running is neither stopped nor remembered. */
  function Autoplay<T>(s: State<T>): (t: State<T>)
    ensures t.ival.Armed? && t.live == s.live + {t.ival.id}
    ensures FreshIds(s) ==> t.ival.id !in s.live && FreshIds(t)
    ensures t.(ival := s.ival, live := s.live, nextId := s.nextId) == s
  {
    s.(ival := Armed(s.nextId), live := s.live + {s.nextId}, nextId := s.nextId + 1)
  }

  /** `_resetInterval(self.ival)`: stop the interval `ival` names, then set
      `ival` to `false` so that the end of the transition can tell autoplay
      was suspended. */
  function ResetInterval<T>(s: State<T>): (t: State<T>)
    ensures t.ival == Suspended
    ensures t.live == s.live - ArmedIds(s.ival)
    ensures t.(ival := s.ival, live := s.live) == s
  {
    s.(ival := Suspended, live := s.live - ArmedIds(s.ival))
  }

  // ---------------------------------------------------------------------
  // Transitions
  // ---------------------------------------------------------------------

  /** `_setSlideHtml(k)`: repaint the three elements around `k`, then make
      `k` the active index. */
  function SetSlideHtml<T>(s: State<T>, k: int): (t: State<T>)
    ensures t.n == k
    ensures 0 <= k < |s.slides| ==> Painted(t.elems, s.slides, k)
    ensures |t.elems| == |s.elems|
    ensures forall i :: 0 <= i < |t.elems| ==> t.elems[i].role == s.elems[i].role && t.elems[i].hidden == s.elems[i].hidden
    ensures t.(elems := s.elems, n := s.n) == s
  {
    var elems := PaintSlots(s.elems, s.slides, k);
    if 0 <= k < |s.slides| then
      PaintSlotsInRange(s.elems, s.slides, k);
      s.(elems := elems, n := k)
    else
      s.(elems := elems, n := k)
  }

  /** `_transitionEnd($prev, $next)`: release the lock, show the elements
      captured when the transition began, restart autoplay if a manual move
      suspended it, and announce the end. */
  function TransitionEnd<T>(s: State<T>, shown: set<nat>): (t: State<T>)
    ensures !t.animated
    ensures |t.elems| == |s.elems|
    ensures forall i :: 0 <= i < |t.elems| ==>
      t.elems[i].role == s.elems[i].role && t.elems[i].html == s.elems[i].html
    ensures forall i :: 0 <= i < |t.elems| ==> (t.elems[i].hidden <==> s.elems[i].hidden && i !in shown)
    ensures s.ival == Suspended ==> t.ival.Armed? && t.live == s.live + {t.ival.id}
    ensures s.ival != Suspended ==> t.ival == s.ival && t.live == s.live
    ensures FreshIds(s) ==> FreshIds(t) && t.live - ArmedIds(t.ival) == s.live - ArmedIds(s.ival)
    ensures t.log == s.log + [TransitionEnded]
    ensures t.n == s.n && t.slides == s.slides && t.movetime == s.movetime && t.pending == s.pending
  {
    var s1 := s.(animated := false, elems := Reveal(s.elems, shown));
    var s2 := if s.ival == Suspended then Autoplay(s1) else s1;
    s2.(log := s2.log + [TransitionEnded])
  }

  /** `_transition(k, move)`. A locked engine ignores the call. Otherwise it
      takes the lock, reassigns roles for the move, suspends autoplay for a
      manual move, repaints around `k`, and then either waits for the
      completion event (`movetime > 0`) or finishes at once. */
  function Transition<T>(s: State<T>, k: int, move: Move): (t: State<T>)
    ensures s.animated ==> t == s
    ensures !s.animated ==> t.n == k && t.slides == s.slides && t.movetime == s.movetime
    ensures !s.animated ==> (t.animated <==> s.movetime > 0)
    ensures !s.animated && s.movetime > 0 ==> t.pending == Some(Sides(s.elems))
    ensures !s.animated && s.movetime <= 0 ==> t.pending == s.pending
    ensures !s.animated ==> |t.elems| == |s.elems|
    ensures !s.animated ==> forall i :: 0 <= i < |t.elems| ==> t.elems[i].role == RoleAfter(s.elems[i].role, move)
    // the far-side element stays hidden until the completion event shows it
    ensures !s.animated && s.movetime > 0 ==> forall i :: 0 <= i < |t.elems| ==>
      (t.elems[i].hidden <==> s.elems[i].hidden || HiddenRole(move) == Some(s.elems[i].role))
    ensures !s.animated && 0 <= k < |s.slides| ==> Painted(t.elems, s.slides, k)
    ensures !s.animated && s.movetime > 0 ==> t.log == s.log + Announce(move)
    ensures !s.animated && s.movetime <= 0 ==> t.log == s.log + Announce(move) + [TransitionEnded]
    // the timer: untouched by 'auto' moves and when autoplay was never started ...
    ensures !s.animated && !(IsManual(move) && s.ival != Unset) && s.ival != Suspended ==>
      t.ival == s.ival && t.live == s.live
    // ... suspended by an accepted manual move until the completion event ...
    ensures !s.animated && IsManual(move) && s.ival != Unset && s.movetime > 0 ==>
      t.ival == Suspended && t.live == s.live - ArmedIds(s.ival)
    // ... and restarted straight away when there is no animation to wait for
    ensures !s.animated && IsManual(move) && s.ival != Unset && s.movetime <= 0 ==>
      t.ival.Armed? && t.live == s.live - ArmedIds(s.ival) + {t.ival.id}
  {
    if s.animated then s
    else
      var shown := Sides(s.elems);
      var s1 := s.(animated := true, elems := Reassign(s.elems, move), log := s.log + Announce(move));
      var s2 := if s.ival != Unset && IsManual(move) then ResetInterval(s1) else s1;
      var s3 := SetSlideHtml(s2, k);
      if s.movetime > 0 then s3.(pending := Some(shown)) else TransitionEnd(s3, shown)
  }

  /** `_moveTo(k, move)`: only a move to a different index reaches the lock. */
  function MoveTo<T>(s: State<T>, k: int, move: Move): (t: State<T>)
    ensures t == s <==> s.n == k || s.animated
    ensures t != s ==> t.n == k
  {
    if s.n != k then Transition(s, k, move) else s
  }

  // ---------------------------------------------------------------------
  // Entry points and external events
  // ---------------------------------------------------------------------

  /** `next()` */
  function Next<T>(s: State<T>): (t: State<T>)
    ensures t == s <==> s.animated || NextIndex(s.n, |s.slides|) == s.n
    ensures t != s ==> t.n == NextIndex(s.n, |s.slides|)
    ensures 0 <= s.n < |s.slides| && t != s ==> t.n == (s.n + 1) % |s.slides|
    ensures t != s ==> |t.elems| == |s.elems| && forall i :: 0 <= i < |t.elems| ==>
      t.elems[i].role == RoleAfter(s.elems[i].role, MoveNext)
  {
    MoveTo(s, NextIndex(s.n, |s.slides|), MoveNext)
  }

  /** `prev()` */
  function Prev<T>(s: State<T>): (t: State<T>)
    ensures t == s <==> s.animated || PrevIndex(s.n, |s.slides|) == s.n
    ensures t != s ==> t.n == PrevIndex(s.n, |s.slides|)
    ensures 0 <= s.n < |s.slides| && t != s ==> t.n == (s.n - 1) % |s.slides|
    ensures t != s ==> |t.elems| == |s.elems| && forall i :: 0 <= i < |t.elems| ==>
      t.elems[i].role == RoleAfter(s.elems[i].role, MovePrev)
  {
    MoveTo(s, PrevIndex(s.n, |s.slides|), MovePrev)
  }

  /** `goTo(k)`: `k` is neither clamped nor reduced modulo the slide count. */
  function GoTo<T>(s: State<T>, k: int): (t: State<T>)
    ensures t == s <==> s.animated || k == s.n
    ensures t != s ==> t.n == k
    ensures t != s ==> |t.elems| == |s.elems| && forall i :: 0 <= i < |t.elems| ==>
      t.elems[i].role == RoleAfter(s.elems[i].role, if k < s.n then MovePrev else MoveNext)
  {
    MoveTo(s, k, GoToMove(s.n, k))
  }

  /** One firing of interval `id`: the callback `autoplay()` installed asks
      for the next index with move 'auto'. Only a running interval fires. */
  function Tick<T>(s: State<T>, id: nat): (t: State<T>)
    ensures t == s <==> id !in s.live || s.animated || NextIndex(s.n, |s.slides|) == s.n
    ensures s.ival != Suspended ==> t.ival == s.ival && t.live == s.live
    ensures t != s ==> t.n == NextIndex(s.n, |s.slides|)
    ensures t != s ==> |t.elems| == |s.elems| && forall i :: 0 <= i < |t.elems| ==>
      t.elems[i].role == RoleAfter(s.elems[i].role, MoveAuto)
  {
    if id in s.live then MoveTo(s, NextIndex(s.n, |s.slides|), MoveAuto) else s
  }

  /** The completion event on the element that was curr when the pending
      transition began. It runs `_transitionEnd` once; with no listener
      registered it does nothing. */
  function AnimationEnd<T>(s: State<T>): (t: State<T>)
    ensures s.pending.None? ==> t == s
    ensures s.pending.Some? ==> !t.animated && t.pending.None? && t.n == s.n
    ensures s.pending.Some? ==> (t.ival.Armed? <==> s.ival.Armed? || s.ival == Suspended)
    ensures s.pending.Some? && s.ival != Suspended ==> t.ival == s.ival && t.live == s.live
  {
    match s.pending
    case None => s
    case Some(shown) => TransitionEnd(s.(pending := None), shown)
  }

  /** The document keydown handler: left and down go back, up and right go
      forward, any other key is ignored. */
  function KeyDown<T>(s: State<T>, code: int): (t: State<T>)
    ensures !(37 <= code <= 40) ==> t == s
    ensures code == 37 || code == 40 ==> t == Prev(s)
    ensures code == 38 || code == 39 ==> t == Next(s)
    ensures t != s ==> t.n == PrevIndex(s.n, |s.slides|) || t.n == NextIndex(s.n, |s.slides|)
  {
    if code == 37 || code == 40 then Prev(s)
    else if code == 38 || code == 39 then Next(s)
    else s
  }

  /** `init()` on a slider with the given slides (DOM wrapping, navigation
      and pagination markup left aside): resolve the start index, build and
      paint the three elements, `goTo` the start index, start autoplay when
      it is 'on', and announce that the slider is loaded. */
  function Init<T>(slides: seq<T>, cfg: Config): (s: State<T>)
    ensures s.n == StartIndex.SetStart(cfg.start, |slides|)
    ensures s.slides == slides && s.movetime == cfg.movetime
    ensures !s.animated && s.pending.None? && s.log == [Loaded]
    ensures cfg.autoplay ==> s.ival.Armed? && s.live == {s.ival.id}
    ensures !cfg.autoplay ==> s.ival == Unset && s.live == {}
    ensures IsTriple(s.elems) && forall i :: 0 <= i < |s.elems| ==> !s.elems[i].hidden
    ensures 0 <= s.n < |slides| ==> Painted(s.elems, slides, s.n)
  {
    var n := StartIndex.SetStart(cfg.start, |slides|);
    var s0 := State(slides, cfg.movetime, n, false, Fresh(), Unset, {}, 0, None, []);
    var s1 := SetSlideHtml(s0, s0.n);
    var s2 := GoTo(s1, s1.n);
    var s3 := if cfg.autoplay then Autoplay(s2) else s2;
    s3.(log := s3.log + [Loaded])
  }

  // ---------------------------------------------------------------------
  // Runs
  // ---------------------------------------------------------------------

  /** Everything that can happen to a live slider. */
  datatype Event =
    | CallNext
    | CallPrev
    | CallGoTo(k: int)
    | CallAutoplay
    | IntervalFires(id: nat)
    | AnimationFinishes
    | KeyPressed(code: int)

  function Step<T>(s: State<T>, e: Event): State<T> {
    match e
    case CallNext => Next(s)
    case CallPrev => Prev(s)
    case CallGoTo(k) => GoTo(s, k)
    case CallAutoplay => Autoplay(s)
    case IntervalFires(id) => Tick(s, id)
    case AnimationFinishes => AnimationEnd(s)
    case KeyPressed(code) => KeyDown(s, code)
  }

  function Run<T>(s: State<T>, events: seq<Event>): State<T>
    decreases |events|
  {
    if events == [] then s else Run(Step(s, events[0]), events[1..])
  }
}
