/** The earlier carousel of src/js/app/app.js, the one the build
    concatenates into the shipped script. It shows one child of the container
    at a time and hides the others; `next` and `prev` wrap around like the
    later engine, but there is no animation lock, no equality guard and no
    autoplay. */
module App {
  import Circular

  /** `this.n` and, per child of the container, whether it is shown. */
  datatype Carousel = Carousel(n: int, shown: seq<bool>)

  /** The options `init` receives; it reads none of them. */
  datatype Options = Options(pagination: bool, autoplay: bool, movetime: int, stoptime: int)

  /** Exactly child `k` is shown. */
  predicate ShowsOnly(shown: seq<bool>, k: int) {
    forall i :: 0 <= i < |shown| ==> (shown[i] <==> i == k)
  }

  /** `_showSlide(k)`: `children().eq(k).show().siblings().hide()`. jQuery's
      `.eq` counts a negative `k` back from the end once and selects nothing
      for any other index out of range, in which case nothing changes. */
  function ShowSlide(shown: seq<bool>, k: int): (r: seq<bool>)
    ensures |r| == |shown|
    ensures 0 <= k < |shown| ==> ShowsOnly(r, k)
    ensures -|shown| <= k < 0 ==> ShowsOnly(r, |shown| + k)
    ensures k >= |shown| || k < -|shown| ==> r == shown
  {
    var j := if k < 0 then k + |shown| else k;
    if 0 <= j < |shown| then seq(|shown|, i => i == j) else shown
  }

  /** `_moveTo(k)`: set the index and show that child, unconditionally. */
  function MoveTo(c: Carousel, k: int): (r: Carousel)
    ensures r.n == k && |r.shown| == |c.shown|
    ensures 0 <= k < |c.shown| ==> ShowsOnly(r.shown, k)
  {
    Carousel(k, ShowSlide(c.shown, k))
  }

  /** `next()`: to child 0 after the last child, otherwise one further. */
  function Next(c: Carousel): (r: Carousel)
    ensures |r.shown| == |c.shown|
    ensures 0 <= c.n < |c.shown| ==> r.n == (c.n + 1) % |c.shown| && ShowsOnly(r.shown, r.n)
  {
    Circular.WrapForward(c.n, |c.shown|);
    if c.n == |c.shown| - 1 then MoveTo(c, 0) else MoveTo(c, c.n + 1)
  }

  /** `prev()`: to the last child before child 0, otherwise one back. */
  function Prev(c: Carousel): (r: Carousel)
    ensures |r.shown| == |c.shown|
    ensures 0 <= c.n < |c.shown| ==> r.n == (c.n - 1) % |c.shown| && ShowsOnly(r.shown, r.n)
  {
    Circular.WrapBack(c.n, |c.shown|);
    if c.n == 0 then MoveTo(c, |c.shown| - 1) else MoveTo(c, c.n - 1)
  }

  /** `init()`: start at child 0 and show only it, whatever the options say
      and whatever was shown before. */
  function Init(options: Options, shown: seq<bool>): (c: Carousel)
    ensures c.n == 0 && |c.shown| == |shown|
    ensures |shown| >= 1 ==> ShowsOnly(c.shown, 0)
    ensures |shown| == 0 ==> c.shown == shown
  {
    MoveTo(Carousel(0, shown), 0)
  }

  /** A click on any child: the handler `_bindHandlers` installs calls `next()`. */
  function Click(c: Carousel): Carousel {
    Next(c)
  }

  /** `j` clicks in a row. */
  function Clicks(c: Carousel, j: nat): Carousel {
    if j == 0 then c else Click(Clicks(c, j - 1))
  }

  /** A well-formed carousel: its index is a child, and only that child is shown. */
  predicate Valid(c: Carousel) {
    0 <= c.n < |c.shown| && ShowsOnly(c.shown, c.n)
  }

  /** Moving to the index already shown still repaints: with no guard,
      `_moveTo(n)` hides every other child even if some were shown. */
  lemma MoveToSameIndexRepaints(c: Carousel)
    requires 0 <= c.n < |c.shown|
    ensures Valid(MoveTo(c, c.n))
    ensures !ShowsOnly(c.shown, c.n) ==> MoveTo(c, c.n) != c
  {
  }

  /** `next` and `prev` undo each other. */
  lemma NextPrevInverse(c: Carousel)
    requires Valid(c)
    ensures Prev(Next(c)) == c
    ensures Next(Prev(c)) == c
  {
  }

  /** After `j` clicks from a valid state the carousel shows only child
      `(n + j) mod size`. */
  lemma {:induction false} ClicksAdvance(c: Carousel, j: nat)
    requires Valid(c)
    ensures |Clicks(c, j).shown| == |c.shown|
    ensures Clicks(c, j).n == (c.n + j) % |c.shown|
    ensures Valid(Clicks(c, j))
  {
    if j == 0 {
      Circular.ModUnique(c.n, 0, c.n, |c.shown|);
    } else {
      ClicksAdvance(c, j - 1);
      var p := Clicks(c, j - 1);
      assert Clicks(c, j) == Next(p);
      Circular.ModSucc(c.n + j - 1, |c.shown|);
    }
  }

  /** `size` clicks bring a valid carousel back to exactly where it started. */
  lemma ClicksCycle(c: Carousel)
    requires Valid(c)
    ensures Clicks(c, |c.shown|) == c
  {
    ClicksAdvance(c, |c.shown|);
    var d := Clicks(c, |c.shown|);
    Circular.ModUnique(c.n + |c.shown|, 1, c.n, |c.shown|);
    assert d.n == c.n;
    assert d.shown == c.shown;
  }

  /** Every child is reached within `size` clicks. */
  lemma ClicksVisitEverySlide(c: Carousel, m: int)
    requires Valid(c) && 0 <= m < |c.shown|
    ensures var j := (m - c.n) % |c.shown|; j < |c.shown| && Clicks(c, j).n == m
  {
    var size := |c.shown|;
    var j := (m - c.n) % size;
    var q := (m - c.n) / size;
    assert m - c.n == q * size + j;
    assert c.n + j == (-q) * size + m;
    ClicksAdvance(c, j);
    Circular.ModUnique(c.n + j, -q, m, size);
  }

  /** `init` yields a valid carousel on any non-empty container. */
  lemma InitIsValid(options: Options, shown: seq<bool>)
    requires |shown| >= 1
    ensures Valid(Init(options, shown))
  {
  }
}
