/** The three render elements slider.js keeps in its container (built by
    `_initHtml`): each carries one role class — prev, curr or next — a
    shown/hidden state, and the content last written into it. Slides
    themselves are opaque values of type `T`. */
module Slots {
  import opened Opt
  import JQuery
  import Circular

  datatype Role = PrevSlot | CurrSlot | NextSlot

  /** One render element; `html` is `None` until content is first written. */
  datatype Element<T> = Element(role: Role, hidden: bool, html: Option<T>)

  /** The `move` argument of `_transition`: 'next', 'prev', 'auto', or any
      other string. */
  datatype Move = MoveNext | MovePrev | MoveAuto | MoveOther

  /** Three elements, no two sharing a role: each role is carried exactly once. */
  predicate IsTriple<T>(elems: seq<Element<T>>) {
    && |elems| == 3
    && elems[0].role != elems[1].role
    && elems[0].role != elems[2].role
    && elems[1].role != elems[2].role
  }

  /** The elements `_initHtml` appends, in order prev, curr, next: shown and
      still empty. */
  function Fresh<T>(): (elems: seq<Element<T>>)
    ensures IsTriple(elems)
    ensures forall i :: 0 <= i < |elems| ==> !elems[i].hidden && elems[i].html.None?
  {
    [Element(PrevSlot, false, None), Element(CurrSlot, false, None), Element(NextSlot, false, None)]
  }

  /** The role an element carries after `_transitionNext` (moves 'next' and
      'auto') or `_transitionPrev` (move 'prev'); other moves keep roles. */
  function RoleAfter(r: Role, move: Move): Role {
    match move
    case MoveNext | MoveAuto =>
      (match r case PrevSlot => NextSlot case CurrSlot => PrevSlot case NextSlot => CurrSlot)
    case MovePrev =>
      (match r case PrevSlot => CurrSlot case CurrSlot => NextSlot case NextSlot => PrevSlot)
    case MoveOther => r
  }

  /** The role whose element is hidden as it jumps to the far side: the old
      prev element on a forward move, the old next element on a backward one. */
  function HiddenRole(move: Move): Option<Role> {
    match move
    case MoveNext | MoveAuto => Some(PrevSlot)
    case MovePrev => Some(NextSlot)
    case MoveOther => None
  }

  /** Role reassignment on the captured prev/curr/next sets, applied to every
      element at once; contents are untouched. */
  function Reassign<T>(elems: seq<Element<T>>, move: Move): (r: seq<Element<T>>)
    ensures |r| == |elems|
    ensures forall i :: 0 <= i < |r| ==> r[i].role == RoleAfter(elems[i].role, move)
    ensures forall i :: 0 <= i < |r| ==> r[i].html == elems[i].html
    ensures forall i :: 0 <= i < |r| ==> (r[i].hidden <==> elems[i].hidden || HiddenRole(move) == Some(elems[i].role))
    ensures IsTriple(elems) ==> IsTriple(r)
  {
    seq(|elems|, i requires 0 <= i < |elems| =>
      elems[i].(role := RoleAfter(elems[i].role, move),
                hidden := elems[i].hidden || HiddenRole(move) == Some(elems[i].role)))
  }

  /** `container.find('.' + role).html(v)`: every element carrying `role`
      receives `v`; an undefined `v` writes nothing. */
  function Write<T>(elems: seq<Element<T>>, role: Role, v: Option<T>): (r: seq<Element<T>>)
    ensures |r| == |elems|
    ensures forall i :: 0 <= i < |r| ==> r[i].role == elems[i].role && r[i].hidden == elems[i].hidden
    ensures forall i :: 0 <= i < |r| && elems[i].role != role ==> r[i].html == elems[i].html
    ensures forall i :: 0 <= i < |r| && elems[i].role == role ==> r[i].html == JQuery.SetHtml(elems[i].html, v)
  {
    seq(|elems|, i requires 0 <= i < |elems| =>
      if elems[i].role == role then elems[i].(html := JQuery.SetHtml(elems[i].html, v)) else elems[i])
  }

  /** The slide a role shows around active index `k`: one back, `k`
      itself, one forward, wrapping at both ends. */
  function Offset(role: Role, k: int, size: int): (o: int)
    requires 0 <= k < size
    ensures 0 <= o < size
  {
    match role
    case PrevSlot => (k - 1) % size
    case CurrSlot => k
    case NextSlot => (k + 1) % size
  }

  /** The circular offsets are the explicit wrap-around `_setSlideHtml` writes out. */
  lemma OffsetWraps(k: int, size: int)
    requires 0 <= k < size
    ensures Offset(PrevSlot, k, size) == (if k == 0 then size - 1 else k - 1)
    ensures Offset(NextSlot, k, size) == (if k == size - 1 then 0 else k + 1)
  {
    Circular.WrapBack(k, size);
    Circular.WrapForward(k, size);
  }

  /** Every element holds the slide at its role's offset from `k`. */
  ghost predicate Painted<T>(elems: seq<Element<T>>, slides: seq<T>, k: int)
    requires 0 <= k < |slides|
  {
    forall i :: 0 <= i < |elems| ==> elems[i].html == Some(slides[Offset(elems[i].role, k, |slides|)])
  }

  /** The content writes of `_setSlideHtml(k)`: the prev element gets slide
      `k - 1` (the last slide when `k == 0`), curr gets slide `k`, next gets
      slide `k + 1` (slide 0 when `k` is the last index), each looked up with
      jQuery's `.eq`. */
  function PaintSlots<T>(elems: seq<Element<T>>, slides: seq<T>, k: int): (r: seq<Element<T>>)
    ensures |r| == |elems|
    ensures forall i :: 0 <= i < |r| ==> r[i].role == elems[i].role && r[i].hidden == elems[i].hidden
  {
    Write(Write(Write(elems, PrevSlot, PrevLookup(slides, k)), CurrSlot, JQuery.Eq(slides, k)),
          NextSlot, NextLookup(slides, k))
  }

  /** What `_setSlideHtml(k)` reads for the prev element. */
  function PrevLookup<T>(slides: seq<T>, k: int): Option<T> {
    if k == 0 then JQuery.Eq(slides, |slides| - 1) else JQuery.Eq(slides, k - 1)
  }

  /** What `_setSlideHtml(k)` reads for the next element. */
  function NextLookup<T>(slides: seq<T>, k: int): Option<T> {
    if k == |slides| - 1 then JQuery.Eq(slides, 0) else JQuery.Eq(slides, k + 1)
  }

  /** The element carrying `role` after the three writes holds whatever was
      written for that role, or keeps its old content if nothing was. */
  lemma PaintSlotsContent<T>(elems: seq<Element<T>>, slides: seq<T>, k: int, i: int)
    requires 0 <= i < |elems|
    ensures PaintSlots(elems, slides, k)[i].html ==
      JQuery.SetHtml(elems[i].html,
        match elems[i].role
        case PrevSlot => PrevLookup(slides, k)
        case CurrSlot => JQuery.Eq(slides, k)
        case NextSlot => NextLookup(slides, k))
  {
    var w1 := Write(elems, PrevSlot, PrevLookup(slides, k));
    var w2 := Write(w1, CurrSlot, JQuery.Eq(slides, k));
    assert w1[i].role == elems[i].role && w2[i].role == elems[i].role;
  }

  /** Painting an in-range index fills every element with the slide at its
      role's circular offset. */
  lemma PaintSlotsInRange<T>(elems: seq<Element<T>>, slides: seq<T>, k: int)
    requires 0 <= k < |slides|
    ensures Painted(PaintSlots(elems, slides, k), slides, k)
  {
    var r := PaintSlots(elems, slides, k);
    OffsetWraps(k, |slides|);
    assert PrevLookup(slides, k) == Some(slides[Offset(PrevSlot, k, |slides|)]);
    assert NextLookup(slides, k) == Some(slides[Offset(NextSlot, k, |slides|)]);
    forall i | 0 <= i < |r|
      ensures r[i].html == Some(slides[Offset(r[i].role, k, |slides|)])
    {
      PaintSlotsContent(elems, slides, k, i);
    }
  }

  /** Painting index `size` (one past the end) writes only the prev element,
      with the last slide; the curr and next elements keep their content. */
  lemma PaintSlotsAtSize<T>(elems: seq<Element<T>>, slides: seq<T>)
    requires |slides| >= 1
    ensures var r := PaintSlots(elems, slides, |slides|);
      forall i :: 0 <= i < |r| ==>
        r[i].html == (if elems[i].role == PrevSlot then Some(slides[|slides| - 1]) else elems[i].html)
  {
    var r := PaintSlots(elems, slides, |slides|);
    forall i | 0 <= i < |r|
      ensures r[i].html == (if elems[i].role == PrevSlot then Some(slides[|slides| - 1]) else elems[i].html)
    {
      PaintSlotsContent(elems, slides, |slides|, i);
    }
  }

  /** Painting an index further out, on either side, writes nothing at all. */
  lemma PaintSlotsFarOut<T>(elems: seq<Element<T>>, slides: seq<T>, k: int)
    requires k > |slides| || k < -|slides| - 1
    ensures PaintSlots(elems, slides, k) == elems
  {
    var r := PaintSlots(elems, slides, k);
    forall i | 0 <= i < |r|
      ensures r[i] == elems[i]
    {
      PaintSlotsContent(elems, slides, k, i);
    }
  }

  /** `$prev.show(); $next.show()` on the elements captured when the
      transition began. */
  function Reveal<T>(elems: seq<Element<T>>, shown: set<nat>): (r: seq<Element<T>>)
    ensures |r| == |elems|
    ensures forall i :: 0 <= i < |r| ==> r[i].role == elems[i].role && r[i].html == elems[i].html
    ensures forall i :: 0 <= i < |r| ==> (r[i].hidden <==> elems[i].hidden && i !in shown)
  {
    seq(|elems|, i requires 0 <= i < |elems| => if i in shown then elems[i].(hidden := false) else elems[i])
  }

  /** A forward and a backward reassignment undo each other, and either one
      is a permutation of the three roles. */
  lemma RoleAfterIsPermutation(move: Move)
    ensures forall r1: Role, r2: Role :: r1 != r2 ==> RoleAfter(r1, move) != RoleAfter(r2, move)
    ensures forall r: Role :: RoleAfter(RoleAfter(r, MoveNext), MovePrev) == r
    ensures forall r: Role :: RoleAfter(RoleAfter(r, MovePrev), MoveNext) == r
  {
  }
}
