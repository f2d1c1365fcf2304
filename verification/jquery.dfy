/** The two behaviours of jQuery 2.1 that the slider's painting code leans on
    when an index is out of range. */
module JQuery {
  import opened Opt

  /** `$(list).eq(i).html()`: a negative index counts back from the end once;
      any other index outside the list selects nothing, whose `.html()` is
      `undefined`. */
  function Eq<T>(xs: seq<T>, i: int): (r: Option<T>)
    ensures r.Some? <==> -|xs| <= i < |xs|
    ensures 0 <= i < |xs| ==> r == Some(xs[i])
    ensures -|xs| <= i < 0 ==> r == Some(xs[|xs| + i])
  {
    if 0 <= i < |xs| then Some(xs[i])
    else if -|xs| <= i < 0 then Some(xs[|xs| + i])
    else None
  }

  /** `$(el).html(v)`: with `v` undefined the call is a getter and changes
      nothing; otherwise the element's content becomes `v`. */
  function SetHtml<T>(current: Option<T>, v: Option<T>): (r: Option<T>)
    ensures v.Some? ==> r == v
    ensures v.None? ==> r == current
  {
    if v.Some? then v else current
  }
}
