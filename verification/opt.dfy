/** The optional value used throughout the model: `None` stands for JavaScript's
    `undefined` (a jQuery lookup that found nothing, `parseInt` giving NaN, an
    element whose content was never written). */
module Opt {

  datatype Option<+T> = None | Some(value: T) {

    /** The carried value, or `default` when there is none. */
    function GetOr(default: T): T {
      match this
      case Some(v) => v
      case None => default
    }
  }
}
