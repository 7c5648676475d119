/** The optional-value datatype shared by every module of the model. A
    JavaScript `undefined` is `None`. */
module Wrappers {

  datatype Option<+T> = None | Some(value: T) {

    /** What an `x === undefined ? fallback : x` test yields. */
    function OrIfAbsent(fallback: T): (r: T)
      ensures Some? ==> r == value
      ensures None? ==> r == fallback
    {
      if Some? then value else fallback
    }
  }
}
