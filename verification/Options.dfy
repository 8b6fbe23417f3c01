/** The usual optional value; it stands for a field or argument that may be undefined. */
module Options {

  datatype Option<+T> = None | Some(value: T) {

    /** The nullish-coalescing operator: this value, or the alternative when there is none. */
    function OrElse(alternative: Option<T>): Option<T> {
      if Some? then this else alternative
    }

    function GetOr(default: T): T {
      if Some? then value else default
    }
  }

  function ToSeq<T>(o: Option<T>): seq<T> {
    if o.Some? then [o.value] else []
  }
}
