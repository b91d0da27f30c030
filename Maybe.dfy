/** Optional values: a JavaScript `undefined`/`null`, a missing query parameter,
    a `NaN` produced by `parseInt`, or a lookup that found nothing. */
module Maybe {

  datatype Option<+T> = None | Some(value: T) {

    /** The carried value, or `default` when there is none (JavaScript's `x ?? default`). */
    function GetOr(default: T): T {
      match this
      case Some(v) => v
      case None => default
    }
  }
}
