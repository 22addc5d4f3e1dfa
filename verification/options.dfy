/** Small shared vocabulary: an optional value and integer clamping. */
module Options {

  /** A value that may be absent: `undefined`/`null` on the JavaScript side. */
  datatype Option<+T> = None | Some(value: T) {

    /** The contained value, or `default` when absent; `alias || ''` at lib/index.js:100 is `GetOr("")`. */
    function GetOr(default: T): T {
      match this
      case Some(v) => v
      case None => default
    }
  }

  /** `Math.max` on integers. */
  function Max(a: int, b: int): int {
    if a >= b then a else b
  }

  /** `Math.min` on integers. */
  function Min(a: int, b: int): int {
    if a <= b then a else b
  }
}
