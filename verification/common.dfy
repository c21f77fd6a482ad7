/** Small shared vocabulary: optional values (the source's `T | null` and
    `T | undefined`) and strings as sequences of characters. */
module Common {

  /** `None` stands for the source's `null` / `undefined`. */
  datatype Option<+T> = None | Some(value: T) {

    /** Returns the value held in `Some`, or `default` for `None`. */
    function GetOr(default: T): T {
      match this
      case Some(v) => v
      case None => default
    }
  }

  type String = seq<char>

  /** Last element of a non-empty sequence. */
  function Last<T>(s: seq<T>): T
    requires |s| > 0
  {
    s[|s| - 1]
  }

  /** `xs` is a suffix of `ys`. */
  predicate IsSuffix<T(==)>(xs: seq<T>, ys: seq<T>) {
    |xs| <= |ys| && ys[|ys| - |xs|..] == xs
  }

  /** `xs` is a prefix of `ys`. */
  predicate IsPrefix<T(==)>(xs: seq<T>, ys: seq<T>) {
    |xs| <= |ys| && ys[..|xs|] == xs
  }

  function Min(a: int, b: int): int {
    if a <= b then a else b
  }
}
