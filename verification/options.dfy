/** Optional values, used wherever the source reads a key that may be absent
    (`dict.get`) or a parse that may fail (`Optional[datetime]`). */
module Options {

  datatype Option<+T> = None | Some(value: T) {

    /** The value, or `default` when absent. */
    function GetOr(default: T): T {
      match this
      case Some(v) => v
      case None => default
    }
  }

  /** Python truthiness of an optional string: present and non-empty. */
  predicate Present(o: Option<string>) {
    o.Some? && |o.value| > 0
  }

  /** Python's `a or b` on two optional strings: `a` when it is truthy,
      otherwise `b` as it stands (which may itself be absent or empty). */
  function OrElse(a: Option<string>, b: Option<string>): (r: Option<string>)
    ensures Present(a) ==> r == a
    ensures !Present(a) ==> r == b
  {
    if Present(a) then a else b
  }

  /** Python's `a or "literal"`: the text of `a` when truthy, else the literal. */
  function TextOr(a: Option<string>, fallback: string): (r: string)
    ensures Present(a) ==> r == a.value
    ensures !Present(a) ==> r == fallback
  {
    if Present(a) then a.value else fallback
  }
}
