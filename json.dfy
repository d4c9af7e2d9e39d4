/** The parts of Python's value model that the article records need. */
module Json {

  /** A Python value that is either `None` or present. */
  datatype Option<+T> = None | Some(value: T)

  /** A key of a decoded JSON object: absent, present with `null`, or present with a value. */
  datatype Field<+T> = Missing | Null | Present(value: T) {

    /** `d.get(key)`: absent keys and `null` both read as `None`. */
    function Get(): (r: Option<T>)
      ensures r.Some? <==> Present?
      ensures Present? ==> r.value == value
    {
      match this
      case Present(v) => Some(v)
      case _ => None
    }

    /** `d.get(key, default)`: only an absent key yields the default; `null` stays `None`. */
    function GetOr(default: T): (r: Option<T>)
      ensures Missing? ==> r == Some(default)
      ensures Null? ==> r == None
      ensures Present? ==> r == Some(value)
    {
      match this
      case Missing => Some(default)
      case Null => None
      case Present(v) => Some(v)
    }
  }

  /** Python truthiness of an optional string: `None` and `""` are falsy. */
  predicate Truthy(s: Option<string>) {
    s.Some? && s.value != ""
  }

  /** `x or y` on optional strings: `x` when it is truthy, otherwise `y`. */
  function Or(x: Option<string>, y: Option<string>): (r: Option<string>)
    ensures Truthy(x) ==> r == x
    ensures !Truthy(x) ==> r == y
  {
    if x.Some? && x.value != "" then x else y
  }

  /** `x or ""`: the string itself, with `None` read as the empty string. */
  function OrEmpty(x: Option<string>): (r: string)
    ensures x.Some? ==> r == x.value
    ensures x.None? ==> r == ""
  {
    match Or(x, Some(""))
    case Some(s) => s
    case None => ""
  }

  /** `d.get(k, default)` and `d.get(k)` disagree exactly on an absent key. */
  lemma GetOrDiffersOnlyWhenMissing<T>(f: Field<T>, default: T)
    ensures f.GetOr(default) != f.Get() <==> f.Missing?
    ensures !f.Missing? ==> f.GetOr(default) == f.Get()
  {
  }

  /** `x or y` is truthy iff one of its operands is; when falsy it is `y` itself. */
  lemma OrTruthy(x: Option<string>, y: Option<string>)
    ensures Truthy(Or(x, y)) <==> Truthy(x) || Truthy(y)
    ensures !Truthy(Or(x, y)) ==> Or(x, y) == y
  {
  }
}
