/** Python values as the event-to-row step sees them: a value that may be None,
    an attribute that may be absent, and an expression whose evaluation may raise
    AttributeError. */
module PyValues {

  /** A Python value that is either None or an object of type T. */
  datatype Option<+T> = None | Some(value: T)

  /** The outcome of probing an attribute: `Missing` when `hasattr` is false,
      `Present(v)` otherwise, where `v` may itself be None. */
  datatype Attr<+T> = Missing | Present(value: Option<T>)

  /** The outcome of evaluating an expression that may raise AttributeError. */
  datatype Eval<+T> = Val(v: T) | AttributeError

  /** `obj.field` for a value `obj` that may be None: None has no attributes,
      and an absent attribute raises too. */
  function GetAttr<O, T>(obj: Option<O>, field: O -> Attr<T>): (r: Eval<Option<T>>)
    ensures r.Val? <==> obj.Some? && field(obj.value).Present?
    ensures r.Val? ==> r.v == field(obj.value).value
  {
    match obj
    case None => AttributeError
    case Some(o) =>
      match field(o)
      case Missing => AttributeError
      case Present(v) => Val(v)
  }

  /** `e.field`, where evaluating `e` may already have raised. */
  function ThenAttr<O, T>(e: Eval<Option<O>>, field: O -> Attr<T>): (r: Eval<Option<T>>)
    ensures e.AttributeError? ==> r.AttributeError?
  {
    match e
    case AttributeError => AttributeError
    case Val(obj) => GetAttr(obj, field)
  }

  /** The text the CSV writer emits for a string-or-None value: None becomes the
      empty field. */
  function Text(v: Option<string>): (s: string)
    ensures v.Some? ==> s == v.value
    ensures v.None? ==> s == ""
  {
    match v
    case None => ""
    case Some(t) => t
  }
}
