/**
 * The JavaScript values that a callable request carries in its fields.
 * A key that the client did not send reads as `undefined`; a JSON payload
 * can also carry `null`. Only the behaviour the handlers rely on is
 * modelled: truthiness (`!x`) and numeric coercion for subtraction.
 */
module JsValues {
  import opened Wrappers

  /** One field of `request.data`: `undefined`, `null`, or a value. */
  datatype Field<T> = Undefined | Null | Present(value: T)

  /** `!!s` for a string field: present and not the empty string. */
  predicate IsTruthyString(f: Field<string>) {
    f.Present? && f.value != ""
  }

  /** `!!n` for a number field: present and not zero. */
  predicate IsTruthyNumber(f: Field<int>) {
    f.Present? && f.value != 0
  }

  /**
   * `ToNumber` as applied by `-`: `undefined` becomes NaN (`None`),
   * `null` becomes 0.
   */
  function ToNumber(f: Field<int>): (r: Option<int>)
    ensures r.None? <==> f.Undefined?
  {
    match f
    case Undefined => None
    case Null => Some(0)
    case Present(n) => Some(n)
  }

  /** `a - b` on numbers that may be NaN. */
  function Subtract(a: Option<int>, b: Option<int>): Option<int> {
    if a.Some? && b.Some? then Some(a.value - b.value) else None
  }

  /** `a < b`: every comparison with NaN is false. */
  predicate LessThan(a: Option<int>, b: Option<int>) {
    a.Some? && b.Some? && a.value < b.value
  }
}
