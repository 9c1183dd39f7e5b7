/** Values shared by every part of the library: the JavaScript argument values that the
    public functions accept, the errors they throw, and the usual Option/Result wrappers. */
module Values {

  datatype Option<+T> = None | Some(value: T)

  /** The errors the library raises. `TypeError` and the invalid-format `Error` come from the
      duration parser and the argument resolver; `UnknownLabel` from a jump whose label was never
      declared; `NotAStep` is the TypeError JavaScript raises when a timeline reads a property of
      the missing step past the end of its step list; `StackOverflow` is the RangeError of a
      timeline that restarts itself without end. */
  datatype JsError = TypeError | InvalidDurationFormat | UnknownLabel(name: string) | NotAStep | StackOverflow

  datatype Result<+T> = Ok(value: T) | Err(error: JsError)

  /** An argument value as JavaScript sees it. `Number` is a finite number, `NonFinite` is NaN or
      an infinity, `Function` is a callable identified by `id`, `OtherValue` anything else
      (undefined, null, objects, booleans). */
  datatype Value =
    | Number(x: real)
    | NonFinite
    | Str(s: string)
    | Function(id: nat)
    | OtherValue

  /** The arguments of one call of a wrapped function. */
  type Args = seq<Value>

  /** A bound such as `times` or `max`: a finite number or `Infinity`. */
  datatype Limit = Finite(n: int) | Infinite

  /** `count < limit` as JavaScript evaluates it. */
  predicate Below(count: int, limit: Limit)
  {
    limit.Infinite? || count < limit.n
  }

  /** The `Limit` for a finite JavaScript number `x`: the least integer at or above it. */
  function CeilLimit(x: real): Limit
  {
    Finite(-((-x).Floor))
  }

  /** Counts are integers, so comparing one with a fractional limit is comparing it with the
      limit's ceiling: `count < x` and `count >= x` are `Below` and its negation. */
  lemma CeilLimitAgrees(count: int, x: real)
    ensures Below(count, CeilLimit(x)) <==> (count as real) < x
  {
    var f := (-x).Floor;
    assert (f as real) <= -x < (f as real) + 1.0;
  }

  /** `every(d, f, 2.5)` calls `f` three times: a count below 2.5 is one of 0, 1 and 2. */
  lemma CeilLimitExamples()
    ensures CeilLimit(2.5) == Finite(3) && CeilLimit(3.0) == Finite(3) && CeilLimit(-0.5) == Finite(0)
  {
    assert (-2.5).Floor == -3;
    assert (-3.0).Floor == -3;
    assert (0.5).Floor == 0;
  }

  /** When a host timeout armed at `now` for `delay` ms becomes due: the host treats a negative
      delay as zero. */
  function Deadline(now: real, delay: real): real
  {
    if delay > 0.0 then now + delay else now
  }
}
