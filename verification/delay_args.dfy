/** `resolveDelayAndFn(a, b)` (src/resolveDelayAndFn.js): accepts the function and the duration in
    either order. */
module DelayArgs {
  import opened Values
  import opened Durations

  datatype Resolved = Resolved(fn: nat, delay: real)

  /** Exactly one of the arguments must be a function and the other a duration that parses:
      two functions fail, because the second one is parsed as the duration. */
  function ResolveDelayAndFn(a: Value, b: Value): (r: Result<Resolved>)
    ensures r.Ok? <==> (a.Function? && !b.Function? && ParseDuration(b).Ok?) ||
                       (b.Function? && !a.Function? && ParseDuration(a).Ok?)
  {
    var (fn, delayRaw) := if a.Function? then (a, b) else (b, a);
    if !fn.Function? then Err(TypeError)
    else
      match ParseDuration(delayRaw)
      case Ok(d) => Ok(Resolved(fn.id, d))
      case Err(e) => Err(e)
  }

  /** The two ways of failing: a format error exactly when one argument is a function and the
      other a string that does not parse, a TypeError in every other failing case. */
  lemma ErrorKinds(a: Value, b: Value)
    ensures var r := ResolveDelayAndFn(a, b);
            r.Err? ==> (r.error == InvalidDurationFormat || r.error == TypeError)
    ensures ResolveDelayAndFn(a, b) == Err(InvalidDurationFormat) <==>
              (a.Function? && b.Str? && ParseDuration(b).Err?) ||
              (b.Function? && a.Str? && ParseDuration(a).Err?)
  {
  }

  /** Argument order does not matter when exactly one argument is a function. */
  lemma OrderIrrelevant(f: nat, d: Value)
    requires !d.Function?
    ensures ResolveDelayAndFn(Function(f), d) == ResolveDelayAndFn(d, Function(f))
  {
  }

  /** With no function among the arguments the TypeError comes before any parsing: even a
      malformed duration string is reported as a TypeError, not as a format error. */
  lemma MissingFunctionBeforeParsing(a: Value, b: Value)
    requires !a.Function? && !b.Function?
    ensures ResolveDelayAndFn(a, b) == Err(TypeError)
  {
  }

  /** Two functions: the second is parsed as a duration, which is a TypeError. */
  lemma TwoFunctions(f: nat, g: nat)
    ensures ResolveDelayAndFn(Function(f), Function(g)) == Err(TypeError)
  {
  }

  /** A successful resolution always names one of the two arguments as the callback and parses
      the other one. */
  lemma ResolvedFromOneArgument(a: Value, b: Value)
    requires ResolveDelayAndFn(a, b).Ok?
    ensures var r := ResolveDelayAndFn(a, b).value;
      (a == Function(r.fn) && ParseDuration(b) == Ok(r.delay)) ||
      (b == Function(r.fn) && !a.Function? && ParseDuration(a) == Ok(r.delay))
  {
  }
}
