/**
 * The rule evaluator `evaluateFunctionString`. The host-language evaluation of a code
 * string is left uninterpreted: it is an oracle that tells, for a code string and a
 * context, whether running it returned a value (or `undefined`), threw at run time, or
 * could not be compiled at all. This module fixes everything the wrapper itself decides.
 */
module Evaluator {
  import opened Json

  /** The named variables a rule string is run with, in insertion order. */
  type Context = seq<(string, Value)>

  /**
   * What running a compiled code string did. When the block throws, the generated `catch`
   * returns whatever the first parameter variable holds at that moment: the code may have
   * reassigned it (even to `undefined`) before throwing, so the oracle reports that value.
   */
  datatype Outcome =
    | Returned(result: Option<Value>)   // the block returned a value, or `undefined`
    | Threw(first: Option<Value>)       // the block threw; `first` is the first variable's value then
    | Unparsable                        // `new Function` itself failed

  /** The host evaluator, kept abstract. */
  type Oracle = (string, Context) -> Outcome

  /** A field that the wrapper will actually run: a non-empty string. */
  predicate IsCode(code: Option<Value>) {
    code.Some? && code.value.Str? && code.value.s != ""
  }

  /**
   * The value the generated `catch` block returns: the first parameter variable as it
   * stands when the exception is caught, or the literal `null` when there are no variables.
   */
  function Caught(ctx: Context, first: Option<Value>): Option<Value> {
    if |ctx| == 0 then Some(Null) else first
  }

  /**
   * `evaluateFunctionString(code, ctx, default)`. Anything other than a non-empty string
   * yields the default without running; a run that throws yields the first variable's
   * value at the throw; a code string that cannot be compiled yields the default.
   */
  function Evaluate(run: Oracle, code: Option<Value>, ctx: Context, default: Option<Value>): (r: Option<Value>)
    ensures r != default ==> IsCode(code) && !run(code.value.s, ctx).Unparsable?
  {
    if !IsCode(code) then default
    else
      match run(code.value.s, ctx)
      case Returned(v) => v
      case Threw(first) => Caught(ctx, first)
      case Unparsable => default
  }

  /** Without runnable code the oracle is never consulted: every evaluator gives the default. */
  lemma NonCodeIgnoresOracle(run1: Oracle, run2: Oracle, code: Option<Value>, ctx: Context, default: Option<Value>)
    requires !IsCode(code)
    ensures Evaluate(run1, code, ctx, default) == Evaluate(run2, code, ctx, default) == default
  {
  }

  /** The default matters only when the code is not run or cannot be compiled. */
  lemma CompiledCodeIgnoresDefault(run: Oracle, code: Option<Value>, ctx: Context, d1: Option<Value>, d2: Option<Value>)
    requires IsCode(code) && !run(code.value.s, ctx).Unparsable?
    ensures Evaluate(run, code, ctx, d1) == Evaluate(run, code, ctx, d2)
  {
  }

  /**
   * Code that throws without having reassigned its first variable falls back to that
   * variable's initial value; with no variables at all it falls back to `null`.
   */
  lemma ThrowKeepingFirstReturnsIt(run: Oracle, code: Option<Value>, ctx: Context, default: Option<Value>)
    requires IsCode(code)
    requires |ctx| > 0 ==> run(code.value.s, ctx) == Threw(Some(ctx[0].1))
    requires |ctx| == 0 ==> run(code.value.s, ctx).Threw?
    ensures Evaluate(run, code, ctx, default) == Some(if |ctx| == 0 then Null else ctx[0].1)
  {
  }

  /**
   * The result is always the default, what the code returned, or what its first variable
   * held when it threw (`null` without variables).
   */
  lemma EvaluateOutcomes(run: Oracle, code: Option<Value>, ctx: Context, default: Option<Value>)
    ensures var r := Evaluate(run, code, ctx, default);
      || r == default
      || (IsCode(code) && run(code.value.s, ctx) == Returned(r))
      || (IsCode(code) && run(code.value.s, ctx).Threw? && |ctx| > 0 && r == run(code.value.s, ctx).first)
      || (IsCode(code) && run(code.value.s, ctx).Threw? && |ctx| == 0 && r == Some(Null))
  {
  }
}
