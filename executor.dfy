/** `_execute_recaptcha`: runs the token script, retrying only when the page
    navigated away mid-call and an attempt remains. */
module TokenExecutor {
  import opened Strings
  import opened Browser

  /** `MAX_EXECUTION_RETRIES`. */
  const MaxExecutionRetries: nat := 2

  /** The dict the executor builds from an evaluation's exception: an error
      member carrying the message, and no token. */
  function ExecutionError(message: string): (r: Value)
    ensures r.Dict? && "token" !in r.entries && "error" in r.entries
    ensures r.entries["error"] == Text("Execution error: " + message)
  {
    Dict(map["error" := Text("Execution error: " + message)])
  }

  /** The dict after the retry loop, reached only when no attempt is allowed. */
  const MaxRetriesReached: Value := Dict(map["error" := Text("执行失败：达到最大重试次数")])

  /** What one finished attempt yields: the script's value, or the error dict. */
  function AttemptResult(o: EvalOutcome): (r: Value)
    ensures o.Returned? ==> r == o.value
    ensures o.Raised? ==> r == ExecutionError(o.message)
  {
    match o
    case Returned(v) => v
    case Raised(m) => ExecutionError(m)
  }

  /** The first of the evaluations `from` .. `from + n - 1` that was not
      interrupted by navigation, or `from + n` when all of them were. */
  function FirstSettledAttempt(answers: Answers, from: nat, n: nat): (r: nat)
    ensures from <= r <= from + n
    ensures forall j :: from <= j < r ==> IsNavigationInterruption(answers(j))
    ensures r < from + n ==> !IsNavigationInterruption(answers(r))
    decreases n
  {
    if n == 0 || !IsNavigationInterruption(answers(from)) then from
    else FirstSettledAttempt(answers, from + 1, n - 1)
  }

  /** What an execution yields and where the next evaluation starts. */
  datatype Run = Run(result: Value, next: nat)

  /** The executor's outcome in closed form: with at least one attempt
      allowed, the attempt that ends it is the first one not interrupted by
      navigation, or the last allowed one; its value or error dict is the
      result. With no attempt allowed, the fallthrough dict. */
  function Execution(maxRetries: nat, answers: Answers, from: nat): (r: Run)
    ensures maxRetries == 0 ==> r == Run(MaxRetriesReached, from)
    ensures maxRetries > 0 ==> from < r.next <= from + maxRetries && r.result == AttemptResult(answers(r.next - 1))
    ensures forall j :: from <= j < r.next - 1 ==> IsNavigationInterruption(answers(j))
    ensures maxRetries > 0 && r.next < from + maxRetries ==> !IsNavigationInterruption(answers(r.next - 1))
  {
    if maxRetries == 0 then Run(MaxRetriesReached, from)
    else
      var k := FirstSettledAttempt(answers, from, maxRetries - 1);
      Run(AttemptResult(answers(k)), k + 1)
  }

  /** Attempts evaluations `from`, `from + 1`, ... of the oracle. The retry
      bound is a parameter; the service passes `MaxExecutionRetries`. */
  method ExecuteRecaptcha(maxRetries: nat, answers: Answers, from: nat)
    returns (result: Value, next: nat)
    ensures result == Execution(maxRetries, answers, from).result
    ensures next == Execution(maxRetries, answers, from).next
    ensures maxRetries == 0 ==> result == MaxRetriesReached && next == from
    ensures maxRetries > 0 ==> from < next <= from + maxRetries
    ensures maxRetries > 0 ==> result == AttemptResult(answers(next - 1))
    ensures forall j :: from <= j < next - 1 ==> IsNavigationInterruption(answers(j))
    ensures maxRetries > 0 && IsNavigationInterruption(answers(next - 1)) ==> next == from + maxRetries
    ensures maxRetries > 0 && (forall j :: from <= j < from + maxRetries ==> IsNavigationInterruption(answers(j))) ==>
              next == from + maxRetries &&
              result == ExecutionError(answers(from + maxRetries - 1).message)
  {
    var retry := 0;
    while retry < maxRetries
      invariant retry < maxRetries || retry == maxRetries == 0
      invariant forall j :: from <= j < from + retry ==> IsNavigationInterruption(answers(j))
    {
      var outcome := answers(from + retry);
      match outcome {
        case Returned(v) =>
          return v, from + retry + 1;
        case Raised(m) =>
          if Contains(m, ContextDestroyed) && retry < maxRetries - 1 {
            // The page is left to settle and the call is tried again.
            retry := retry + 1;
          } else {
            return ExecutionError(m), from + retry + 1;
          }
      }
    }
    return MaxRetriesReached, from;
  }
}
