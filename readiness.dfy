/** The readiness prober: checks whether `grecaptcha.execute` is callable,
    injects the vendor script when it is not, then waits for it. Every step
    reads the request's evaluation oracle from index `from` on and reports
    the index of the next unread evaluation. No step raises. */
module Readiness {
  import opened Browser

  /** `TIMEOUT_POLLING_MAX_ATTEMPTS`. */
  const MaxPollingAttempts: nat := 15

  /** What a probing step produced and where the next evaluation starts. */
  datatype Probe = Probe(value: Value, next: nat)

  const False: Value := Plain(Bool(false))
  const True: Value := Plain(Bool(true))

  /** `_check_grecaptcha_loaded`: one evaluation, and a second one only after a
      navigation interruption; any other failure reads as `False`. */
  function CheckGrecaptchaLoaded(answers: Answers, from: nat): (r: Probe)
    ensures r.next == from + 1 || r.next == from + 2
    ensures r.next == from + 2 <==> IsNavigationInterruption(answers(from))
    ensures answers(r.next - 1).Returned? ==> r.value == answers(r.next - 1).value
    ensures answers(r.next - 1).Raised? ==> r.value == False
    ensures Truthy(r.value) ==> ReturnedTruthy(answers(r.next - 1))
  {
    match answers(from)
    case Returned(v) => Probe(v, from + 1)
    case Raised(m) =>
      if IsNavigationInterruption(answers(from)) then
        match answers(from + 1)
        case Returned(v2) => Probe(v2, from + 2)
        case Raised(_) => Probe(False, from + 2)
      else Probe(False, from + 1)
  }

  /** `_inject_recaptcha_script`: asks whether the script tag exists and, only
      if it does not, evaluates the injection; an exception at either step reads
      as `False`. */
  function InjectRecaptchaScript(answers: Answers, from: nat): (r: Probe)
    ensures r.next == from + 1 || r.next == from + 2
    ensures r.next == from + 2 <==> answers(from).Returned? && !Truthy(answers(from).value)
    ensures ReturnedTruthy(answers(from)) ==> r.value == True
    ensures answers(r.next - 1).Raised? ==> r.value == False
    ensures r.next == from + 2 && answers(from + 1).Returned? ==> r.value == answers(from + 1).value
  {
    match answers(from)
    case Raised(_) => Probe(False, from + 1)
    case Returned(exists_) =>
      if Truthy(exists_) then Probe(True, from + 1)
      else
        match answers(from + 1)
        case Returned(injected) => Probe(injected, from + 2)
        case Raised(_) => Probe(False, from + 2)
  }

  /** The first of the polls `from` .. `from + n - 1` that returned a truthy
      value, or `from + n` when none did. */
  function FirstReadyPoll(answers: Answers, from: nat, n: nat): (r: nat)
    ensures from <= r <= from + n
    ensures forall j :: from <= j < r ==> !ReturnedTruthy(answers(j))
    ensures r < from + n ==> ReturnedTruthy(answers(r))
    decreases n
  {
    if n == 0 || ReturnedTruthy(answers(from)) then from
    else FirstReadyPoll(answers, from + 1, n - 1)
  }

  /** Where the wait leaves the oracle: untouched after a successful
      `wait_for_function`, just past the first truthy poll, or past all
      `MaxPollingAttempts` polls. */
  function WaitEnd(waitForFunctionOk: bool, answers: Answers, from: nat): (r: nat)
    ensures waitForFunctionOk ==> r == from
    ensures !waitForFunctionOk ==> from < r <= from + MaxPollingAttempts
    ensures !waitForFunctionOk && r < from + MaxPollingAttempts ==> ReturnedTruthy(answers(r - 1))
  {
    if waitForFunctionOk then from
    else
      var k := FirstReadyPoll(answers, from, MaxPollingAttempts);
      if k < from + MaxPollingAttempts then k + 1 else k
  }

  /** Where the check, and the injection when the check was falsy, leave the
      oracle: the wait starts here. */
  function ProbeStart(answers: Answers, from: nat): (r: nat)
    ensures from < r <= from + 4
    ensures Truthy(CheckGrecaptchaLoaded(answers, from).value) ==> r == CheckGrecaptchaLoaded(answers, from).next
    ensures !Truthy(CheckGrecaptchaLoaded(answers, from).value) ==>
              r == InjectRecaptchaScript(answers, CheckGrecaptchaLoaded(answers, from).next).next
  {
    var check := CheckGrecaptchaLoaded(answers, from);
    if Truthy(check.value) then check.next else InjectRecaptchaScript(answers, check.next).next
  }

  /** Where the whole prober leaves the oracle: execution starts here. */
  function ProbeEnd(waitForFunctionOk: bool, answers: Answers, from: nat): (r: nat)
    ensures r == WaitEnd(waitForFunctionOk, answers, ProbeStart(answers, from))
    ensures from < r <= from + 4 + MaxPollingAttempts
  {
    WaitEnd(waitForFunctionOk, answers, ProbeStart(answers, from))
  }

  /** `_wait_for_recaptcha_ready`: `wait_for_function` first (its success is
      `waitForFunctionOk`); otherwise at most `MaxPollingAttempts` polling
      evaluations, stopping at the first truthy one. Polling errors of any
      kind are absorbed. */
  method WaitForRecaptchaReady(waitForFunctionOk: bool, answers: Answers, from: nat)
    returns (ready: bool, next: nat)
    ensures waitForFunctionOk ==> ready && next == from
    ensures !waitForFunctionOk ==> from < next <= from + MaxPollingAttempts
    ensures !waitForFunctionOk ==>
              (ready <==> exists j :: from <= j < from + MaxPollingAttempts && ReturnedTruthy(answers(j)))
    ensures !waitForFunctionOk && ready ==>
              ReturnedTruthy(answers(next - 1)) &&
              forall j :: from <= j < next - 1 ==> !ReturnedTruthy(answers(j))
    ensures !ready ==> next == from + MaxPollingAttempts
    ensures next == WaitEnd(waitForFunctionOk, answers, from)
  {
    if waitForFunctionOk {
      return true, from;
    }
    var i := 0;
    while i < MaxPollingAttempts
      invariant 0 <= i <= MaxPollingAttempts
      invariant forall j :: from <= j < from + i ==> !ReturnedTruthy(answers(j))
    {
      var outcome := answers(from + i);
      if outcome.Returned? && Truthy(outcome.value) {
        return true, from + i + 1;
      }
      // A navigation interruption waits for the page to settle; any other
      // error is logged. Either way polling goes on.
      i := i + 1;
    }
    return false, from + MaxPollingAttempts;
  }

  /** `_ensure_recaptcha_loaded`: check, inject only if the check was falsy,
      and always wait, starting where the check and the injection stopped.
      Its result is only reported, never acted upon. */
  method EnsureRecaptchaLoaded(waitForFunctionOk: bool, answers: Answers, from: nat)
    returns (injected: bool, ready: bool, next: nat)
    ensures injected <==> !Truthy(CheckGrecaptchaLoaded(answers, from).value)
    ensures waitForFunctionOk ==> ready && next == ProbeStart(answers, from)
    ensures !waitForFunctionOk ==>
              (ready <==> exists j :: ProbeStart(answers, from) <= j < ProbeStart(answers, from) + MaxPollingAttempts &&
                                      ReturnedTruthy(answers(j)))
    ensures !ready ==> next == ProbeStart(answers, from) + MaxPollingAttempts
    ensures next == ProbeEnd(waitForFunctionOk, answers, from)
  {
    var check := CheckGrecaptchaLoaded(answers, from);
    var n := check.next;
    injected := !Truthy(check.value);
    if injected {
      var injection := InjectRecaptchaScript(answers, n);
      n := injection.next;
    }
    ready, next := WaitForRecaptchaReady(waitForFunctionOk, answers, n);
  }
}
