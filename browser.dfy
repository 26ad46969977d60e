/** What the service sees of the browser: the value a page evaluation hands
    back to Python, and the outcome of one `page.evaluate` call. The page's
    script itself is not modelled; a request's evaluations are an oracle. */
module Browser {
  import opened Strings

  datatype Option<T> = None | Some(value: T)

  /** A JavaScript primitive as Python receives it (`null`/`undefined` become
      `None`; numbers are taken to be integers). */
  datatype Scalar = Null | Bool(b: bool) | Int(n: int) | Text(s: string)

  /** An evaluation result: a primitive, an array (a Python list) or an
      object (a Python dict) whose members are primitives. */
  datatype Value =
    | Plain(x: Scalar)
    | List(items: seq<Scalar>)
    | Dict(entries: map<string, Scalar>)

  /** Python truthiness of a scalar. */
  predicate ScalarTruthy(x: Scalar)
  {
    match x
    case Null => false
    case Bool(b) => b
    case Int(n) => n != 0
    case Text(s) => |s| > 0
  }

  /** Python truthiness: a value is false exactly when it is `None`, `False`,
      `0`, or an empty string, list or dict. */
  function Truthy(v: Value): (r: bool)
    ensures !r <==>
              v == Plain(Null) || v == Plain(Bool(false)) || v == Plain(Int(0)) || v == Plain(Text("")) ||
              v == List([]) || v == Dict(map[])
  {
    match v
    case Plain(x) => ScalarTruthy(x)
    case List(items) => |items| > 0
    case Dict(entries) =>
      if |entries| == 0 then
        assert entries.Keys == {};
        false
      else true
  }

  /** The value of a decimal digit. */
  function DigitValue(c: char): nat
  {
    if '0' <= c <= '9' then c as int - '0' as int else 0
  }

  /** The number a string of decimal digits denotes, read left to right. */
  function DigitsValue(s: string): nat
  {
    if |s| == 0 then 0 else DigitsValue(s[..|s| - 1]) * 10 + DigitValue(s[|s| - 1])
  }

  /** Canonical decimal text: digits only, and no leading zero except in "0". */
  predicate IsDecimal(s: string)
  {
    |s| > 0 && (forall i :: 0 <= i < |s| ==> '0' <= s[i] <= '9') && (s[0] != '0' || s == "0")
  }

  /** Decimal digits of a natural number: the canonical text that denotes it. */
  function NatToString(n: nat): (r: string)
    ensures IsDecimal(r)
    ensures DigitsValue(r) == n
    decreases n
  {
    var d := ['0' + (n % 10) as char];
    if n < 10 then d
    else
      var prefix := NatToString(n / 10);
      assert (prefix + d)[..|prefix + d| - 1] == prefix;
      prefix + d
  }

  /** Python's `str()` of a scalar. */
  function PyStr(x: Scalar): (r: string)
    ensures x.Null? ==> r == "None"
    ensures x.Bool? && x.b ==> r == "True"
    ensures x.Bool? && !x.b ==> r == "False"
    ensures x.Int? && x.n >= 0 ==> IsDecimal(r) && DigitsValue(r) == x.n
    ensures x.Int? && x.n < 0 ==> |r| > 1 && r[0] == '-' && IsDecimal(r[1..]) && DigitsValue(r[1..]) == -x.n
    ensures x.Text? ==> r == x.s
  {
    match x
    case Null => "None"
    case Bool(b) => if b then "True" else "False"
    case Int(n) =>
      if n < 0 then
        var digits := NatToString(-n);
        assert ("-" + digits)[1..] == digits;
        "-" + digits
      else NatToString(n)
    case Text(s) => s
  }

  /** The outcome of one `page.evaluate` call: the value it returned, or the
      text of the exception it raised. */
  datatype EvalOutcome = Returned(value: Value) | Raised(message: string)

  /** What the page answers to the successive evaluations of one request:
      `answers(k)` is the outcome of the k-th `page.evaluate` call. */
  type Answers = nat -> EvalOutcome

  /** Playwright's message when navigation replaced the page's script context. */
  const ContextDestroyed: string := "Execution context was destroyed"

  /** The evaluation failed because the page navigated away mid-call. */
  predicate IsNavigationInterruption(o: EvalOutcome)
  {
    o.Raised? && Contains(o.message, ContextDestroyed)
  }

  /** The evaluation returned a truthy value. */
  predicate ReturnedTruthy(o: EvalOutcome)
  {
    o.Returned? && Truthy(o.value)
  }
}
