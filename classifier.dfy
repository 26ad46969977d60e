/** `_process_token_result`: turns the executor's raw result into the
    `(token, error)` pair that `get_token` hands back. */
module TokenResult {
  import opened Strings
  import opened Browser

  /** `(token, error)`; the token is whatever truthy value the page produced. */
  datatype TokenPair = TokenPair(token: Option<Value>, error: Option<string>)

  /** Exactly one side of the pair is set. */
  predicate ExactlyOneSet(p: TokenPair)
  {
    p.token.Some? != p.error.Some?
  }

  const ExecutionFailedPrefix: string := "reCAPTCHA执行失败: "
  const UnknownError: string := "Unknown error"
  const NullTokenDiagnostic: string :=
    "Token获取失败，可能原因：reCAPTCHA脚本未加载、页面加载超时、或网络问题"

  /** `token.get('error', 'Unknown error')`, formatted with `str()`. A string
      error is reported as it is, and "Unknown error" appears only when the
      member is missing or is that very string. */
  function ErrorText(entries: map<string, Scalar>): (r: string)
    ensures "error" in entries && entries["error"].Text? ==> r == entries["error"].s
    ensures r == UnknownError <==> "error" !in entries || entries["error"] == Text(UnknownError)
  {
    if "error" in entries then
      var e := PyStr(entries["error"]);
      assert UnknownError[0] == 'U';
      e
    else UnknownError
  }

  /** The raw result carries a token: a dict with a truthy "token" member, or
      any truthy value that is not a dict. */
  predicate CarriesToken(raw: Value)
  {
    if raw.Dict? then "token" in raw.entries && ScalarTruthy(raw.entries["token"])
    else Truthy(raw)
  }

  /** An error produced by the classifier: the dict prefix, or the fixed diagnostic. */
  predicate IsClassifierError(e: string)
  {
    ExecutionFailedPrefix <= e || e == NullTokenDiagnostic
  }

  function ProcessTokenResult(raw: Value): (r: TokenPair)
    ensures ExactlyOneSet(r)
    ensures r.token.Some? <==> CarriesToken(raw)
    ensures r.token.Some? ==> Truthy(r.token.value)
    ensures r.token.Some? && raw.Dict? ==> r.token.value == Plain(raw.entries["token"])
    ensures r.token.Some? && !raw.Dict? ==> r.token.value == raw
    ensures r.error.Some? && raw.Dict? ==> r.error.value == ExecutionFailedPrefix + ErrorText(raw.entries)
    ensures r.error.Some? && !raw.Dict? ==> r.error.value == NullTokenDiagnostic
    ensures r.error.Some? ==> IsClassifierError(r.error.value)
  {
    match raw
    case Dict(entries) =>
      if "token" in entries && ScalarTruthy(entries["token"]) then
        TokenPair(Some(Plain(entries["token"])), None)
      else
        TokenPair(None, Some(ExecutionFailedPrefix + ErrorText(entries)))
    case _ =>
      if Truthy(raw) then TokenPair(Some(raw), None)
      else TokenPair(None, Some(NullTokenDiagnostic))
  }

  /** A dict without a truthy token and without an "error" member fails with
      "Unknown error". */
  lemma MissingErrorIsUnknown(entries: map<string, Scalar>)
    requires !CarriesToken(Dict(entries)) && "error" !in entries
    ensures ProcessTokenResult(Dict(entries)) ==
              TokenPair(None, Some("reCAPTCHA执行失败: Unknown error"))
  {
    assert ExecutionFailedPrefix + UnknownError == "reCAPTCHA执行失败: Unknown error";
  }
}
