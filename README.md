# Pooled-page reCAPTCHA token engine: a Dafny model

This project models `RecaptchaService` from `src/services/recaptcha_service.py`. The service keeps one Playwright
browser and one shared browser context. It caches one page per Flow `project_id`. For each `get_token` call it
makes sure `grecaptcha.execute` is available on the page, runs it, and returns a `(token, error)` pair. The model
covers the decisions and bookkeeping around the browser calls. The browser calls themselves are inputs.

- `strings.dfy` (module `Strings`): Python's substring test `sub in s` and ASCII lower-casing.
- `browser.dfy` (module `Browser`): the values a page evaluation hands back to Python and their truthiness.
  An `EvalOutcome` is a returned value or the text of a raised exception. `Answers` is an oracle:
  `answers(k)` is the outcome of the k-th `page.evaluate` call of one request.
- `router.dfy` (module `ResourceRouter`): `_route_handler`'s verdict.
- `classifier.dfy` (module `TokenResult`): `_process_token_result`.
- `readiness.dfy` (module `Readiness`): `_check_grecaptcha_loaded`, `_inject_recaptcha_script`,
  `_wait_for_recaptcha_ready` and `_ensure_recaptcha_loaded`. Each step reads the oracle from an index and
  returns the index of the next unread evaluation, so the number of evaluations is part of each contract.
- `executor.dfy` (module `TokenExecutor`): `_execute_recaptcha`, with the retry bound as a parameter.
- `service.dfy` (module `Service`): the class `RecaptchaService` with the `_initialized` flag, the handle fields
  and the `_page_cache` map (`initialize`, `close`, `_cleanup_invalid_pages`, `_get_or_create_page`,
  `get_token`), and the class `Page`, whose `alive` flag says whether reading `page.url` succeeds.

Points where the code's behaviour is easy to misread, and which the model follows as written:

- When every attempt is interrupted by navigation, the executor returns the last attempt's
  `{"error": "Execution error: …"}` dict. Its `{"error": "执行失败：达到最大重试次数"}` return is reached only when
  the retry bound is 0 (`TokenExecutor.Execution`, `TokenExecutor.ExecuteRecaptcha`).
- The code holds no per-key lease on a cached page, so the model has none.
- `get_token` calls `initialize` outside its `try`. An initialization failure therefore escapes `get_token`.
  The model shows this as `Failure` (`Service.RecaptchaService.GetToken`). Every later exception becomes
  `(None, "获取token异常: …")`.
- The readiness result is never consulted: `get_token` executes after the prober whatever it reported
  (`Service.PageRun`).
- In `close`, only the page closes and the context close are guarded one by one. An exception from
  `browser.close()` or `playwright.stop()` ends the call before `_initialized = False`. See "## Findings".

## Model

| member | source | states |
|---|---|---|
| Strings.ContainsIffOccurs | src/services/recaptcha_service.py:158 | The substring test holds exactly when the pattern occurs at some position of the string, as Python's `in` on strings does. |
| Strings.ContainsTransitive | src/services/recaptcha_service.py:174 | A string that contains `mid` contains every substring of `mid`. |
| Strings.Lower | src/services/recaptcha_service.py:143 | No capital A-Z is left in the result; each capital becomes its small letter and every other character stays; a string without capitals is its own lower-case form. |
| Strings.LowerIdempotent | src/services/recaptcha_service.py:143 | Lower-casing an already lower-cased URL changes nothing. |
| Browser.Truthy | src/services/recaptcha_service.py:424-440 | A value is false exactly when it is `None`, `False`, `0`, or an empty string, list or dict. |
| Browser.NatToString | src/services/recaptcha_service.py:429-430 | The decimal text of a number is canonical (digits only, no leading zero except in "0") and denotes that number. |
| Browser.PyStr | src/services/recaptcha_service.py:429-430 | `str()` gives "None", "True" or "False", a string itself, and for an integer an optional "-" exactly when it is negative followed by the canonical digits of its absolute value. |
| ResourceRouter.Route | src/services/recaptcha_service.py:139-181 | The router fails open: only a non-vendor request of a blocked type, or of type "other" whose URL has no "google" fragment, can be aborted. |
| ResourceRouter.VendorRequestsContinue | src/services/recaptcha_service.py:143-160 | A URL that contains any vendor fragment is continued, whatever its resource type. |
| ResourceRouter.NonVendorRules | src/services/recaptcha_service.py:162-181 | For other URLs: document/script/xhr/fetch/websocket continue; image/stylesheet/font/media abort; "other" continues exactly when the URL contains "google"; any other type continues. |
| ResourceRouter.OtherTypeListIsJustGoogle | src/services/recaptcha_service.py:173-178 | The two-entry allow-list for type "other" is the same as the single entry "google": the "labs.google" entry is redundant. |
| ResourceRouter.AbortIff | src/services/recaptcha_service.py:139-181 | A request is aborted exactly when its URL is not a vendor URL and its type is blocked, or its type is "other" and its URL lacks "google". |
| ResourceRouter.RouteIgnoresCase | src/services/recaptcha_service.py:143 | The verdict depends on the URL only through its lower-cased form. |
| TokenResult.ProcessTokenResult | src/services/recaptcha_service.py:422-440 | Exactly one side of the pair is set. A token is returned exactly for a dict with a truthy "token" or a truthy non-dict, and it is always truthy. A dict without a token gives the prefixed error text. A falsy non-dict gives the fixed diagnostic. |
| TokenResult.ErrorText | src/services/recaptcha_service.py:429 | A string error is reported as it is, and "Unknown error" appears exactly when the member is missing or is that very string. |
| TokenResult.MissingErrorIsUnknown | src/services/recaptcha_service.py:424-430 | A dict without a truthy "token" and without "error" gives "reCAPTCHA执行失败: Unknown error". |
| Readiness.CheckGrecaptchaLoaded | src/services/recaptcha_service.py:190-215 | One or two evaluations, two exactly when the first raised a navigation interruption. The result is the last evaluation's value, or False if it raised. A truthy result means that evaluation reported ready. |
| Readiness.InjectRecaptchaScript | src/services/recaptcha_service.py:217-250 | The injection is evaluated only when the existence check returned a falsy value. An existing script gives True. An exception at either step gives False. |
| Readiness.FirstReadyPoll | src/services/recaptcha_service.py:269-289 | The first truthy poll of a window, or the end of the window when none is truthy; no earlier poll is truthy. |
| Readiness.WaitEnd | src/services/recaptcha_service.py:252-292 | The wait reads nothing after a successful `wait_for_function`, otherwise at least one and at most 15 polls, stopping just after a truthy one. |
| Readiness.WaitForRecaptchaReady | src/services/recaptcha_service.py:252-292 | True with no polling when `wait_for_function` succeeds. Otherwise at most 15 polls, stopping at the first truthy one. It returns True exactly when one of the first 15 polls is truthy, spends all 15 when it returns False, and ends at `WaitEnd`. |
| Readiness.ProbeStart | src/services/recaptcha_service.py:415-418 | The wait starts after the check, and after the injection exactly when the check was falsy; at most four evaluations precede it. |
| Readiness.ProbeEnd | src/services/recaptcha_service.py:411-420 | The prober ends where the wait that starts at `ProbeStart` ends, at most 19 evaluations on. |
| Readiness.EnsureRecaptchaLoaded | src/services/recaptcha_service.py:411-420 | It injects exactly when the check is falsy. The wait always runs, starting where the check and the optional injection stopped: ready with no polling after a successful `wait_for_function`, otherwise ready exactly when one of the 15 polls from there is truthy. It ends where `ProbeEnd` says. |
| TokenExecutor.FirstSettledAttempt | src/services/recaptcha_service.py:298-398 | The first attempt of a window that was not a navigation interruption, or the end of the window; every earlier attempt was interrupted. |
| TokenExecutor.Execution | src/services/recaptcha_service.py:294-400 | With at least one attempt allowed, the attempt that ends the run is the first uninterrupted one or the last allowed one, and its value or error dict is the result; every earlier attempt was interrupted. With none allowed, the fallthrough dict. |
| TokenExecutor.ExecuteRecaptcha | src/services/recaptcha_service.py:294-400 | The loop yields exactly the closed-form `Execution`. At most `maxRetries` attempts; every attempt before the last was a navigation interruption; the result is the last attempt's value or its "Execution error" dict; when every attempt is interrupted all are spent and the result is "Execution error"; the fallthrough dict appears only when the bound is 0. |
| Service.ExecutionErrorIsClassified | src/services/recaptcha_service.py:389-398 | An exception the executor gives up on reaches the caller as "reCAPTCHA执行失败: Execution error: " followed by the message. |
| Service.LiveEntries | src/services/recaptcha_service.py:442-454 | The entries kept by a sweep: exactly the keys whose page is alive, with their own pages. |
| Service.Swept | src/services/recaptcha_service.py:458-459 | The cache after the optional sweep is a sub-map of the cache before it. |
| Service.CacheGrowsByAtMostOne | src/services/recaptcha_service.py:456-475 | Each outcome of get-or-create (reuse, removal, insertion after the sweep) leaves at most one entry more than before. |
| Service.ChooseNavigation | src/services/recaptcha_service.py:496-515 | The page is reloaded exactly when its URL can be read and contains the project URL. The equality test is subsumed by this. |
| Service.PageRun | src/services/recaptcha_service.py:517-524 | The executor starts where the prober stopped, whatever readiness it reported; the pair has exactly one side set and its error has the classifier's form. |
| Service.ReadyPageExecutesAtOnce | src/services/recaptcha_service.py:411-420 | A page that is ready at once is executed on the very next evaluation. |
| Service.UnreadyPageIsStillExecuted | src/services/recaptcha_service.py:291-292 | When no poll reports ready, execution still runs right after the last poll, and a token it returns reaches the caller. |
| Service.RunOnPage | src/services/recaptcha_service.py:517-524 | Probing, executing and classifying one page yields exactly `PageRun`. |
| Service.WallErrorsAreNotClassifierErrors | src/services/recaptcha_service.py:526-531 | An error caught by `get_token`'s wall is never mistaken for an execution failure. |
| Service.RecaptchaService.constructor | src/services/recaptcha_service.py:67-91 | A new service is uninitialized, holds no handles and has an empty page cache. |
| Service.RecaptchaService.Initialize | src/services/recaptcha_service.py:93-137 | It does nothing once initialized. Otherwise it sets the flag only when every step succeeds. The first failing step raises and leaves the handle fields of the earlier steps set. |
| Service.RecaptchaService.ClosePages | src/services/recaptcha_service.py:536-543 | Every cached page whose close does not raise becomes dead, the others are unchanged, and the cache ends empty. |
| Service.RecaptchaService.Close | src/services/recaptcha_service.py:533-564 | The cache ends empty even when page closes fail. A context whose close fails stays set. A failing `browser.close()` or `playwright.stop()` leaves `_initialized` as it was. Otherwise `_initialized` ends false. |
| Service.RecaptchaService.CloseTolerant | src/services/recaptcha_service.py:533-564 | Corrected `close`: whatever fails, the cache is empty and the service ends uninitialized. |
| Service.RecaptchaService.CleanupInvalidPages | src/services/recaptcha_service.py:442-454 | Afterwards the cache is exactly its live entries: no dead entry remains, and every live entry keeps its page. |
| Service.RecaptchaService.GetOrCreatePage | src/services/recaptcha_service.py:456-475 | It sweeps only when the size is a positive multiple of 10. A live cached page is returned and the map is unchanged. A dead or missing entry is replaced by a fresh live page under the key, with all other keys untouched. A failed `new_page()` leaves the key removed. |
| Service.RecaptchaService.GetToken | src/services/recaptcha_service.py:477-531 | Only an initialization failure escapes. With a live cached page (after the sweep) the cache is the swept one and the pair is the page's `PageRun`. Otherwise a fresh live page is cached under the key and the pair is its `PageRun`, or, when `new_page()` raises, the key is gone and the pair is `(None, "获取token异常: …")`. |
| Service.BrowserCloseFailureBreaksService | src/services/recaptcha_service.py:553-564 | After `close` with a failing `browser.close()`, the next `get_token` fails on `new_page()` of a `None` context. |
| Service.TolerantCloseLetsServiceRecover | src/services/recaptcha_service.py:533-564 | With the corrected close, the same failure is followed by re-initialization, a new page and that page's normal `PageRun`. |

## Left out

- Playwright itself: launching, context options, the bootstrap init script, and the JavaScript bodies passed to
  `page.evaluate`. Evaluation outcomes are the `Answers` oracle. `wait_for_function`'s success is a parameter.
  So are the failures of initialization steps, `new_page()`, page, context and browser closes, and
  `playwright.stop()`.
- `route.continue_()` and `route.abort()` as calls: only the verdict is modelled.
- Navigation effects (`goto`, `reload`, `wait_for_load_state`, `_load_page`, `_wait_for_page_stable`). They
  catch all their exceptions and make no evaluation. Only the reload-or-load choice is modelled.
- Concurrency: `_lock`, `_page_cache_lock` and the `Semaphore(MAX_CONCURRENT_REQUESTS)` gate. The model is
  sequential, so `initialize`'s double check under the lock collapses to one check.
- Timing: `time.time()`, `duration_ms`, the sleeps and every timeout value. Only attempt counts remain.
- Logging, the module-level singleton (`get_recaptcha_service`, `close_recaptcha_service`) and the `headless`
  and `website_key` fields.
- Values: JavaScript numbers are integers. Arrays and objects hold only primitives. Nested containers and
  floats are not modelled.
- Strings.Lower: only A-Z are lower-cased, not Python's full Unicode case mapping. Every URL fragment the
  router tests is lower-case ASCII.
- Service.RecaptchaService.Close: handle fields are modelled as "holds a handle" flags. The model does not
  track which browser or context object they hold. A page whose `close()` raises is taken to be unchanged.
- Service.ChooseNavigation: the reload-or-load choice is modelled on its own. `get_token` does not call it,
  because navigation has no effect on anything else the model tracks.
- Service.RecaptchaService.GetOrCreatePage: its contract gives the new cache exactly. The size bound that
  follows from it is stated as the lemma `Service.CacheGrowsByAtMostOne`, not as an `ensures` clause.
- Exceptions outside `Exception` (such as task cancellation) are not modelled.
- The repository-root `recaptcha_service.py` (an HTTP wrapper), `src/services/self_recaptcha_solver.py`
  (browser driving) and `test_remote_recaptcha_service.py` (an HTTP client) are not part of this model.

## Findings

| source | as written | input that shows it | evidently intended | confidence | as-written member | corrected member |
|---|---|---|---|---|---|---|
| src/services/recaptcha_service.py:553-561 | `browser.close()` and `playwright.stop()` are not guarded on their own, so an exception from either skips the rest of `close`, including `_initialized = False` | `initialize()` succeeds, then `close()` runs with `browser.close()` raising: `_shared_context` is `None` but `_initialized` stays true, so the next `get_token` skips `initialize` and returns `(None, "获取token异常: 'NoneType' object has no attribute 'new_page'")` | each release step tolerates its own failure and the service always ends uninitialized, so the next request initializes again | medium, not executed | Service.BrowserCloseFailureBreaksService | Service.RecaptchaService.CloseTolerant |

`Service.RecaptchaService.Close` models `close` as written. `Service.TolerantCloseLetsServiceRecover` shows that
the corrected close recovers from the same input.
