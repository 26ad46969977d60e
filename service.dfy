/** `RecaptchaService`: the lifecycle flags, the page cache keyed by project
    id, and `get_token`, which strings the page cache, the readiness prober,
    the executor and the classifier together behind an error wall. Browser
    calls are parameters: whether an initialization step, a page creation or
    a close raises, and what the page answers to evaluations. */
module Service {
  import opened Strings
  import opened Browser
  import opened TokenResult
  import opened Readiness
  import opened TokenExecutor

  /** A call that returned normally, or the text of the exception it let escape. */
  datatype Result<T, E> = Success(value: T) | Failure(error: E)

  /** A browser tab. `alive` says whether reading `page.url` succeeds; it is
      false once the page has been closed or has crashed. */
  class Page {
    var alive: bool

    constructor ()
      ensures alive
    {
      alive := true;
    }
  }

  /** The cache is swept when its size is a positive multiple of this. */
  const SweepInterval: nat := 10

  predicate SweepDue(size: nat)
  {
    size > 0 && size % SweepInterval == 0
  }

  /** The entries of the cache whose page is alive. */
  function LiveEntries(cache: map<string, Page>): (r: map<string, Page>)
    reads cache.Values
    ensures forall k :: k in r <==> k in cache && cache[k].alive
    ensures forall k :: k in r ==> r[k] == cache[k]
  {
    map k | k in cache && cache[k].alive :: cache[k]
  }

  /** The cache as `_get_or_create_page` sees it after its opportunistic sweep. */
  function Swept(cache: map<string, Page>): (r: map<string, Page>)
    reads cache.Values
    ensures r.Keys <= cache.Keys
    ensures forall k :: k in r ==> r[k] == cache[k]
  {
    if SweepDue(|cache|) then LiveEntries(cache) else cache
  }

  /** `key` is cached with a live page. */
  predicate HasLivePage(cache: map<string, Page>, key: string)
    reads cache.Values
  {
    key in cache && cache[key].alive
  }

  /** Prefix of the error `get_token` returns for an exception it caught. */
  const ExceptionPrefix: string := "获取token异常: "

  /** Python's message for `new_page()` on a shared context that is `None`. */
  const NoneTypeNewPage: string := "'NoneType' object has no attribute 'new_page'"

  /** Errors of the wall and of the classifier never coincide, so a caller can
      tell an internal exception from a failed execution. */
  lemma WallErrorsAreNotClassifierErrors(message: string)
    ensures !IsClassifierError(ExceptionPrefix + message)
  {
    var e := ExceptionPrefix + message;
    assert e[0] == '获';
    assert ExecutionFailedPrefix[0] == 'r';
    assert NullTokenDiagnostic[0] == 'T';
  }

  /** An evaluation exception the executor gives up on reaches the caller as
      the classifier's failure text wrapped around the executor's own. */
  lemma ExecutionErrorIsClassified(message: string)
    ensures ProcessTokenResult(ExecutionError(message)) ==
              TokenPair(None, Some("reCAPTCHA执行失败: Execution error: " + message))
  {
    assert ExecutionFailedPrefix + ("Execution error: " + message) ==
           "reCAPTCHA执行失败: Execution error: " + message;
  }

  /** The steps of `initialize`, in order. */
  datatype InitStep = StartPlaywright | LaunchBrowser | NewContext | RouteRequests | AddInitScript

  /** Position of a step; a failing step leaves the fields of earlier steps set. */
  function StepIndex(step: InitStep): (i: nat)
    ensures i < 5
  {
    match step
    case StartPlaywright => 0
    case LaunchBrowser => 1
    case NewContext => 2
    case RouteRequests => 3
    case AddInitScript => 4
  }

  /** The step of `initialize` that raises, and its message. */
  datatype InitFailure = InitFailure(step: InitStep, message: string)

  /** How `get_token` reaches the project page. */
  datatype Navigation = Reload | Load

  const FlowProjectUrl: string := "https://labs.google/fx/tools/flow/project/"

  /** The project page: the Flow prefix followed by the project id. */
  function WebsiteUrl(projectId: string): (url: string)
    ensures FlowProjectUrl <= url && url[|FlowProjectUrl|..] == projectId
  {
    FlowProjectUrl + projectId
  }

  /** `get_token`'s choice between reloading and loading the project page.
      `currentUrl` is `None` when reading `page.url` raised. */
  function ChooseNavigation(currentUrl: Option<string>, projectId: string): (nav: Navigation)
    ensures nav == Reload <==> currentUrl.Some? && Contains(currentUrl.value, WebsiteUrl(projectId))
  {
    match currentUrl
    case None => Load
    case Some(url) =>
      var target := WebsiteUrl(projectId);
      ContainsSelf(target);
      if url == target || Contains(url, target) then Reload else Load
  }

  /** What readiness, execution and classification make of one page: the
      executor starts where the prober stopped, whatever readiness the
      prober reported, and the classifier reads its result. */
  function PageRun(waitForFunctionOk: bool, answers: Answers): (pair: TokenPair)
    ensures ExactlyOneSet(pair)
    ensures pair.error.Some? ==> IsClassifierError(pair.error.value)
  {
    ProcessTokenResult(Execution(MaxExecutionRetries, answers, ProbeEnd(waitForFunctionOk, answers, 0)).result)
  }

  /** A page that is ready at once is executed on the very next evaluation. */
  lemma ReadyPageExecutesAtOnce(waitForFunctionOk: bool, answers: Answers)
    requires waitForFunctionOk && ReturnedTruthy(answers(0)) && answers(1).Returned?
    ensures PageRun(waitForFunctionOk, answers) == ProcessTokenResult(answers(1).value)
  {
    assert ProbeEnd(waitForFunctionOk, answers, 0) == 1;
  }

  /** A page on which no poll ever reports ready is still executed, right
      after the last poll, and a token it then returns reaches the caller. */
  lemma UnreadyPageIsStillExecuted(answers: Answers, start: nat, v: Value)
    requires start == ProbeStart(answers, 0)
    requires forall j :: start <= j < start + MaxPollingAttempts ==> !ReturnedTruthy(answers(j))
    requires answers(start + MaxPollingAttempts) == Returned(v)
    ensures PageRun(false, answers) == ProcessTokenResult(v)
    ensures CarriesToken(v) ==> PageRun(false, answers).token.Some?
  {
    var polled := FirstReadyPoll(answers, start, MaxPollingAttempts);
    assert polled == start + MaxPollingAttempts;
    assert ProbeEnd(false, answers, 0) == start + MaxPollingAttempts;
  }

  /** Readiness, execution and classification on one page. The prober's
      verdict is not consulted: execution always follows. */
  method RunOnPage(waitForFunctionOk: bool, answers: Answers) returns (pair: TokenPair)
    ensures pair == PageRun(waitForFunctionOk, answers)
  {
    var injected, ready, n := EnsureRecaptchaLoaded(waitForFunctionOk, answers, 0);
    var raw, next := ExecuteRecaptcha(MaxExecutionRetries, answers, n);
    pair := ProcessTokenResult(raw);
  }

  class RecaptchaService {
    var initialized: bool
    /** Whether the `playwright`, `browser` and `_shared_context` fields hold a handle. */
    var hasPlaywright: bool
    var hasBrowser: bool
    var hasSharedContext: bool
    var pageCache: map<string, Page>

    /** Every cached page belongs to one project id. */
    ghost predicate Valid()
      reads this
    {
      forall k1, k2 :: k1 in pageCache && k2 in pageCache && k1 != k2 ==> pageCache[k1] != pageCache[k2]
    }

    constructor ()
      ensures Valid()
      ensures !initialized && !hasPlaywright && !hasBrowser && !hasSharedContext
      ensures pageCache == map[]
    {
      initialized := false;
      hasPlaywright, hasBrowser, hasSharedContext := false, false, false;
      pageCache := map[];
    }

    /** `initialize`: nothing once initialized; otherwise each step in turn,
        the first failing one raising (`raised`) with `initialized` still false. */
    method Initialize(failure: Option<InitFailure>) returns (raised: Option<string>)
      modifies this`initialized, this`hasPlaywright, this`hasBrowser, this`hasSharedContext
      ensures old(initialized) ==>
                raised == None && initialized && hasPlaywright == old(hasPlaywright) &&
                hasBrowser == old(hasBrowser) && hasSharedContext == old(hasSharedContext)
      ensures !old(initialized) && failure.None? ==>
                raised == None && initialized && hasPlaywright && hasBrowser && hasSharedContext
      ensures !old(initialized) && failure.Some? ==>
                raised == Some(failure.value.message) && !initialized &&
                hasPlaywright == (old(hasPlaywright) || StepIndex(failure.value.step) > 0) &&
                hasBrowser == (old(hasBrowser) || StepIndex(failure.value.step) > 1) &&
                hasSharedContext == (old(hasSharedContext) || StepIndex(failure.value.step) > 2)
    {
      if initialized {
        return None;
      }
      var failsAt := if failure.Some? then StepIndex(failure.value.step) else 5;
      if failsAt == 0 {
        return Some(failure.value.message);
      }
      hasPlaywright := true;
      if failsAt == 1 {
        return Some(failure.value.message);
      }
      hasBrowser := true;
      if failsAt == 2 {
        return Some(failure.value.message);
      }
      hasSharedContext := true;
      if failsAt < 5 {
        // Installing the router or the bootstrap script failed.
        return Some(failure.value.message);
      }
      initialized := true;
      raised := None;
    }

    /** The first phase of `close`: every cached page is closed, a close that
        raises leaving its page as it was, and the cache is emptied. */
    method ClosePages(failingCloses: set<string>)
      requires Valid()
      modifies this`pageCache, pageCache.Values
      ensures Valid() && pageCache == map[]
      ensures forall k :: k in old(pageCache) ==>
                (old(pageCache)[k].alive <==> old(pageCache[k].alive) && k in failingCloses)
    {
      var pending := pageCache.Keys;
      while pending != {}
        invariant pending <= pageCache.Keys
        invariant pageCache == old(pageCache)
        invariant forall k :: k in pageCache ==>
                    (pageCache[k].alive <==>
                       old(pageCache[k].alive) && (k in pending || k in failingCloses))
        decreases pending
      {
        var k :| k in pending;
        if k !in failingCloses {
          pageCache[k].alive := false;
        }
        pending := pending - {k};
      }
      pageCache := map[];
    }

    /** `close`, as written: the page and context closes are guarded one by one,
        but an exception from closing the browser or stopping Playwright ends
        the whole call, so the later steps and the flag reset are skipped. */
    method Close(failingPageCloses: set<string>, contextCloseFails: bool, browserCloseFails: bool,
                 playwrightStopFails: bool)
      requires Valid()
      modifies this, pageCache.Values
      ensures Valid() && pageCache == map[]
      ensures forall k :: k in old(pageCache) ==>
                (old(pageCache)[k].alive <==> old(pageCache[k].alive) && k in failingPageCloses)
      ensures hasSharedContext == (old(hasSharedContext) && contextCloseFails)
      ensures hasBrowser == (old(hasBrowser) && browserCloseFails)
      ensures hasPlaywright == (old(hasPlaywright) && ((old(hasBrowser) && browserCloseFails) || playwrightStopFails))
      ensures initialized ==
                (old(initialized) &&
                 ((old(hasBrowser) && browserCloseFails) || (old(hasPlaywright) && playwrightStopFails)))
    {
      ClosePages(failingPageCloses);
      if hasSharedContext && !contextCloseFails {
        hasSharedContext := false;
      }
      if hasBrowser {
        if browserCloseFails {
          return;
        }
        hasBrowser := false;
      }
      if hasPlaywright {
        if playwrightStopFails {
          return;
        }
        hasPlaywright := false;
      }
      initialized := false;
    }

    /** `close` with the browser close and the Playwright stop guarded on
        their own, as the page closes and the context close already are:
        whatever fails, the service ends uninitialized. */
    method CloseTolerant(failingPageCloses: set<string>, contextCloseFails: bool, browserCloseFails: bool,
                         playwrightStopFails: bool)
      requires Valid()
      modifies this, pageCache.Values
      ensures Valid() && pageCache == map[] && !initialized
      ensures forall k :: k in old(pageCache) ==>
                (old(pageCache)[k].alive <==> old(pageCache[k].alive) && k in failingPageCloses)
      ensures hasSharedContext == (old(hasSharedContext) && contextCloseFails)
      ensures hasBrowser == (old(hasBrowser) && browserCloseFails)
      ensures hasPlaywright == (old(hasPlaywright) && playwrightStopFails)
    {
      ClosePages(failingPageCloses);
      if hasSharedContext && !contextCloseFails {
        hasSharedContext := false;
      }
      if hasBrowser && !browserCloseFails {
        hasBrowser := false;
      }
      if hasPlaywright && !playwrightStopFails {
        hasPlaywright := false;
      }
      initialized := false;
    }

    /** `_cleanup_invalid_pages`: collects the ids whose page is dead, then
        deletes them; exactly the live entries remain. */
    method CleanupInvalidPages()
      requires Valid()
      modifies this`pageCache
      ensures Valid()
      ensures pageCache == old(LiveEntries(pageCache))
    {
      ghost var original := pageCache;
      var invalidIds: seq<string> := [];
      var pending := pageCache.Keys;
      while pending != {}
        invariant pending <= original.Keys
        invariant pageCache == original
        invariant forall k :: k in invalidIds <==> k in original && k !in pending && !original[k].alive
        decreases pending
      {
        var k :| k in pending;
        if !pageCache[k].alive {
          invalidIds := invalidIds + [k];
        }
        pending := pending - {k};
      }
      var i := 0;
      while i < |invalidIds|
        invariant 0 <= i <= |invalidIds|
        invariant forall k :: k in pageCache <==> k in original && k !in invalidIds[..i]
        invariant forall k :: k in pageCache ==> pageCache[k] == original[k]
      {
        assert invalidIds[..i + 1] == invalidIds[..i] + [invalidIds[i]];
        pageCache := pageCache - {invalidIds[i]};
        i := i + 1;
      }
      assert invalidIds[..i] == invalidIds;
    }

    /** What `new_page()` raises, if anything: on a missing shared context
        it is Python's attribute error, otherwise the browser's own outcome. */
    function NewPageError(browserError: Option<string>): (e: Option<string>)
      reads this
      ensures !hasSharedContext ==> e == Some(NoneTypeNewPage)
      ensures hasSharedContext ==> e == browserError
    {
      if hasSharedContext then browserError else Some(NoneTypeNewPage)
    }

    /** `_get_or_create_page`: an opportunistic sweep, then reuse of a live
        cached page, or a new page in place of a dead or missing one. `page`
        is null when `new_page()` raised. */
    method GetOrCreatePage(projectId: string, browserError: Option<string>) returns (page: Page?)
      requires Valid()
      modifies this`pageCache
      ensures Valid()
      ensures old(HasLivePage(Swept(pageCache), projectId)) ==>
                page == old(Swept(pageCache))[projectId] && pageCache == old(Swept(pageCache))
      ensures !old(HasLivePage(Swept(pageCache), projectId)) && NewPageError(browserError).None? ==>
                page != null && fresh(page) && page.alive &&
                pageCache == old(Swept(pageCache))[projectId := page]
      ensures !old(HasLivePage(Swept(pageCache), projectId)) && NewPageError(browserError).Some? ==>
                page == null && pageCache == old(Swept(pageCache)) - {projectId}
    {
      if SweepDue(|pageCache|) {
        CleanupInvalidPages();
      }
      if projectId in pageCache {
        var cached := pageCache[projectId];
        if cached.alive {
          return cached;
        }
        pageCache := pageCache - {projectId};
      }
      if NewPageError(browserError).Some? {
        return null;
      }
      page := new Page();
      pageCache := pageCache[projectId := page];
    }

    /** `get_token`: an initialization failure escapes (`Failure`); after that,
        every exception becomes the pair `(None, "获取token异常: …")`. */
    method GetToken(projectId: string, initFailure: Option<InitFailure>, browserError: Option<string>,
                    waitForFunctionOk: bool, answers: Answers)
      returns (outcome: Result<TokenPair, string>)
      requires Valid()
      modifies this
      ensures Valid()
      ensures outcome.Failure? <==> !old(initialized) && initFailure.Some?
      ensures outcome.Failure? ==> outcome.error == initFailure.value.message && pageCache == old(pageCache)
      ensures old(initialized) ==>
                initialized && hasPlaywright == old(hasPlaywright) && hasBrowser == old(hasBrowser) &&
                hasSharedContext == old(hasSharedContext)
      ensures !old(initialized) && initFailure.None? ==> hasPlaywright && hasBrowser && hasSharedContext
      ensures outcome.Success? ==> initialized && ExactlyOneSet(outcome.value)
      ensures outcome.Success? && outcome.value.error.Some? && !IsClassifierError(outcome.value.error.value) ==>
                NewPageError(browserError).Some? &&
                outcome.value.error.value == ExceptionPrefix + NewPageError(browserError).value
      ensures outcome.Success? && NewPageError(browserError).Some? &&
              !(projectId in old(pageCache) && old(pageCache[projectId].alive)) ==>
                outcome.value == TokenPair(None, Some(ExceptionPrefix + NewPageError(browserError).value))
      ensures outcome.Success? && outcome.value.token.Some? ==>
                projectId in pageCache && pageCache[projectId].alive
      ensures projectId in old(pageCache) && old(pageCache[projectId].alive) && outcome.Success? ==>
                projectId in pageCache && pageCache[projectId] == old(pageCache[projectId])
      ensures outcome.Success? && old(HasLivePage(Swept(pageCache), projectId)) ==>
                pageCache == old(Swept(pageCache)) && outcome.value == PageRun(waitForFunctionOk, answers)
      ensures outcome.Success? && !old(HasLivePage(Swept(pageCache), projectId)) && NewPageError(browserError).None? ==>
                projectId in pageCache && fresh(pageCache[projectId]) && pageCache[projectId].alive &&
                pageCache == old(Swept(pageCache))[projectId := pageCache[projectId]] &&
                outcome.value == PageRun(waitForFunctionOk, answers)
      ensures outcome.Success? && !old(HasLivePage(Swept(pageCache), projectId)) && NewPageError(browserError).Some? ==>
                pageCache == old(Swept(pageCache)) - {projectId} &&
                outcome.value == TokenPair(None, Some(ExceptionPrefix + NewPageError(browserError).value))
    {
      if !initialized {
        var raised := Initialize(initFailure);
        if raised.Some? {
          return Failure(raised.value);
        }
      }
      var page := GetOrCreatePage(projectId, browserError);
      if page == null {
        return Success(TokenPair(None, Some(ExceptionPrefix + NewPageError(browserError).value)));
      }
      var pair := RunOnPage(waitForFunctionOk, answers);
      outcome := Success(pair);
    }
  }

  /** Whichever way `_get_or_create_page` ends (reuse, replacement, or a
      failed creation), the cache it leaves has at most one entry more than
      the cache it started from. */
  lemma CacheGrowsByAtMostOne(before: map<string, Page>, swept: map<string, Page>, key: string, page: Page)
    requires swept.Keys <= before.Keys
    ensures |swept| <= |before|
    ensures |swept - {key}| <= |before|
    ensures |swept[key := page]| <= |before| + 1
  {
    SubsetCardinality(swept.Keys, before.Keys);
    SubsetCardinality((swept - {key}).Keys, before.Keys);
    assert swept[key := page].Keys == swept.Keys + {key};
    SubsetCardinality(swept.Keys + {key}, before.Keys + {key});
  }

  lemma {:induction false} SubsetCardinality<T>(a: set<T>, b: set<T>)
    requires a <= b
    ensures |a| <= |b|
  {
    if a != {} {
      var x :| x in a;
      SubsetCardinality(a - {x}, b - {x});
    }
  }

  /** As written, a failing `browser.close()` leaves the service flagged as
      initialized with its shared context gone, so the next `get_token` does
      not re-initialize and fails on `new_page()`. */
  method BrowserCloseFailureBreaksService(projectId: string, waitForFunctionOk: bool, answers: Answers)
    returns (outcome: Result<TokenPair, string>)
    ensures outcome == Success(TokenPair(None, Some(ExceptionPrefix + NoneTypeNewPage)))
  {
    var service := new RecaptchaService();
    var _ := service.Initialize(None);
    service.Close({}, false, true, false);
    outcome := service.GetToken(projectId, None, None, waitForFunctionOk, answers);
  }

  /** With every release step guarded, the same failure leaves the service
      uninitialized, and the next `get_token` initializes again, creates a
      page and returns what that page's run yields. */
  method TolerantCloseLetsServiceRecover(projectId: string, waitForFunctionOk: bool, answers: Answers)
    returns (outcome: Result<TokenPair, string>)
    ensures outcome == Success(PageRun(waitForFunctionOk, answers))
  {
    var service := new RecaptchaService();
    var _ := service.Initialize(None);
    service.CloseTolerant({}, false, true, false);
    outcome := service.GetToken(projectId, None, None, waitForFunctionOk, answers);
  }
}
