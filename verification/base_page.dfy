/**
 BasePage: the element operations every page object inherits. Each one runs
 a small piece of driver work inside RetryUtils.retryOperation with three
 attempts, translating some driver exceptions into framework exceptions on
 the way, and classifies what finally escapes with three catch arms.

 The driver is seen only through what each call into it returns or throws,
 attempt by attempt (a Step per call). Operations are functions of those
 outcomes and are built on the reference definition `Retry`, which the
 imperative `RetryOperation` is proved to follow.
 */
module BasePage {
  import opened Wrappers
  import opened Exceptions
  import opened Text
  import opened RetryUtils
  import Config

  /** A locator, by its toString(); it only appears in messages. */
  type Locator = string

  /** A WebElement handed back by the driver. */
  datatype Element = Element(handle: nat)

  /** One call into the driver: it returns a value or throws a foreign exception. */
  datatype Step<+T> = Done(value: T) | Raised(fault: Fault, message: string)

  /** A wait.until(...) repeated by a retry: probe(k) is what the wait returns
      or throws in the k-th attempt, and elapsedMs the duration that retry
      reports if it gives up. */
  datatype Wait = Wait(probe: int -> Step<Element>, elapsedMs: int)

  const MAX_RETRIES: int := 3

  /** The fields a page object is built with: the driver DriverManager hands
      out (only an opaque handle here; DriverManager is not part of this
      model) and the timeout, in seconds, its WebDriverWait is sized with. */
  class Page {
    var driver: nat
    var waitSeconds: int

    constructor (driver: nat, waitSeconds: int)
      ensures this.driver == driver && this.waitSeconds == waitSeconds
    {
      this.driver := driver;
      this.waitSeconds := waitSeconds;
    }
  }

  /** The BasePage constructor: the wait is sized with
      ConfigManager.getTimeout(), and the ConfigurationException that throws
      for an unusable "timeout" entry escapes, so no page is built. */
  method NewPage(config: Config.ConfigManager, driver: nat) returns (r: Outcome<Page>)
    ensures r.Ok? <==> ParseInt(config.GetProperty("timeout")).Some?
    ensures r.Ok? ==> fresh(r.value) && r.value.driver == driver
                      && r.value.waitSeconds == ParseInt(config.GetProperty("timeout")).value
    ensures r.Err? ==> r == Err(config.GetTimeout().error) && IsA(r.error, Configuration)
  {
    var timeout := config.GetTimeout();
    match timeout
    case Err(e) =>
      r := Err(e);
    case Ok(seconds) =>
      var page := new Page(driver, seconds);
      r := Ok(page);
  }

  /** The catch arms after each retried element operation: the framework's
      TimeoutException and ElementNotFoundException are rethrown as they are,
      any other exception becomes an ElementNotFoundException with `message`
      and the original as its cause. */
  function Surface<T>(r: Outcome<T>, message: string): (s: Outcome<T>)
    ensures s.Ok? <==> r.Ok?
    ensures s.Ok? ==> s == r
    ensures s.Err? ==> IsA(s.error, Timeout) || IsA(s.error, ElementNotFound)
    ensures r.Err? && (IsA(r.error, Timeout) || IsA(r.error, ElementNotFound)) ==> s == r
    ensures r.Err? && !IsA(r.error, Timeout) && !IsA(r.error, ElementNotFound) ==>
      s == Err(Framework(ElementNotFound, message, Some(r.error)))
  {
    match r
    case Ok(v) => Ok(v)
    case Err(e) =>
      if IsA(e, Timeout) || IsA(e, ElementNotFound) then Err(e)
      else Err(Framework(ElementNotFound, message, Some(e)))
  }

  // ---------------------------------------------------------------------
  // waitForElementToBeVisible / waitForElementToBeClickable

  /** One attempt of the visibility (condition "visible") or clickability
      (condition "clickable") wait: a driver timeout becomes the framework's
      TimeoutException, a missing element its ElementNotFoundException, and
      any other driver exception escapes unchanged. */
  function WaitAttempt(condition: string, locator: Locator, s: Step<Element>): Outcome<Element> {
    match s
    case Done(e) => Ok(e)
    case Raised(DriverTimeout, m) =>
      Err(Framework(Timeout, "Element not " + condition + " within timeout: " + locator, Some(Foreign(DriverTimeout, m))))
    case Raised(NoSuchElement, m) =>
      Err(Framework(ElementNotFound, "Element not found in DOM: " + locator, Some(Foreign(NoSuchElement, m))))
    case Raised(f, m) => Err(Foreign(f, m))
  }

  function WaitOp(condition: string, locator: Locator, w: Wait): Operation<Element> {
    Operation(k => WaitAttempt(condition, locator, w.probe(k)), w.elapsedMs)
  }

  function VisibleName(locator: Locator): string { "Element to be visible: " + locator }
  function ClickableName(locator: Locator): string { "Element to be clickable: " + locator }

  /** waitForElementToBeVisible. */
  function WaitForElementToBeVisible(locator: Locator, w: Wait): Outcome<Element> {
    Surface(Retry(WaitOp("visible", locator, w), VisibleName(locator), MAX_RETRIES).result,
      "Error waiting for element visibility: " + locator)
  }

  /** waitForElementToBeClickable. */
  function WaitForElementToBeClickable(locator: Locator, w: Wait): Outcome<Element> {
    Surface(Retry(WaitOp("clickable", locator, w), ClickableName(locator), MAX_RETRIES).result,
      "Error waiting for element clickability: " + locator)
  }

  // ---------------------------------------------------------------------
  // clickElement

  /** The driver behind one clickElement call: for the k-th outer attempt, the
      clickability wait it runs and what element.click() does. */
  datatype ClickEnv = ClickEnv(clickable: int -> Wait, click: int -> Step<()>, elapsedMs: int)

  /** One outer attempt of clickElement: the nested clickability wait (itself
      a retry), then the click, with stale, missing and non-interactable
      elements turned into ElementNotFoundException and a driver timeout into
      TimeoutException. */
  function ClickAttempt(locator: Locator, env: ClickEnv, k: int): Outcome<()> {
    match WaitForElementToBeClickable(locator, env.clickable(k))
    case Err(e) => Err(e)
    case Ok(_) =>
      match env.click(k)
      case Done(_) => Ok(())
      case Raised(StaleElement, m) =>
        Err(Framework(ElementNotFound, "Stale element (DOM changed) while clicking: " + locator, Some(Foreign(StaleElement, m))))
      case Raised(NoSuchElement, m) =>
        Err(Framework(ElementNotFound, "Element not found for click: " + locator, Some(Foreign(NoSuchElement, m))))
      case Raised(NotInteractable, m) =>
        Err(Framework(ElementNotFound, "Element not interactable (may be hidden): " + locator, Some(Foreign(NotInteractable, m))))
      case Raised(DriverTimeout, m) =>
        Err(Framework(Timeout, "Timeout waiting for clickable element: " + locator, Some(Foreign(DriverTimeout, m))))
      case Raised(f, m) => Err(Foreign(f, m))
  }

  function ClickOp(locator: Locator, env: ClickEnv): Operation<()> {
    Operation(k => ClickAttempt(locator, env, k), env.elapsedMs)
  }

  function ClickName(locator: Locator): string { "Click element: " + locator }

  /** clickElement. */
  function ClickElement(locator: Locator, env: ClickEnv): Outcome<()> {
    Surface(Retry(ClickOp(locator, env), ClickName(locator), MAX_RETRIES).result,
      "Cannot click element - unexpected error: " + locator)
  }

  /** Clickability probes (wait.until calls) made by outer attempts 1..n. */
  function ClickabilityProbes(locator: Locator, env: ClickEnv, n: int): nat
    decreases n
  {
    if n <= 0 then 0
    else
      var wait := Retry(WaitOp("clickable", locator, env.clickable(n)), ClickableName(locator), MAX_RETRIES);
      ClickabilityProbes(locator, env, n - 1) + wait.invocations
  }

  /** element.click() calls made by outer attempts 1..n: one in each attempt
      whose clickability wait returned an element. */
  function ClickCalls(locator: Locator, env: ClickEnv, n: int): nat
    decreases n
  {
    if n <= 0 then 0
    else
      var clicked := if WaitForElementToBeClickable(locator, env.clickable(n)).Ok? then 1 else 0;
      ClickCalls(locator, env, n - 1) + clicked
  }

  // ---------------------------------------------------------------------
  // typeText

  /** The driver behind one typeText call, per outer attempt: the nested
      visibility wait, element.clear() and element.sendKeys(text). */
  datatype TypeEnv = TypeEnv(visible: int -> Wait, clear: int -> Step<()>, sendKeys: int -> Step<()>, elapsedMs: int)

  /** One outer attempt of typeText. Whatever clear() throws is logged and
      ignored, so `env.clear` plays no part. After sendKeys returns, the log
      call evaluates text.length(), which throws NullPointerException for a
      null text; that exception is retried like any other. */
  function TypeAttempt(locator: Locator, text: Option<string>, env: TypeEnv, k: int): Outcome<()> {
    match WaitForElementToBeVisible(locator, env.visible(k))
    case Err(e) => Err(e)
    case Ok(_) =>
      match env.sendKeys(k)
      case Done(_) => if text.None? then Err(Foreign(NullPointer, "")) else Ok(())
      case Raised(StaleElement, m) =>
        Err(Framework(ElementNotFound, "Stale element (DOM changed) while typing: " + locator, Some(Foreign(StaleElement, m))))
      case Raised(NoSuchElement, m) =>
        Err(Framework(ElementNotFound, "Element not found for text input: " + locator, Some(Foreign(NoSuchElement, m))))
      case Raised(NotInteractable, m) =>
        Err(Framework(ElementNotFound, "Element not interactable (may be hidden): " + locator, Some(Foreign(NotInteractable, m))))
      case Raised(DriverTimeout, m) =>
        Err(Framework(Timeout, "Timeout waiting for visible element: " + locator, Some(Foreign(DriverTimeout, m))))
      case Raised(f, m) => Err(Foreign(f, m))
  }

  function TypeOp(locator: Locator, text: Option<string>, env: TypeEnv): Operation<()> {
    Operation(k => TypeAttempt(locator, text, env, k), env.elapsedMs)
  }

  function TypeName(locator: Locator): string { "Type text in element: " + locator }

  /** typeText. A null or empty text is only logged, never rejected. */
  function TypeText(locator: Locator, text: Option<string>, env: TypeEnv): Outcome<()> {
    Surface(Retry(TypeOp(locator, text, env), TypeName(locator), MAX_RETRIES).result,
      "Cannot type text - unexpected error: " + locator)
  }

  // ---------------------------------------------------------------------
  // getElementText

  /** The driver behind one getElementText call, per outer attempt: the nested
      visibility wait and element.getText(). */
  datatype TextEnv = TextEnv(visible: int -> Wait, getText: int -> Step<string>, elapsedMs: int)

  function GetTextAttempt(locator: Locator, env: TextEnv, k: int): Outcome<string> {
    match WaitForElementToBeVisible(locator, env.visible(k))
    case Err(e) => Err(e)
    case Ok(_) =>
      match env.getText(k)
      case Done(s) => Ok(s)
      case Raised(StaleElement, m) =>
        Err(Framework(ElementNotFound, "Stale element (DOM changed): " + locator, Some(Foreign(StaleElement, m))))
      case Raised(NoSuchElement, m) =>
        Err(Framework(ElementNotFound, "Element not found for text retrieval: " + locator, Some(Foreign(NoSuchElement, m))))
      case Raised(DriverTimeout, m) =>
        Err(Framework(Timeout, "Timeout waiting for element: " + locator, Some(Foreign(DriverTimeout, m))))
      case Raised(f, m) => Err(Foreign(f, m))
  }

  function GetTextOp(locator: Locator, env: TextEnv): Operation<string> {
    Operation(k => GetTextAttempt(locator, env, k), env.elapsedMs)
  }

  function GetTextName(locator: Locator): string { "Get text from element: " + locator }

  /** getElementText. */
  function GetElementText(locator: Locator, env: TextEnv): Outcome<string> {
    Surface(Retry(GetTextOp(locator, env), GetTextName(locator), MAX_RETRIES).result,
      "Cannot get text - unexpected error: " + locator)
  }

  // ---------------------------------------------------------------------
  // isElementDisplayed, waitForPageLoad, navigateToUrl

  /** isElementDisplayed: the visibility wait, then element.isDisplayed();
      every exception on the way reads as false, so it never throws. */
  function IsElementDisplayed(locator: Locator, w: Wait, displayed: Step<bool>): bool {
    match WaitForElementToBeVisible(locator, w)
    case Err(_) => false
    case Ok(_) =>
      match displayed
      case Done(b) => b
      case Raised(_, _) => false
  }

  /** waitForPageLoad: `load` is what the wait for document.readyState ==
      "complete" does. Its timeout becomes the framework's TimeoutException;
      any other exception is logged and ignored. */
  function WaitForPageLoad(load: Step<()>): Outcome<()> {
    match load
    case Raised(DriverTimeout, m) => Err(Framework(Timeout, "Page load timeout", Some(Foreign(DriverTimeout, m))))
    case _ => Ok(())
  }

  /** navigateToUrl: `navigate` is what driver.navigate().to(url) does and
      `pageLoad` what the following waitForPageLoad's wait does. */
  function NavigateToUrl(url: Option<string>, navigate: Step<()>, pageLoad: Step<()>): Outcome<()> {
    if url.None? || Trim(url.value) == "" then
      Err(Framework(Navigation, "URL is null or empty", None))
    else
      match navigate
      case Done(_) =>
        // whatever waitForPageLoad(pageLoad) throws is caught and ignored
        Ok(())
      case Raised(UnhandledAlert, m) =>
        Err(Framework(Navigation, "Unhandled alert during navigation: " + url.value, Some(Foreign(UnhandledAlert, m))))
      case Raised(DriverTimeout, m) =>
        Err(Framework(Timeout, "Navigation timeout: " + url.value, Some(Foreign(DriverTimeout, m))))
      case Raised(f, m) =>
        Err(Framework(Navigation, "Cannot navigate to URL: " + url.value, Some(Foreign(f, m))))
  }

  // =====================================================================
  // Properties

  /** Every operation that is retried three times and then passed through the
      catch arms returns the result of its first successful attempt, or, when
      all three attempts fail, throws an ElementNotFoundException that wraps
      the retry's plain FrameworkException: the arms for TimeoutException and
      ElementNotFoundException never see that exception, so a TimeoutException
      never surfaces. */
  lemma RetriedAndSurfaced<T>(op: Operation<T>, operationName: string, message: string)
    ensures var r := Surface(Retry(op, operationName, MAX_RETRIES).result, message);
      && (r.Ok? ==> exists k :: 1 <= k <= MAX_RETRIES && op.attempt(k) == r
                      && forall j :: 1 <= j < k ==> op.attempt(j).Err?)
      && (r.Err? ==>
            && (forall j :: 1 <= j <= MAX_RETRIES ==> op.attempt(j).Err?)
            && r.error == Framework(ElementNotFound, message,
                 Some(Exhausted(MAX_RETRIES, op.elapsedMs, operationName, Some(op.attempt(MAX_RETRIES).error))))
            && !IsA(r.error, Timeout))
  {
    RetryShape(op, operationName, MAX_RETRIES);
    var run := Retry(op, operationName, MAX_RETRIES);
    if run.result.Ok? {
      assert op.attempt(run.invocations) == Surface(run.result, message);
    }
  }

  /** Inside each wait attempt a driver timeout becomes TimeoutException and a
      missing element ElementNotFoundException; these, like every other driver
      failure, are retried: the first probe that returns an element decides
      the result, after as many probes as it took. */
  lemma WaitRetriesDriverFailures(condition: string, locator: Locator, w: Wait, k: int, name: string)
    requires 1 <= k <= MAX_RETRIES && w.probe(k).Done?
    requires forall j :: 1 <= j < k ==> w.probe(j).Raised?
    ensures Retry(WaitOp(condition, locator, w), name, MAX_RETRIES)
            == Run(Ok(w.probe(k).value), k, Waits(1, k))
    ensures forall j :: 1 <= j < k && w.probe(j).fault == DriverTimeout ==>
              IsA(WaitOp(condition, locator, w).attempt(j).error, Timeout)
    ensures forall j :: 1 <= j < k && w.probe(j).fault == NoSuchElement ==>
              IsA(WaitOp(condition, locator, w).attempt(j).error, ElementNotFound)
  {
    RetryReturnsFirstSuccess(WaitOp(condition, locator, w), name, MAX_RETRIES, k);
  }

  /** waitForElementToBeVisible either returns an element some probe found or
      throws ElementNotFoundException, never TimeoutException, even when every
      probe timed out; then the exhaustion's cause is the third attempt's
      TimeoutException. */
  lemma VisibleSurfacesNotFound(locator: Locator, w: Wait)
    ensures var r := WaitForElementToBeVisible(locator, w);
      && (r.Ok? ==> exists k :: 1 <= k <= MAX_RETRIES && w.probe(k) == Done(r.value))
      && (r.Err? ==>
            && r.error.Framework? && r.error.kind == ElementNotFound
            && r.error.message == "Error waiting for element visibility: " + locator
            && r.error.cause == Some(Exhausted(MAX_RETRIES, w.elapsedMs, VisibleName(locator),
                 Some(WaitAttempt("visible", locator, w.probe(MAX_RETRIES)).error))))
      && (r.Err? && w.probe(MAX_RETRIES).Raised? && w.probe(MAX_RETRIES).fault == DriverTimeout ==>
            IsA(r.error.cause.value.cause.value, Timeout))
  {
    RetriedAndSurfaced(WaitOp("visible", locator, w), VisibleName(locator), "Error waiting for element visibility: " + locator);
  }

  /** waitForElementToBeClickable either returns an element some probe found
      or throws ElementNotFoundException, never TimeoutException. */
  lemma ClickableSurfacesNotFound(locator: Locator, w: Wait)
    ensures var r := WaitForElementToBeClickable(locator, w);
      && (r.Ok? ==> exists k :: 1 <= k <= MAX_RETRIES && w.probe(k) == Done(r.value))
      && (r.Err? ==>
            && r.error.Framework? && r.error.kind == ElementNotFound
            && r.error.message == "Error waiting for element clickability: " + locator
            && r.error.cause == Some(Exhausted(MAX_RETRIES, w.elapsedMs, ClickableName(locator),
                 Some(WaitAttempt("clickable", locator, w.probe(MAX_RETRIES)).error))))
  {
    RetriedAndSurfaced(WaitOp("clickable", locator, w), ClickableName(locator), "Error waiting for element clickability: " + locator);
  }

  /** clickElement returns normally exactly when some outer attempt found the
      element clickable and clicked it without an exception; otherwise it
      throws ElementNotFoundException, never TimeoutException. */
  lemma ClickSurfacesNotFound(locator: Locator, env: ClickEnv)
    ensures var r := ClickElement(locator, env);
      && (r.Ok? <==> exists k :: (1 <= k <= MAX_RETRIES
             && WaitForElementToBeClickable(locator, env.clickable(k)).Ok? && env.click(k).Done?))
      && (r.Err? ==>
            && r.error.Framework? && r.error.kind == ElementNotFound
            && r.error.message == "Cannot click element - unexpected error: " + locator
            && r.error.cause == Some(Exhausted(MAX_RETRIES, env.elapsedMs, ClickName(locator),
                 Some(ClickAttempt(locator, env, MAX_RETRIES).error))))
  {
    RetriedAndSurfaced(ClickOp(locator, env), ClickName(locator), "Cannot click element - unexpected error: " + locator);
  }

  lemma {:induction false} ClickCountsBound(locator: Locator, env: ClickEnv, n: int)
    ensures ClickCalls(locator, env, n) <= (if n >= 0 then n else 0)
    ensures ClickabilityProbes(locator, env, n) <= MAX_RETRIES * (if n >= 0 then n else 0)
    decreases n
  {
    if n > 0 {
      ClickCountsBound(locator, env, n - 1);
      RetryBounds(WaitOp("clickable", locator, env.clickable(n)), ClickableName(locator), MAX_RETRIES);
    }
  }

  /** The counters above follow ClickAttempt itself: outer attempt k observes
      exactly the clickability probes its wait retry invokes (the ones
      ClickabilityProbes adds up), and consults element.click() only when
      that wait returned an element (the attempts ClickCalls counts). */
  lemma ClickAttemptObserves(locator: Locator, env: ClickEnv, env': ClickEnv, k: int)
    requires env'.clickable(k).elapsedMs == env.clickable(k).elapsedMs
    requires forall j :: 1 <= j <= Retry(WaitOp("clickable", locator, env.clickable(k)), ClickableName(locator), MAX_RETRIES).invocations ==>
      env'.clickable(k).probe(j) == env.clickable(k).probe(j)
    requires WaitForElementToBeClickable(locator, env.clickable(k)).Ok? ==> env'.click(k) == env.click(k)
    ensures ClickAttempt(locator, env', k) == ClickAttempt(locator, env, k)
    ensures WaitForElementToBeClickable(locator, env'.clickable(k)) == WaitForElementToBeClickable(locator, env.clickable(k))
  {
    var op := WaitOp("clickable", locator, env.clickable(k));
    var op' := WaitOp("clickable", locator, env'.clickable(k));
    forall j | 1 <= j <= Retry(op, ClickableName(locator), MAX_RETRIES).invocations
      ensures op.attempt(j) == op'.attempt(j)
    {
    }
    RetryPrefixCongruence(op, op', ClickableName(locator), MAX_RETRIES);
  }

  /** clickElement nests one retry inside another: over its at most three
      outer attempts it makes at most 3 x 3 = 9 clickability probes and at
      most three element.click() calls. */
  lemma ClickEffortBound(locator: Locator, env: ClickEnv)
    ensures var n := Retry(ClickOp(locator, env), ClickName(locator), MAX_RETRIES).invocations;
      && n <= MAX_RETRIES
      && ClickCalls(locator, env, n) <= n
      && ClickabilityProbes(locator, env, n) <= MAX_RETRIES * MAX_RETRIES
  {
    var n := Retry(ClickOp(locator, env), ClickName(locator), MAX_RETRIES).invocations;
    RetryBounds(ClickOp(locator, env), ClickName(locator), MAX_RETRIES);
    ClickCountsBound(locator, env, n);
  }

  /** typeText returns normally or throws ElementNotFoundException, never
      TimeoutException. */
  lemma TypeSurfacesNotFound(locator: Locator, text: Option<string>, env: TypeEnv)
    ensures var r := TypeText(locator, text, env);
      && (r.Ok? ==> exists k :: 1 <= k <= MAX_RETRIES && TypeAttempt(locator, text, env, k).Ok?)
      && (r.Err? ==>
            && r.error.Framework? && r.error.kind == ElementNotFound
            && r.error.message == "Cannot type text - unexpected error: " + locator
            && r.error.cause == Some(Exhausted(MAX_RETRIES, env.elapsedMs, TypeName(locator),
                 Some(TypeAttempt(locator, text, env, MAX_RETRIES).error))))
  {
    RetriedAndSurfaced(TypeOp(locator, text, env), TypeName(locator), "Cannot type text - unexpected error: " + locator);
  }

  /** A failing clear() is swallowed: typeText does the same whatever clear()
      does. And an empty text is not rejected: any two non-null texts are
      typed alike. */
  lemma TypeTextIgnoresClearAndEmptiness(locator: Locator, text: string, other: string, env: TypeEnv, clear: int -> Step<()>)
    ensures TypeText(locator, Some(text), env) == TypeText(locator, Some(other), env.(clear := clear))
  {
    var env' := env.(clear := clear);
    forall k | 1 <= k <= MAX_RETRIES
      ensures TypeOp(locator, Some(text), env).attempt(k) == TypeOp(locator, Some(other), env').attempt(k)
    {
    }
    RetryCongruence(TypeOp(locator, Some(text), env), TypeOp(locator, Some(other), env'), TypeName(locator), MAX_RETRIES);
  }

  /** A null text is not rejected up front either; but whenever sendKeys
      returns, the following text.length() throws NullPointerException, so no
      attempt can succeed and typeText throws ElementNotFoundException. */
  lemma TypeNullTextFails(locator: Locator, env: TypeEnv)
    ensures TypeText(locator, None, env).Err?
    ensures IsA(TypeText(locator, None, env).error, ElementNotFound)
  {
    TypeSurfacesNotFound(locator, None, env);
  }

  /** getElementText returns the text of some attempt or throws
      ElementNotFoundException, never TimeoutException. */
  lemma GetTextSurfacesNotFound(locator: Locator, env: TextEnv)
    ensures var r := GetElementText(locator, env);
      && (r.Ok? ==> exists k :: 1 <= k <= MAX_RETRIES && env.getText(k) == Done(r.value)
                      && WaitForElementToBeVisible(locator, env.visible(k)).Ok?)
      && (r.Err? ==>
            && r.error.Framework? && r.error.kind == ElementNotFound
            && r.error.message == "Cannot get text - unexpected error: " + locator
            && r.error.cause == Some(Exhausted(MAX_RETRIES, env.elapsedMs, GetTextName(locator),
                 Some(GetTextAttempt(locator, env, MAX_RETRIES).error))))
  {
    RetriedAndSurfaced(GetTextOp(locator, env), GetTextName(locator), "Cannot get text - unexpected error: " + locator);
  }

  /** isElementDisplayed is true exactly when the visibility wait found the
      element and isDisplayed() returned true; in particular it is false
      whenever every visibility probe failed. */
  lemma DisplayedIff(locator: Locator, w: Wait, displayed: Step<bool>)
    ensures IsElementDisplayed(locator, w, displayed) <==>
      (exists k :: 1 <= k <= MAX_RETRIES && w.probe(k).Done?) && displayed == Done(true)
  {
    VisibleSurfacesNotFound(locator, w);
    var run := Retry(WaitOp("visible", locator, w), VisibleName(locator), MAX_RETRIES);
    RetryShape(WaitOp("visible", locator, w), VisibleName(locator), MAX_RETRIES);
    if exists k :: 1 <= k <= MAX_RETRIES && w.probe(k).Done? {
      var k :| 1 <= k <= MAX_RETRIES && w.probe(k).Done?;
      assert WaitOp("visible", locator, w).attempt(k).Ok?;
    }
  }

  /** waitForPageLoad throws only the framework's TimeoutException, and only
      for a driver timeout; every other failure is swallowed. */
  lemma PageLoadOutcome(load: Step<()>)
    ensures WaitForPageLoad(load).Err? <==> load.Raised? && load.fault == DriverTimeout
    ensures WaitForPageLoad(load).Err? ==> IsA(WaitForPageLoad(load).error, Timeout)
  {
  }

  /** navigateToUrl: a null or blank URL throws NavigationException before any
      driver call; a page-load failure is swallowed; a driver timeout becomes
      TimeoutException; every other driver failure, an unhandled alert
      included, becomes NavigationException. */
  lemma NavigateOutcome(url: Option<string>, navigate: Step<()>, pageLoad: Step<()>, navigate': Step<()>, pageLoad': Step<()>)
    ensures url.None? || AllTrimmable(url.value) ==>
      NavigateToUrl(url, navigate, pageLoad) == NavigateToUrl(url, navigate', pageLoad')
      == Err(Framework(Navigation, "URL is null or empty", None))
    ensures url.Some? && !AllTrimmable(url.value) ==>
      && (NavigateToUrl(url, navigate, pageLoad).Ok? <==> navigate.Done?)
      && NavigateToUrl(url, navigate, pageLoad) == NavigateToUrl(url, navigate, pageLoad')
      && (navigate.Raised? && navigate.fault == DriverTimeout ==> IsA(NavigateToUrl(url, navigate, pageLoad).error, Timeout))
      && (navigate.Raised? && navigate.fault != DriverTimeout ==> IsA(NavigateToUrl(url, navigate, pageLoad).error, Navigation))
  {
    if url.Some? {
      TrimIsEmptyIff(url.value);
    }
  }
}
