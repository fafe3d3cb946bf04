# Sai Automation Framework: retry and exception-mapping core in Dafny

This project models the core of a Selenium page-object test framework:

- `RetryUtils.retryOperation`: runs an operation up to N times and waits an exponentially growing, capped number of seconds between failures. When every attempt fails it throws a `FrameworkException` whose cause is the last attempt's exception.
- The `BasePage` operations. The five element operations each wrap a few driver calls in a three-attempt retry and turn driver exceptions into `ElementNotFoundException` or `TimeoutException`. `isElementDisplayed` reuses the visibility wait. `navigateToUrl` and `waitForPageLoad` are not retried and map driver failures to `NavigationException` and `TimeoutException`. The constructor lets `ConfigManager.getTimeout`'s `ConfigurationException` escape.
- The `LoginPage` actions built on those operations.
- The `BrowserType` enum and its lenient parser.
- The `ConfigManager` property table and its getters.

The modules are:

| file | module | models |
|---|---|---|
| `wrappers.dfy` | `Wrappers` | `Option` (Java `null`) |
| `exceptions.dfy` | `Exceptions` | the exception hierarchy, `instanceof`, "returns or throws" (`Outcome`) |
| `text.dfy` | `Text` | the `String`/`Integer` operations the code relies on: `%d`, `Integer.parseInt`, `trim`, `equalsIgnoreCase`, `contains` |
| `retry_utils.dfy` | `RetryUtils` | `retryOperation` (both overloads), `calculateWaitTime` |
| `config_manager.dfy` | `Config` | `ConfigManager` |
| `browser_type.dfy` | `Driver` | `BrowserType` |
| `base_page.dfy` | `BasePage` | `BasePage` |
| `login_page.dfy` | `LoginPage` | `LoginPage` |

The model rests on four choices:

- **The retried operation is an oracle.** `attempt(k)` is what the operation returns or throws on its k-th run.
- **`RetryOperation` is imperative.** It is a method with the source's loop, proved equal to the recursive definition `Retry`.
- **Waits are recorded.** The method returns the sequence of waits it requested instead of sleeping.
- **Driver calls are per-attempt outcomes.** Each Selenium call is a `Step` that either returns a value or throws a driver exception, given per attempt. The page operations are functions that compose those outcomes with `Retry`.

`ConfigManager` is a class whose `properties` map is filled by its constructor. `setDefaultProperties` updates that map in place.

The model follows the code where the code and its comments disagree:

- **Wait cap.** The comments of `calculateWaitTime` promise a cap of 4 seconds. The code caps at 8, so the schedule is 1, 2, 4, 8, 8, ….
- **Non-positive attempt count.** `retryOperation` with `maxRetries <= 0` has no separate usage error. It runs nothing and throws the same `FrameworkException`, with no cause and "Unknown error" as the last error.

## Model

| member | source | states |
|---|---|---|
| RetryUtils.RetryOperation | src/main/java/org/epam/utils/RetryUtils.java:86-184 | the loop (attempts, overwritten last exception, early return, waits between attempts, exhaustion exception) yields exactly the result, invocation count and wait list of the reference definition `Retry` |
| RetryUtils.Retry | src/main/java/org/epam/utils/RetryUtils.java:86-184 | the reference definition of one retryOperation call; its closed form is stated by RetryShape, RetryReturnsFirstSuccess, RetryExhaustion and RetryNonPositive, and RetryOperation is proved equal to it |
| RetryUtils.RetryFrom | src/main/java/org/epam/utils/RetryUtils.java:100-160 | one loop iteration per recursive step (early return, overwritten last exception, wait when another attempt follows); stated by RetryFromShape |
| RetryUtils.Exhausted | src/main/java/org/epam/utils/RetryUtils.java:163-183 | the exhaustion exception is a plain FrameworkException, an instance of no subclass, whose cause is the last exception |
| RetryUtils.CalculateWaitTime | src/main/java/org/epam/utils/RetryUtils.java:198-206 | calculateWaitTime; its schedule and bounds are stated by WaitTimeSchedule and WaitTimeMonotone |
| RetryUtils.RetryOperationDefault | src/main/java/org/epam/utils/RetryUtils.java:66-68 | the two-argument overload behaves as `Retry` with 3 attempts |
| RetryUtils.WaitTimeSchedule | src/main/java/org/epam/utils/RetryUtils.java:198-206 | the wait after failure k is 2^(k-1) seconds up to k = 4 and 8 from then on, always within [1, 8] |
| RetryUtils.WaitTimeMonotone | src/main/java/org/epam/utils/RetryUtils.java:198-206 | a later failure never waits less than an earlier one |
| RetryUtils.WaitsLength | src/main/java/org/epam/utils/RetryUtils.java:144-158 | the waits requested between attempts lo..hi-1 are hi-lo in number, the i-th being calculateWaitTime(lo+i) |
| RetryUtils.PowerMonotone | src/main/java/org/epam/utils/RetryUtils.java:201 | the integer power used for 2^(k-1) is at least 1 and monotone in the exponent |
| RetryUtils.RetryFromShape | src/main/java/org/epam/utils/RetryUtils.java:100-183 | from any attempt on: the first success is returned and all earlier attempts failed, or all remaining attempts failed and the exhaustion exception carries the final one; waits follow the schedule |
| RetryUtils.RetryShape | src/main/java/org/epam/utils/RetryUtils.java:100-183 | a call returns the first successful attempt's result after that many invocations, or throws after max(N, 0) failed invocations with the last exception as cause; the waits are exactly those after failed attempts 1..invocations-1 |
| RetryUtils.RetryReturnsFirstSuccess | src/main/java/org/epam/utils/RetryUtils.java:124-128 | if attempt k is the first to succeed, its value is returned after exactly k invocations and k-1 waits, with no wait after the success |
| RetryUtils.RetryExhaustion | src/main/java/org/epam/utils/RetryUtils.java:160-183 | when all N >= 1 attempts fail: N invocations, N-1 waits, and a plain FrameworkException (not a Timeout or ElementNotFound one) whose cause is the final attempt's exception |
| RetryUtils.RetryNonPositive | src/main/java/org/epam/utils/RetryUtils.java:100-183 | with maxRetries <= 0 nothing runs, nothing waits, and a FrameworkException with no cause and "Unknown error" is thrown |
| RetryUtils.RetryKeepsOnlyLastError | src/main/java/org/epam/utils/RetryUtils.java:132 | an earlier attempt's exception that differs from the final one is never the cause |
| RetryUtils.DefaultRetryWaits | src/main/java/org/epam/utils/RetryUtils.java:44-46 | with the default of 3 attempts all failing, exactly 3 invocations and waits of 1 then 2 seconds |
| RetryUtils.RetryBounds | src/main/java/org/epam/utils/RetryUtils.java:100-158 | at most max(N, 0) invocations, one wait fewer than invocations, each wait within [1, 8] seconds |
| RetryUtils.RetryFromCongruence | src/main/java/org/epam/utils/RetryUtils.java:100-132 | the remainder of a retry depends only on the outcomes of the remaining attempts |
| RetryUtils.RetryCongruence | src/main/java/org/epam/utils/RetryUtils.java:100-132 | a retry observes its operation only through the outcomes of attempts 1..N |
| RetryUtils.RetryFromPrefixCongruence | src/main/java/org/epam/utils/RetryUtils.java:100-132 | the remainder of a retry depends only on the attempts it actually invokes |
| RetryUtils.RetryPrefixCongruence | src/main/java/org/epam/utils/RetryUtils.java:100-132 | a retry observes its operation only through attempts 1..invocations |
| Exceptions.PlainFrameworkEscapesSubclassArms | src/main/java/org/epam/exceptions/TimeoutException.java:13 | a plain FrameworkException is no instance of any subclass, so subclass catch arms never catch it |
| Text.ParseInt | src/main/java/org/epam/config/ConfigManager.java:74 | Integer.parseInt yields only 32-bit values and rejects the empty string |
| Text.ParseIntRoundTrip | src/main/java/org/epam/config/ConfigManager.java:74 | Integer.parseInt reads back every int rendered in decimal |
| Text.ParseIntAccepts | src/main/java/org/epam/config/ConfigManager.java:74 | whatever Integer.parseInt accepts is an optional sign then ASCII digits denoting the returned value |
| Text.ParseIntExamples | src/main/java/org/epam/config/ConfigManager.java:74 | "+10" and "010" read as 10, "-7" as -7; " 10", "+" and 2147483648 are rejected |
| Text.IntToString | src/main/java/org/epam/utils/RetryUtils.java:163-168 | %d rendering of an int; read back by ParseIntRoundTrip and DigitsValueOfNatToString |
| Text.DigitsValueOfNatToString | src/main/java/org/epam/utils/RetryUtils.java:163-168 | the decimal rendering used by %d denotes the number it renders |
| Text.TrimIsEmptyIff | src/main/java/org/epam/pages/BasePage.java:337 | `s.trim().isEmpty()` holds exactly when every character is at or below U+0020 |
| Text.Trim | src/main/java/org/epam/pages/BasePage.java:337 | String.trim; when it leaves nothing is stated by TrimIsEmptyIff |
| Text.TrimStartEmptyIff | src/main/java/org/epam/pages/LoginPage.java:82 | stripping leading blanks leaves nothing exactly for an all-blank string, and otherwise stops at a non-blank character |
| Text.TrimEndKeepsFirst | src/main/java/org/epam/pages/LoginPage.java:82 | stripping trailing blanks keeps a non-blank first character |
| Text.ContainsIff | src/main/java/org/epam/pages/LoginPage.java:241 | String.contains holds exactly when the part occurs at some index |
| Text.Contains | src/main/java/org/epam/pages/LoginPage.java:241 | String.contains, trying each start from the left; stated by ContainsIff |
| Text.EqualsIgnoreCase | src/main/java/org/epam/driver/BrowserType.java:54 | String.equalsIgnoreCase on ASCII; used by FromStringIgnoresCase, NamesDistinct and HeadlessIff |
| Config.ConfigManager.Load | src/main/java/org/epam/config/ConfigManager.java:27-39 | the table is the loaded file, or exactly the four defaults when the file cannot be read |
| Config.ConfigManager.SetDefaultProperties | src/main/java/org/epam/config/ConfigManager.java:41-48 | the four defaults override their keys and every other entry is kept |
| Config.ConfigManager.GetProperty | src/main/java/org/epam/config/ConfigManager.java:50-58 | the stored value for a present key, "" for a missing one |
| Config.ConfigManager.GetBrowser | src/main/java/org/epam/config/ConfigManager.java:66-70 | the "browser" system property when set, the configured value otherwise |
| Config.ConfigManager.GetBaseUrl | src/main/java/org/epam/config/ConfigManager.java:60-64 | the stored "base.url" value, "" when missing |
| Config.ConfigManager.GetTimeout | src/main/java/org/epam/config/ConfigManager.java:72-81 | getTimeout; stated by TimeoutReadsBack and TimeoutFailure |
| Config.ConfigManager.IsHeadless | src/main/java/org/epam/config/ConfigManager.java:83-88 | isHeadless; stated by HeadlessIff |
| Config.TimeoutReadsBack | src/main/java/org/epam/config/ConfigManager.java:72-76 | getTimeout returns exactly the int a well-formed "timeout" entry spells |
| Config.TimeoutFailure | src/main/java/org/epam/config/ConfigManager.java:72-81 | a missing or unparsable "timeout" entry throws ConfigurationException with its fixed message |
| Config.HeadlessIff | src/main/java/org/epam/config/ConfigManager.java:83-88 | isHeadless is true exactly for "true" in any case; a missing key gives false |
| Config.DefaultsReadBack | src/main/java/org/epam/config/ConfigManager.java:41-88 | with the defaults the getters give https://www.saucedemo.com, chrome, 10 and false |
| Driver.FirstMatch | src/main/java/org/epam/driver/BrowserType.java:53-57 | the loop over values() returns a listed browser whose name matches ignoring case, or finds that none matches |
| Driver.BrowserName | src/main/java/org/epam/driver/BrowserType.java:16-37 | getBrowserName: chrome, firefox, edge; injectivity stated by NamesDistinct and FromStringRoundTrip |
| Driver.FromString | src/main/java/org/epam/driver/BrowserType.java:48-61 | null gives CHROME; otherwise a browser whose name matches ignoring case, or CHROME when none does |
| Driver.NamesDistinct | src/main/java/org/epam/driver/BrowserType.java:17-19 | no two browsers' names are equal, even ignoring case |
| Driver.FromStringRoundTrip | src/main/java/org/epam/driver/BrowserType.java:35-37 | fromString(t.getBrowserName()) == t for every browser |
| Driver.FromStringIgnoresCase | src/main/java/org/epam/driver/BrowserType.java:53-57 | any capitalisation of a browser's name selects that browser |
| Driver.FromStringDefaults | src/main/java/org/epam/driver/BrowserType.java:49-60 | null, "", any unmatched name and the untrimmed " edge" give CHROME |
| BasePage.Page.constructor | src/main/java/org/epam/pages/BasePage.java:45-50 | a page holds the driver and wait timeout it was built with |
| BasePage.NewPage | src/main/java/org/epam/pages/BasePage.java:45-50 | a page is built exactly when the configured timeout parses, with that timeout; otherwise getTimeout's ConfigurationException escapes |
| BasePage.Surface | src/main/java/org/epam/pages/BasePage.java:83-91 | success passes through; TimeoutException and ElementNotFoundException are rethrown unchanged; anything else becomes ElementNotFoundException with the given message and the original as cause |
| BasePage.RetriedAndSurfaced | src/main/java/org/epam/pages/BasePage.java:151-189 | a three-attempt operation behind the catch arms returns its first success, or throws ElementNotFoundException wrapping the exhaustion exception, never TimeoutException |
| BasePage.WaitAttempt | src/main/java/org/epam/pages/BasePage.java:69-77 | one wait attempt: driver timeout to TimeoutException, missing element to ElementNotFoundException, others unchanged; stated by WaitRetriesDriverFailures |
| BasePage.WaitForElementToBeVisible | src/main/java/org/epam/pages/BasePage.java:64-93 | waitForElementToBeVisible; stated by VisibleSurfacesNotFound and WaitRetriesDriverFailures |
| BasePage.WaitForElementToBeClickable | src/main/java/org/epam/pages/BasePage.java:109-138 | waitForElementToBeClickable; stated by ClickableSurfacesNotFound |
| BasePage.ClickAttempt | src/main/java/org/epam/pages/BasePage.java:156-175 | one clickElement attempt: nested clickability wait then click with its exception translations; stated by ClickSurfacesNotFound and ClickAttemptObserves |
| BasePage.ClickElement | src/main/java/org/epam/pages/BasePage.java:151-189 | clickElement; stated by ClickSurfacesNotFound and ClickEffortBound |
| BasePage.TypeAttempt | src/main/java/org/epam/pages/BasePage.java:213-242 | one typeText attempt: visibility wait, clear ignored, sendKeys with its translations, NullPointerException for a null text; stated by TypeTextIgnoresClearAndEmptiness and TypeNullTextFails |
| BasePage.TypeText | src/main/java/org/epam/pages/BasePage.java:205-256 | typeText; stated by TypeSurfacesNotFound, TypeTextIgnoresClearAndEmptiness and TypeNullTextFails |
| BasePage.GetTextAttempt | src/main/java/org/epam/pages/BasePage.java:270-286 | one getElementText attempt: visibility wait then getText with its translations; stated by GetTextSurfacesNotFound |
| BasePage.GetElementText | src/main/java/org/epam/pages/BasePage.java:265-300 | getElementText; stated by GetTextSurfacesNotFound |
| BasePage.IsElementDisplayed | src/main/java/org/epam/pages/BasePage.java:308-326 | isElementDisplayed; stated by DisplayedIff |
| BasePage.WaitForPageLoad | src/main/java/org/epam/pages/BasePage.java:394-415 | waitForPageLoad; stated by PageLoadOutcome |
| BasePage.NavigateToUrl | src/main/java/org/epam/pages/BasePage.java:334-368 | navigateToUrl; stated by NavigateOutcome |
| BasePage.WaitRetriesDriverFailures | src/main/java/org/epam/pages/BasePage.java:64-81 | inside a wait attempt a driver timeout becomes TimeoutException and a missing element ElementNotFoundException; all are retried and the first found element is returned |
| BasePage.VisibleSurfacesNotFound | src/main/java/org/epam/pages/BasePage.java:64-93 | waitForElementToBeVisible returns a probed element or throws ElementNotFoundException with its message, whose cause chain ends in the last attempt's exception |
| BasePage.ClickableSurfacesNotFound | src/main/java/org/epam/pages/BasePage.java:109-138 | waitForElementToBeClickable returns a probed element or throws ElementNotFoundException with its message |
| BasePage.ClickSurfacesNotFound | src/main/java/org/epam/pages/BasePage.java:151-189 | clickElement succeeds exactly when some attempt found the element clickable and clicked it; otherwise ElementNotFoundException |
| BasePage.ClickCountsBound | src/main/java/org/epam/pages/BasePage.java:155-160 | n outer attempts make at most n clicks and at most 3n clickability probes |
| BasePage.ClickAttemptObserves | src/main/java/org/epam/pages/BasePage.java:156-160 | outer click attempt k observes exactly the clickability probes its wait invokes and calls click() only when that wait returned an element, which is what ClickabilityProbes and ClickCalls count |
| BasePage.ClickEffortBound | src/main/java/org/epam/pages/BasePage.java:155-160 | the nested retries of clickElement make at most 9 clickability probes and 3 clicks |
| BasePage.TypeSurfacesNotFound | src/main/java/org/epam/pages/BasePage.java:205-256 | typeText returns normally or throws ElementNotFoundException, never TimeoutException |
| BasePage.TypeTextIgnoresClearAndEmptiness | src/main/java/org/epam/pages/BasePage.java:209-226 | a failing clear() changes nothing, and any two non-null texts, the empty one included, are handled alike |
| BasePage.TypeNullTextFails | src/main/java/org/epam/pages/BasePage.java:226-227 | with a null text no attempt can succeed (text.length() throws once sendKeys returns), so typeText throws ElementNotFoundException |
| BasePage.GetTextSurfacesNotFound | src/main/java/org/epam/pages/BasePage.java:265-300 | getElementText returns the text of an attempt whose wait succeeded, or throws ElementNotFoundException |
| BasePage.DisplayedIff | src/main/java/org/epam/pages/BasePage.java:308-326 | isElementDisplayed is true exactly when a visibility probe found the element and isDisplayed() returned true; it never throws |
| BasePage.PageLoadOutcome | src/main/java/org/epam/pages/BasePage.java:394-415 | waitForPageLoad throws TimeoutException exactly on a driver timeout and swallows every other failure |
| BasePage.NavigateOutcome | src/main/java/org/epam/pages/BasePage.java:334-368 | a null or blank URL throws NavigationException regardless of the driver; otherwise success exactly when navigation returns, whatever the page load does; driver timeout gives TimeoutException, any other failure NavigationException |
| LoginPage.RethrowAsNotFound | src/main/java/org/epam/pages/LoginPage.java:94-103 | ElementNotFoundException passes unchanged; any other exception becomes ElementNotFoundException with message prefix + its message (for login, "Login operation failed: ") and the original as cause |
| LoginPage.LoginSteps | src/main/java/org/epam/pages/LoginPage.java:89-93 | enterUsername, enterPassword, clickLoginButton in order; stated by LoginStepsInOrder |
| LoginPage.Login | src/main/java/org/epam/pages/LoginPage.java:79-104 | login; stated by UsernameCheckedFirst, PasswordChecked, LoginNeverRewraps and LoginFailsOnlyWithNotFound |
| LoginPage.IsErrorMessageDisplayed | src/main/java/org/epam/pages/LoginPage.java:147-152 | isErrorMessageDisplayed; stated by ClearOnlyWhenShown (via DisplayedIff) |
| LoginPage.ClearErrorMessage | src/main/java/org/epam/pages/LoginPage.java:160-181 | clearErrorMessage; stated by ClearOnlyWhenShown |
| LoginPage.NavigateToLoginPage | src/main/java/org/epam/pages/LoginPage.java:188-198 | navigateToLoginPage; stated by NavigateToLoginPageOutcome and LoginPageNavigationDiffers |
| LoginPage.IsLoginSuccessful | src/main/java/org/epam/pages/LoginPage.java:239-244 | true exactly when "inventory" occurs in the current URL |
| LoginPage.LoginSuccessExamples | src/main/java/org/epam/pages/LoginPage.java:239-244 | any URL with "inventory" inside counts as logged in; the login page URL does not |
| LoginPage.UsernameCheckedFirst | src/main/java/org/epam/pages/LoginPage.java:82-84 | a null or blank username throws ElementNotFoundException first, whatever the password and the page |
| LoginPage.PasswordChecked | src/main/java/org/epam/pages/LoginPage.java:85-93 | a null or empty password is rejected without touching the page; any other password, blank ones included, goes on to the three steps |
| LoginPage.LoginNeverRewraps | src/main/java/org/epam/pages/LoginPage.java:89-103 | the steps only throw ElementNotFoundException, so on valid input login is exactly its three steps |
| LoginPage.LoginStepsInOrder | src/main/java/org/epam/pages/LoginPage.java:43-70 | username, password, then button; a failed step makes later steps irrelevant; success needs all three |
| LoginPage.LoginFailsOnlyWithNotFound | src/main/java/org/epam/pages/LoginPage.java:79-104 | login throws nothing but ElementNotFoundException |
| LoginPage.ClearOnlyWhenShown | src/main/java/org/epam/pages/LoginPage.java:147-181 | with no error message shown nothing happens; otherwise it is exactly a click on the error button |
| LoginPage.NavigateToLoginPageOutcome | src/main/java/org/epam/pages/LoginPage.java:188-198 | success exactly when driver.get returns and the page load does not time out; every failure is NavigationException |
| LoginPage.LoginPageNavigationDiffers | src/main/java/org/epam/pages/LoginPage.java:188-198 | unlike navigateToUrl, a page-load timeout and a driver timeout both become NavigationException |

## Left out

- Logging, timestamps and thread names. The wall-clock duration in the exhaustion message is a given number (`Operation.elapsedMs`).
- `Thread.sleep` and interrupt handling in `waitBeforeRetry`. Only the requested wait lengths are recorded.
- `Math.pow` in floating point. The integer power 2^(k-1) is exact for every attempt that can occur, and the cap at 8 applies from k = 4 on.
- Java `Error`s and other `Throwable`s that are not `Exception`s. They would escape every catch arm.
- Integer overflow of the attempt counter at `maxRetries == Integer.MAX_VALUE`.
- Selenium itself: `WebDriver`, `WebDriverWait`, `ExpectedConditions` and the element calls. Each is an outcome per attempt (`Step`).
- The exact text of a driver exception, and of the `NullPointerException` that a null text causes in `typeText`. The model gives that one an empty message.
- The elements a wait returns, which are opaque handles.
- BasePage.NewPage: `DriverManager.getDriver()` is an opaque handle parameter. `DriverManager` and `BrowserFactory` are not part of this model.
- Reading the configuration file. Its contents, or its absence, are the constructor's argument.
- `System.getProperty` is a parameter of `GetBrowser`.
- ConfigManager's `properties` is a static table in the source. Here it is the field of one object.
- Case-insensitive comparison is ASCII only. This covers `equalsIgnoreCase` and `Boolean.parseBoolean`.
- `Integer.parseInt` is modelled for ASCII digits only.
- `String.trim` is modelled on `char` values.
- `BasePage.getPageTitle` and `getCurrentUrl` read the driver. The current URL is the parameter of `IsLoginSuccessful`.
- `LoginPage.getErrorMessage`, `isLoginPageDisplayed` and `getCurrentPageUrl` are one-line compositions of the modelled operations and are not modelled.
- `LoginPage.navigateToBaseUrl`, with its own blank-URL check and catch arms, is not modelled.
- `ProductsPage`, `CartPage` and `CheckoutPage` are not modelled.
- Screenshot, report and logging utilities are not modelled.
- Tests and step definitions are not modelled.
