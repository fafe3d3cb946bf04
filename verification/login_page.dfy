/**
 LoginPage: the saucedemo login form. Its actions are BasePage operations on
 fixed locators, with input checks in front and one more layer of catch arms
 around them.
 */
module LoginPage {
  import opened Wrappers
  import opened Exceptions
  import opened Text
  import opened BasePage

  const LOGIN_PAGE_URL: string := "https://www.saucedemo.com"

  const USERNAME_FIELD: Locator := "By.id: user-name"
  const PASSWORD_FIELD: Locator := "By.id: password"
  const LOGIN_BUTTON: Locator := "By.id: login-button"
  const ERROR_MESSAGE: Locator := "By.cssSelector: [data-test='error']"
  const ERROR_BUTTON: Locator := "By.cssSelector: [data-test='error-button']"

  /** The driver behind one login: typing into the two fields and clicking
      the button. */
  datatype LoginEnv = LoginEnv(username: TypeEnv, password: TypeEnv, loginButton: ClickEnv)

  /** The catch arms `catch (ElementNotFoundException e) { throw e; }` then
      `catch (Exception e)`, which wraps with `prefix` + the message. */
  function RethrowAsNotFound<T>(r: Outcome<T>, prefix: string): (s: Outcome<T>)
    ensures s.Ok? <==> r.Ok?
    ensures s.Ok? ==> s == r
    ensures s.Err? ==> IsA(s.error, ElementNotFound)
    ensures s.Err? && IsA(r.error, ElementNotFound) ==> s == r
    ensures r.Err? && !IsA(r.error, ElementNotFound) ==>
      s == Err(Framework(ElementNotFound, prefix + r.error.message, Some(r.error)))
  {
    match r
    case Ok(v) => Ok(v)
    case Err(e) =>
      if IsA(e, ElementNotFound) then Err(e)
      else Err(Framework(ElementNotFound, prefix + e.message, Some(e)))
  }

  /** enterUsername, enterPassword, clickLoginButton in this order; the first
      exception ends the sequence. */
  function LoginSteps(username: string, password: string, env: LoginEnv): Outcome<()> {
    match TypeText(USERNAME_FIELD, Some(username), env.username)
    case Err(e) => Err(e)
    case Ok(_) =>
      match TypeText(PASSWORD_FIELD, Some(password), env.password)
      case Err(e) => Err(e)
      case Ok(_) => ClickElement(LOGIN_BUTTON, env.loginButton)
  }

  /** login: a null or blank username, then a null or empty password, are
      rejected before the page is touched; then the three steps run. */
  function Login(username: Option<string>, password: Option<string>, env: LoginEnv): Outcome<()> {
    if username.None? || Trim(username.value) == "" then
      Err(Framework(ElementNotFound, "Username cannot be null or empty", None))
    else if password.None? || password.value == "" then
      Err(Framework(ElementNotFound, "Password cannot be null or empty", None))
    else
      RethrowAsNotFound(LoginSteps(username.value, password.value, env), "Login operation failed: ")
  }

  /** isErrorMessageDisplayed. */
  function IsErrorMessageDisplayed(w: Wait, displayed: Step<bool>): bool {
    IsElementDisplayed(ERROR_MESSAGE, w, displayed)
  }

  /** clearErrorMessage: clicks the error button only while the error message
      shows. isErrorMessageDisplayed never throws. */
  function ClearErrorMessage(errorShown: Wait, displayed: Step<bool>, button: ClickEnv): Outcome<()> {
    if IsErrorMessageDisplayed(errorShown, displayed) then
      RethrowAsNotFound(ClickElement(ERROR_BUTTON, button), "Cannot clear error message: ")
    else
      Ok(())
  }

  /** navigateToLoginPage: `get` is what driver.get(LOGIN_PAGE_URL) does and
      `pageLoad` what the wait inside the following waitForPageLoad does.
      Every exception, the TimeoutException from waitForPageLoad included,
      becomes a NavigationException. */
  function NavigateToLoginPage(get: Step<()>, pageLoad: Step<()>): Outcome<()> {
    var failed := "Cannot navigate to login page: " + LOGIN_PAGE_URL;
    match get
    case Raised(f, m) => Err(Framework(Navigation, failed, Some(Foreign(f, m))))
    case Done(_) =>
      match WaitForPageLoad(pageLoad)
      case Ok(_) => Ok(())
      case Err(e) => Err(Framework(Navigation, failed, Some(e)))
  }

  /** isLoginSuccessful: the current URL contains "inventory". */
  function IsLoginSuccessful(currentUrl: string): (success: bool)
    ensures success <==> exists i :: OccursAt(currentUrl, "inventory", i)
  {
    ContainsIff(currentUrl, "inventory");
    Contains(currentUrl, "inventory")
  }

  // =====================================================================
  // Properties

  /** A null or blank username is rejected first, whatever the password and
      before any interaction with the page; a whitespace-only username is
      blank. */
  lemma UsernameCheckedFirst(username: Option<string>, password: Option<string>, env: LoginEnv, env': LoginEnv)
    requires username.None? || AllTrimmable(username.value)
    ensures Login(username, password, env) == Login(username, password, env')
      == Err(Framework(ElementNotFound, "Username cannot be null or empty", None))
  {
    if username.Some? {
      TrimIsEmptyIff(username.value);
    }
  }

  /** A null or empty password is rejected next, before any interaction with
      the page; the password is not trimmed, so one made only of blanks
      passes the check and is typed like any other. */
  lemma PasswordChecked(username: string, password: Option<string>, env: LoginEnv, env': LoginEnv)
    requires !AllTrimmable(username)
    ensures password.None? || password == Some("") ==>
      Login(Some(username), password, env) == Login(Some(username), password, env')
      == Err(Framework(ElementNotFound, "Password cannot be null or empty", None))
    ensures password.Some? && password.value != "" ==>
      Login(Some(username), password, env) == RethrowAsNotFound(LoginSteps(username, password.value, env), "Login operation failed: ")
  {
    TrimIsEmptyIff(username);
  }

  /** Every exception each step lets escape is already an
      ElementNotFoundException, so login's wrapping arm never fires: on valid
      input login behaves exactly as its three steps. */
  lemma LoginNeverRewraps(username: string, password: string, env: LoginEnv)
    requires !AllTrimmable(username) && password != ""
    ensures LoginSteps(username, password, env).Err? ==> IsA(LoginSteps(username, password, env).error, ElementNotFound)
    ensures Login(Some(username), Some(password), env) == LoginSteps(username, password, env)
  {
    TrimIsEmptyIff(username);
    TypeSurfacesNotFound(USERNAME_FIELD, Some(username), env.username);
    TypeSurfacesNotFound(PASSWORD_FIELD, Some(password), env.password);
    ClickSurfacesNotFound(LOGIN_BUTTON, env.loginButton);
  }

  /** The steps run in order and a failure stops the later ones: when typing
      the username fails, neither the password field nor the button is used;
      when typing the password fails, the button is not used; login succeeds
      only when all three succeed. */
  lemma LoginStepsInOrder(username: string, password: string, env: LoginEnv, password': TypeEnv, button': ClickEnv)
    ensures TypeText(USERNAME_FIELD, Some(username), env.username).Err? ==>
      LoginSteps(username, password, env) == LoginSteps(username, password, env.(password := password', loginButton := button'))
      == Err(TypeText(USERNAME_FIELD, Some(username), env.username).error)
    ensures TypeText(PASSWORD_FIELD, Some(password), env.password).Err? ==>
      LoginSteps(username, password, env) == LoginSteps(username, password, env.(loginButton := button'))
    ensures LoginSteps(username, password, env).Ok? <==>
      && TypeText(USERNAME_FIELD, Some(username), env.username).Ok?
      && TypeText(PASSWORD_FIELD, Some(password), env.password).Ok?
      && ClickElement(LOGIN_BUTTON, env.loginButton).Ok?
  {
  }

  /** login never throws anything but ElementNotFoundException. */
  lemma LoginFailsOnlyWithNotFound(username: Option<string>, password: Option<string>, env: LoginEnv)
    ensures Login(username, password, env).Err? ==> IsA(Login(username, password, env).error, ElementNotFound)
  {
  }

  /** clearErrorMessage does nothing when no error message shows; otherwise it
      is exactly a click on the error button, since every exception that
      escapes clickElement is an ElementNotFoundException and is rethrown. */
  lemma ClearOnlyWhenShown(errorShown: Wait, displayed: Step<bool>, button: ClickEnv)
    ensures !IsErrorMessageDisplayed(errorShown, displayed) ==> ClearErrorMessage(errorShown, displayed, button) == Ok(())
    ensures IsErrorMessageDisplayed(errorShown, displayed) ==>
      ClearErrorMessage(errorShown, displayed, button) == ClickElement(ERROR_BUTTON, button)
    ensures IsErrorMessageDisplayed(errorShown, displayed) <==>
      (exists k :: 1 <= k <= MAX_RETRIES && errorShown.probe(k).Done?) && displayed == Done(true)
  {
    ClickSurfacesNotFound(ERROR_BUTTON, button);
    DisplayedIff(ERROR_MESSAGE, errorShown, displayed);
  }

  /** navigateToLoginPage succeeds exactly when driver.get returns and the
      page-load wait does not time out; every failure is a
      NavigationException, a driver timeout included. */
  lemma NavigateToLoginPageOutcome(get: Step<()>, pageLoad: Step<()>)
    ensures NavigateToLoginPage(get, pageLoad).Ok? <==>
      get.Done? && !(pageLoad.Raised? && pageLoad.fault == DriverTimeout)
    ensures NavigateToLoginPage(get, pageLoad).Err? ==>
      && IsA(NavigateToLoginPage(get, pageLoad).error, Navigation)
      && NavigateToLoginPage(get, pageLoad).error.message == "Cannot navigate to login page: " + LOGIN_PAGE_URL
  {
    if get.Done? {
      PageLoadOutcome(pageLoad);
    }
  }

  /** Where navigateToUrl swallows a page-load timeout and turns a driver
      timeout into TimeoutException, navigateToLoginPage reports both as
      NavigationException. */
  lemma LoginPageNavigationDiffers(m: string, get: Step<()>)
    ensures NavigateToUrl(Some(LOGIN_PAGE_URL), Done(()), Raised(DriverTimeout, m)).Ok?
    ensures NavigateToLoginPage(Done(()), Raised(DriverTimeout, m)).Err?
    ensures IsA(NavigateToLoginPage(Done(()), Raised(DriverTimeout, m)).error, Navigation)
    ensures IsA(NavigateToUrl(Some(LOGIN_PAGE_URL), Raised(DriverTimeout, m), Done(())).error, Timeout)
    ensures IsA(NavigateToLoginPage(Raised(DriverTimeout, m), Done(())).error, Navigation)
  {
    assert !IsTrimmable(LOGIN_PAGE_URL[0]);
    assert !AllTrimmable(LOGIN_PAGE_URL);
    TrimIsEmptyIff(LOGIN_PAGE_URL);
  }

  /** isLoginSuccessful looks for "inventory" anywhere in the URL. */
  lemma LoginSuccessExamples(prefix: string, suffix: string)
    ensures IsLoginSuccessful(prefix + "inventory" + suffix)
    ensures !IsLoginSuccessful(LOGIN_PAGE_URL + "/")
  {
    assert OccursAt(prefix + "inventory" + suffix, "inventory", |prefix|);
    var url := LOGIN_PAGE_URL + "/";
    assert forall i :: OccursAt(url, "inventory", i) ==> url[i..i + 9][0] == url[i] == 'i';
    assert forall j :: 0 <= j < |url| ==> url[j] != 'i';
  }
}
