/**
 ConfigManager: a properties table loaded once from the configuration file,
 or filled with four defaults when the file cannot be read, and the lookups
 and parses the rest of the framework reads it through.
 */
module Config {
  import opened Wrappers
  import opened Exceptions
  import opened Text

  /** The values setDefaultProperties stores. */
  const DEFAULT_PROPERTIES: map<string, string> := map[
    "base.url" := "https://www.saucedemo.com",
    "browser" := "chrome",
    "timeout" := "10",
    "headless" := "false"
  ]

  const INVALID_TIMEOUT_MESSAGE: string := "Invalid timeout value. Must be a number"

  class ConfigManager {
    /** The static Properties table. */
    var properties: map<string, string>

    /** The static initialiser (loadProperties). `file` is the table the
        configuration file holds, or None when reading it fails. */
    constructor Load(file: Option<map<string, string>>)
      ensures file.Some? ==> properties == file.value
      ensures file.None? ==> properties == DEFAULT_PROPERTIES
    {
      properties := map[];
      new;
      if file.Some? {
        properties := file.value;
      } else {
        SetDefaultProperties();
      }
    }

    /** setDefaultProperties: each default overrides the key it names; every
        other key keeps its value. */
    method SetDefaultProperties()
      modifies this
      ensures properties == old(properties) + DEFAULT_PROPERTIES
    {
      properties := properties["base.url" := "https://www.saucedemo.com"];
      properties := properties["browser" := "chrome"];
      properties := properties["timeout" := "10"];
      properties := properties["headless" := "false"];
    }

    /** getProperty: the stored value, or "" for a missing key (never null). */
    function GetProperty(key: string): (value: string)
      reads this
      ensures key in properties ==> value == properties[key]
      ensures key !in properties ==> value == ""
    {
      if key in properties then properties[key] else ""
    }

    /** getBaseUrl. */
    function GetBaseUrl(): (url: string)
      reads this
      ensures "base.url" in properties ==> url == properties["base.url"]
      ensures "base.url" !in properties ==> url == ""
    {
      GetProperty("base.url")
    }

    /** getBrowser: System.getProperty("browser", getProperty("browser")), the
        system property being passed in (None when it is not set). */
    function GetBrowser(systemBrowser: Option<string>): (browser: string)
      reads this
      ensures systemBrowser.Some? ==> browser == systemBrowser.value
      ensures systemBrowser.None? ==> browser == GetProperty("browser")
    {
      match systemBrowser
      case Some(b) => b
      case None => GetProperty("browser")
    }

    /** getTimeout: Integer.parseInt of the "timeout" value; a value that does
        not parse (a missing key reads as "") throws ConfigurationException
        caused by the NumberFormatException. */
    function GetTimeout(): (r: Outcome<int>)
      reads this
    {
      var text := GetProperty("timeout");
      match ParseInt(text)
      case Some(n) => Ok(n)
      case None =>
        Err(Framework(Configuration, INVALID_TIMEOUT_MESSAGE,
          Some(Foreign(NumberFormat, "For input string: \"" + text + "\""))))
    }

    /** isHeadless: Boolean.parseBoolean of the "headless" value. */
    function IsHeadless(): (headless: bool)
      reads this
    {
      EqualsIgnoreCase(GetProperty("headless"), "true")
    }
  }

  /** getTimeout returns exactly the number a well-formed "timeout" entry
      spells, and fails with ConfigurationException whenever the entry is
      missing or does not parse. */
  lemma TimeoutReadsBack(config: ConfigManager, n: int)
    requires INT_MIN <= n <= INT_MAX
    requires "timeout" in config.properties && config.properties["timeout"] == IntToString(n)
    ensures config.GetTimeout() == Ok(n)
  {
    ParseIntRoundTrip(n);
  }

  lemma TimeoutFailure(config: ConfigManager)
    requires "timeout" !in config.properties || ParseInt(config.properties["timeout"]).None?
    ensures config.GetTimeout().Err? && IsA(config.GetTimeout().error, Configuration)
    ensures config.GetTimeout().error.message == INVALID_TIMEOUT_MESSAGE
  {
  }

  /** isHeadless is true exactly for "true" in any capitalisation, so a
      missing key reads as false. */
  lemma HeadlessIff(config: ConfigManager)
    ensures config.IsHeadless() <==>
      "headless" in config.properties && EqualsIgnoreCase(config.properties["headless"], "true")
    ensures "headless" !in config.properties ==> !config.IsHeadless()
  {
  }

  /** With the defaults in place (the file could not be read), the getters
      give https://www.saucedemo.com, chrome (unless overridden by the system
      property), 10 seconds and not headless. */
  lemma DefaultsReadBack(config: ConfigManager)
    requires config.properties == DEFAULT_PROPERTIES
    ensures config.GetBaseUrl() == "https://www.saucedemo.com"
    ensures config.GetBrowser(None) == "chrome"
    ensures config.GetTimeout() == Ok(10)
    ensures !config.IsHeadless()
  {
    TimeoutReadsBack(config, 10);
    assert !EqualsIgnoreCase("false", "true");
  }
}
