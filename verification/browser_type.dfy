/**
 The BrowserType enum: three browsers, each with a fixed command-line name,
 and the lenient parser fromString that matches a name ignoring case and
 falls back to CHROME.
 */
module Driver {
  import opened Wrappers
  import opened Text

  datatype BrowserType = CHROME | FIREFOX | EDGE

  /** BrowserType.values(), in declaration order. */
  const VALUES: seq<BrowserType> := [CHROME, FIREFOX, EDGE]

  /** getBrowserName. */
  function BrowserName(t: BrowserType): string {
    match t
    case CHROME => "chrome"
    case FIREFOX => "firefox"
    case EDGE => "edge"
  }

  /** The first of `candidates` whose name equals `name` ignoring case: the
      loop over values() with its early return. */
  function FirstMatch(candidates: seq<BrowserType>, name: string): (r: Option<BrowserType>)
    ensures r.Some? ==> r.value in candidates && EqualsIgnoreCase(BrowserName(r.value), name)
    ensures r.None? ==> forall t :: t in candidates ==> !EqualsIgnoreCase(BrowserName(t), name)
    decreases |candidates|
  {
    if candidates == [] then None
    else if EqualsIgnoreCase(BrowserName(candidates[0]), name) then Some(candidates[0])
    else FirstMatch(candidates[1..], name)
  }

  /** fromString: null or empty gives CHROME; otherwise the browser whose name
      equals the argument ignoring case, and CHROME when none does. It never
      throws. */
  function FromString(browserName: Option<string>): (t: BrowserType)
    ensures browserName.None? ==> t == CHROME
    ensures browserName.Some? ==>
      || EqualsIgnoreCase(BrowserName(t), browserName.value)
      || (t == CHROME && forall u :: !EqualsIgnoreCase(BrowserName(u), browserName.value))
  {
    if browserName.None? || browserName.value == "" then CHROME
    else match FirstMatch(VALUES, browserName.value)
      case Some(t) => t
      case None => CHROME
  }

  /** The name mapping is injective: no two browsers share a name, not even
      ignoring case. */
  lemma {:induction false} NamesDistinct(t: BrowserType, u: BrowserType, name: string)
    requires EqualsIgnoreCase(BrowserName(t), name) && EqualsIgnoreCase(BrowserName(u), name)
    ensures t == u
  {
    assert |BrowserName(t)| == |BrowserName(u)|;
  }

  /** Round trip: parsing a browser's own name gives that browser back. */
  lemma FromStringRoundTrip(t: BrowserType)
    ensures FromString(Some(BrowserName(t))) == t
  {
    var n := BrowserName(t);
    assert EqualsIgnoreCase(n, n);
    if FromString(Some(n)) != t {
      NamesDistinct(FromString(Some(n)), t, n);
    }
  }

  /** Any capitalisation of a browser's name selects it. */
  lemma FromStringIgnoresCase(t: BrowserType, name: string)
    requires EqualsIgnoreCase(BrowserName(t), name)
    ensures FromString(Some(name)) == t
  {
    if FromString(Some(name)) != t {
      NamesDistinct(FromString(Some(name)), t, name);
    }
  }

  /** Null, the empty string, and any name matching no browser give CHROME;
      surrounding blanks are not trimmed, so " edge" gives CHROME. */
  lemma FromStringDefaults(name: string)
    requires forall u :: !EqualsIgnoreCase(BrowserName(u), name)
    ensures FromString(None) == CHROME && FromString(Some("")) == CHROME
    ensures FromString(Some(name)) == CHROME
    ensures FromString(Some(" edge")) == CHROME
  {
    assert !EqualsIgnoreCase(BrowserName(EDGE), " edge");
    assert forall u :: !EqualsIgnoreCase(BrowserName(u), " edge") by {
      forall u ensures !EqualsIgnoreCase(BrowserName(u), " edge") {
        assert LowerAscii(' ') != LowerAscii(BrowserName(u)[0]);
      }
    }
  }
}
