/**
 * Browser and operating-system classification of a client agent string
 * (src/UserAgent.java). Both classifiers are priority-ordered chains of
 * case-insensitive substring tests on the lower-cased agent string; the
 * first test that succeeds decides the family.
 */
module UserAgents {
  import opened Text

  datatype Browser =
    | Edge | Firefox | Chrome | Safari | Opera | Yandex
    | BingBot | GoogleBot | YandexBot | Other | Unknown

  datatype OperatingSystem = Windows | MacOS | Linux | Android | IOS | Unknown

  /** The classification a `UserAgent` object holds. */
  datatype UserAgent = UserAgent(browser: Browser, operatingSystem: OperatingSystem)

  /** The string `getBrowser()` returns for each family. */
  function BrowserName(b: Browser): string {
    match b
    case Edge => "Edge"
    case Firefox => "Firefox"
    case Chrome => "Chrome"
    case Safari => "Safari"
    case Opera => "Opera"
    case Yandex => "Yandex"
    case BingBot => "BingBot"
    case GoogleBot => "GoogleBot"
    case YandexBot => "YandexBot"
    case Other => "Other"
    case Unknown => "Unknown"
  }

  /** The string `getOperatingSystem()` returns for each family. */
  function OperatingSystemName(os: OperatingSystem): string {
    match os
    case Windows => "Windows"
    case MacOS => "macOS"
    case Linux => "Linux"
    case Android => "Android"
    case IOS => "iOS"
    case Unknown => "Unknown"
  }

  /** The browser chain applied to an already lower-cased, non-empty agent string. */
  function BrowserOfLower(ua: string): (b: Browser)
    ensures b != Browser.Unknown
    ensures Contains(ua, "edge") || Contains(ua, "edg/") ==> b == Edge
    ensures b == Chrome ==> Contains(ua, "chrome") && !Contains(ua, "chromium")
    ensures b == Safari ==> Contains(ua, "safari") && !Contains(ua, "chrome")
  {
    if Contains(ua, "edge") || Contains(ua, "edg/") then Edge
    else if Contains(ua, "firefox") || Contains(ua, "fxios") then Firefox
    else if Contains(ua, "chrome") && !Contains(ua, "chromium") then Chrome
    else if Contains(ua, "safari") && !Contains(ua, "chrome") then Safari
    else if Contains(ua, "opera") || Contains(ua, "presto") then Opera
    else if Contains(ua, "yandex") then Yandex
    else if Contains(ua, "bingbot") then BingBot
    else if Contains(ua, "googlebot") then GoogleBot
    else if Contains(ua, "yandexbot") then YandexBot
    else Other
  }

  /** `parseBrowser`: `Unknown` for an empty string, otherwise the chain on its lower-case form. */
  function ParseBrowser(userAgentString: string): (b: Browser)
    ensures b == Browser.Unknown <==> userAgentString == []
  {
    if userAgentString == [] then Browser.Unknown else BrowserOfLower(Lower(userAgentString))
  }

  /** The operating-system chain applied to an already lower-cased, non-empty agent string. */
  function OperatingSystemOfLower(ua: string): (os: OperatingSystem)
    ensures Contains(ua, "windows") || Contains(ua, "win32") || Contains(ua, "win64") ==> os == Windows
    ensures os == Linux ==> Contains(ua, "linux") && !Contains(ua, "android")
    ensures os == Android ==> Contains(ua, "android")
  {
    if Contains(ua, "windows") || Contains(ua, "win32") || Contains(ua, "win64") then Windows
    else if Contains(ua, "mac") || Contains(ua, "os x") || Contains(ua, "darwin") then MacOS
    else if Contains(ua, "linux") && !Contains(ua, "android") then Linux
    else if Contains(ua, "android") then Android
    else if Contains(ua, "ios") || Contains(ua, "iphone") || Contains(ua, "ipad") then IOS
    else OperatingSystem.Unknown
  }

  /** `parseOperatingSystem`: `Unknown` for an empty string, otherwise the chain on its lower-case form. */
  function ParseOperatingSystem(userAgentString: string): (os: OperatingSystem)
    ensures userAgentString == [] ==> os == OperatingSystem.Unknown
  {
    if userAgentString == [] then OperatingSystem.Unknown
    else OperatingSystemOfLower(Lower(userAgentString))
  }

  /** The `UserAgent(String)` constructor. */
  function ParseUserAgent(userAgentString: string): (agent: UserAgent)
    ensures userAgentString == [] ==> agent == UserAgent(Browser.Unknown, OperatingSystem.Unknown)
    ensures agent.browser == Browser.Unknown <==> userAgentString == []
  {
    UserAgent(ParseBrowser(userAgentString), ParseOperatingSystem(userAgentString))
  }

  /** Every string containing "yandexbot" also contains "yandex". */
  lemma YandexInYandexBot(ua: string)
    requires Contains(ua, "yandexbot")
    ensures Contains(ua, "yandex")
  {
    assert OccursAt("yandexbot", "yandex", 0);
    ContainsTransitive("yandex", "yandexbot", ua);
  }

  /**
   * The `YandexBot` branch of `parseBrowser` can never be taken: any string
   * reaching it contains "yandex" and was already classified `Yandex`.
   */
  lemma YandexBotUnreachable(userAgentString: string)
    ensures ParseBrowser(userAgentString) != YandexBot
  {
    if userAgentString != [] {
      var ua := Lower(userAgentString);
      if Contains(ua, "yandexbot") {
        YandexInYandexBot(ua);
      }
    }
  }

  /**
   * Classification depends only on the lower-cased string: two agent strings
   * that differ only in the case of ASCII letters are classified alike.
   */
  lemma ClassificationIgnoresCase(s: string, t: string)
    requires Lower(s) == Lower(t)
    ensures ParseUserAgent(s) == ParseUserAgent(t)
  {
    assert |s| == |Lower(s)| == |Lower(t)| == |t|;
  }

  /** A non-empty string with none of the recognised tokens is browser `Other`, system `Unknown`. */
  lemma UnrecognisedAgent(userAgentString: string)
    requires userAgentString != []
    requires forall j :: 0 <= j < |AgentTokens()| ==> !Contains(Lower(userAgentString), AgentTokens()[j])
    ensures ParseUserAgent(userAgentString) == UserAgent(Other, OperatingSystem.Unknown)
  {
    var ua, all := Lower(userAgentString), AgentTokens();
    assert !Contains(ua, all[0]) && !Contains(ua, all[1]) && !Contains(ua, all[2]) && !Contains(ua, all[3]);
    assert !Contains(ua, all[4]) && !Contains(ua, all[5]) && !Contains(ua, all[6]) && !Contains(ua, all[7]);
    assert !Contains(ua, all[8]) && !Contains(ua, all[9]) && !Contains(ua, all[10]) && !Contains(ua, all[11]);
    assert BrowserOfLower(ua) == Other;
    assert !Contains(ua, all[12]) && !Contains(ua, all[13]) && !Contains(ua, all[14]) && !Contains(ua, all[15]);
    assert !Contains(ua, all[16]) && !Contains(ua, all[17]) && !Contains(ua, all[18]) && !Contains(ua, all[19]);
    assert !Contains(ua, all[20]) && !Contains(ua, all[21]) && !Contains(ua, all[22]);
  }

  /** Every token either chain tests for, browser tokens first. */
  function AgentTokens(): seq<string> {
    ["edge", "edg/", "firefox", "fxios", "chrome", "safari", "opera", "presto",
     "yandex", "bingbot", "googlebot", "yandexbot",
     "windows", "win32", "win64", "mac", "os x", "darwin", "linux", "android",
     "ios", "iphone", "ipad"]
  }
}
