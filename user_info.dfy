/**
 * The user-info page's own copies of the masking and user-agent helpers.
 * Its `maskIP` answers "Unknown" for a missing or empty address, where the
 * tracking hook answers null; its `parseUserAgent` reads the navigator and
 * the screen, which arrive here as a `Navigator` value.
 */
module UserInfo {
  import opened Wrappers
  import opened JsString
  import opened ClientInfo
  import VisitorTracking

  const UnknownAddress := "Unknown"

  /** The page's `maskIP`: "Unknown" for a falsy address, the shared masking otherwise. */
  function MaskIP(ip: Option<string>): (r: string)
    ensures ip.None? || ip.value == "" ==> r == UnknownAddress
    ensures ip.Some? && ip.value != "" ==> r == MaskAddress(ip.value)
  {
    if ip.None? || ip.value == "" then UnknownAddress else MaskAddress(ip.value)
  }

  /**
   * On every address the page shows what the hook records, with "Unknown"
   * in place of null. The two source copies of the masking are textually
   * identical, so both are modelled by the one `MaskAddress`; this lemma
   * records that sharing and the null-to-"Unknown" difference, and is not
   * an independent check of two implementations.
   */
  lemma MaskIPAgreesWithHook(ip: Option<string>)
    ensures MaskIP(ip) == VisitorTracking.MaskIP(ip).GetOr(UnknownAddress)
  {
  }

  /** A masked non-empty address is never the bare word "Unknown": every branch appends a mask. */
  lemma MaskedNeverUnknown(ip: string)
    requires ip != ""
    ensures MaskAddress(ip) != UnknownAddress
  {
    var m := MaskAddress(ip);
    var parts := Split(ip, '.');
    if |parts| == 4 {
      assert m[|m| - 1] == '*';
    } else if Contains(ip, ":") {
      assert m[|m| - 1] == '*';
    } else {
      assert m[|m| - 1] == '*';
    }
  }

  /** So the page shows "Unknown" exactly when the hook records null. */
  lemma UnknownIffHookNull(ip: Option<string>)
    ensures MaskIP(ip) == UnknownAddress <==> VisitorTracking.MaskIP(ip).None?
  {
    if ip.Some? && ip.value != "" {
      MaskedNeverUnknown(ip.value);
    }
  }

  /** What the page reads from `navigator` and `window`. */
  datatype Navigator = Navigator(
    userAgent: string, language: string, cookieEnabled: bool, doNotTrack: Option<string>,
    screenWidth: nat, screenHeight: nat, hasTouchStart: bool)

  datatype DeviceInfo = DeviceInfo(
    browser: string, os: string, device: string, screenResolution: string,
    language: string, cookiesEnabled: bool, doNotTrack: bool, touchSupport: bool)

  /** Width and height separated by a multiplication sign with a space on each side. */
  function ScreenText(width: nat, height: nat): string {
    NatToDecimal(width) + " × " + NatToDecimal(height)
  }

  /** The page's `parseUserAgent`. */
  function ParseUserAgent(nav: Navigator): (info: DeviceInfo)
    ensures info.doNotTrack <==> nav.doNotTrack == Some("1")
    ensures info.screenResolution == NatToDecimal(nav.screenWidth) + " × " + NatToDecimal(nav.screenHeight)
    ensures info.language == nav.language && info.cookiesEnabled == nav.cookieEnabled
    ensures info.touchSupport == nav.hasTouchStart
  {
    DeviceInfo(
      Browser(nav.userAgent), Os(nav.userAgent), Device(nav.userAgent),
      ScreenText(nav.screenWidth, nav.screenHeight), nav.language, nav.cookieEnabled,
      nav.doNotTrack == Some("1"), nav.hasTouchStart)
  }

  /**
   * Browser, OS and device are what the tracking hook records for the same
   * user agent. The page's chains are textually identical to the hook's and
   * are modelled by the same `ClientInfo` functions, so this holds by
   * construction: it records the sharing rather than checking two copies.
   */
  lemma ParseAgreesWithHook(nav: Navigator)
    ensures var info := ParseUserAgent(nav);
            var hook := VisitorTracking.ParseUserAgent(nav.userAgent);
            info.browser == hook.browser && info.os == hook.os && info.device == hook.device
  {
  }

  /** Browser and OS follow the first rule of the shared priority tables that matches. */
  lemma ParseFollowsRuleTables(nav: Navigator)
    ensures ParseUserAgent(nav).browser == FirstMatch(BrowserRules, nav.userAgent, "Unknown")
    ensures ParseUserAgent(nav).os == FirstMatch(OsRules, nav.userAgent, "Unknown")
  {
    BrowserIsFirstMatch(nav.userAgent);
    OsIsFirstMatch(nav.userAgent);
  }

  /** The displayed resolution determines the screen's width and height. */
  lemma ScreenTextInjective(w1: nat, h1: nat, w2: nat, h2: nat)
    requires ScreenText(w1, h1) == ScreenText(w2, h2)
    ensures w1 == w2 && h1 == h2
  {
    DecimalPairInjective(w1, h1, w2, h2, " × ");
  }
}
