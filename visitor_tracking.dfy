/**
 * The visitor-tracking hook: the per-tab session id kept in session
 * storage, the once-per-hook location lookup, and the per-page
 * de-duplication that lets each (session, path) pair produce at most one
 * visitor-log insert. Browser globals arrive as parameters.
 */
module VisitorTracking {
  import opened Wrappers
  import opened JsString
  import opened ClientInfo

  /** The hook's `maskIP`: None (JavaScript's null) for an absent or empty address. */
  function MaskIP(ip: Option<string>): (r: Option<string>)
    ensures r.None? <==> ip.None? || ip.value == ""
    ensures r.Some? ==> r.value == MaskAddress(ip.value)
  {
    if ip.None? || ip.value == "" then None else Some(MaskAddress(ip.value))
  }

  /** What the hook's `parseUserAgent` returns. */
  datatype AgentInfo = AgentInfo(browser: string, os: string, device: string)

  function ParseUserAgent(ua: string): AgentInfo {
    AgentInfo(Browser(ua), Os(ua), Device(ua))
  }

  // ---------------------------------------------------------------------
  // Session id
  // ---------------------------------------------------------------------

  const SessionKey := "visitor_session_id"

  /** The tab's `sessionStorage`. */
  class SessionStorage {
    var items: map<string, string>

    constructor ()
      ensures items == map[]
    {
      items := map[];
    }
  }

  /**
   * The id `getSessionId` returns and the storage it leaves, given the id
   * `crypto.randomUUID()` would produce: a stored non-empty id is reused;
   * otherwise the fresh one is stored and returned.
   */
  function SessionLookup(items: map<string, string>, generated: string): (string, map<string, string>) {
    if SessionKey in items && items[SessionKey] != "" then (items[SessionKey], items)
    else (generated, items[SessionKey := generated])
  }

  /** Once an id exists, every later call returns it and leaves storage alone, whatever id would have been generated. */
  lemma SessionIdStable(items: map<string, string>, g1: string, g2: string)
    requires g1 != ""
    ensures var (id1, after1) := SessionLookup(items, g1);
            var (id2, after2) := SessionLookup(after1, g2);
            id2 == id1 && after2 == after1 && id1 != ""
    ensures SessionKey !in items ==> SessionLookup(items, g1).0 == g1
  {
  }

  method GetSessionId(store: SessionStorage, generated: string) returns (id: string)
    modifies store
    ensures (id, store.items) == SessionLookup(old(store.items), generated)
  {
    if SessionKey in store.items && store.items[SessionKey] != "" {
      id := store.items[SessionKey];
    } else {
      id := generated;
      store.items := store.items[SessionKey := id];
    }
  }

  // ---------------------------------------------------------------------
  // Visit logging
  // ---------------------------------------------------------------------

  /** The ipapi.co answer; each field may be missing. */
  datatype LocationData = LocationData(
    ip: Option<string>, city: Option<string>, region: Option<string>,
    countryName: Option<string>, timezone: Option<string>, org: Option<string>)

  /** The browser globals the record reads. */
  datatype BrowserEnv = BrowserEnv(
    userAgent: string, screenWidth: nat, screenHeight: nat, language: string, referrer: string)

  /** A row sent to `visitor_logs`. */
  datatype VisitorLog = VisitorLog(
    sessionId: string, ipPartial: Option<string>, city: Option<string>, region: Option<string>,
    country: Option<string>, timezone: Option<string>, isp: Option<string>,
    browser: string, operatingSystem: string, deviceType: string, screenResolution: string,
    language: string, pagePath: string, referrer: Option<string>)

  /** `x || null` on a string that may be missing: empty becomes null too. */
  function OrNull(v: Option<string>): Option<string> {
    if v.None? || v.value == "" then None else v
  }

  function ScreenResolution(env: BrowserEnv): string {
    NatToDecimal(env.screenWidth) + "x" + NatToDecimal(env.screenHeight)
  }

  /** The screen-resolution text determines the width and height it was built from. */
  lemma ScreenResolutionInjective(e1: BrowserEnv, e2: BrowserEnv)
    requires ScreenResolution(e1) == ScreenResolution(e2)
    ensures e1.screenWidth == e2.screenWidth && e1.screenHeight == e2.screenHeight
  {
    DecimalPairInjective(e1.screenWidth, e1.screenHeight, e2.screenWidth, e2.screenHeight, "x");
  }

  function VisitorRecord(sessionId: string, pathname: string, location: Option<LocationData>, env: BrowserEnv): VisitorLog {
    var info := ParseUserAgent(env.userAgent);
    VisitorLog(
      sessionId,
      if location.Some? then MaskIP(location.value.ip) else None,
      if location.Some? then OrNull(location.value.city) else None,
      if location.Some? then OrNull(location.value.region) else None,
      if location.Some? then OrNull(location.value.countryName) else None,
      if location.Some? then OrNull(location.value.timezone) else None,
      if location.Some? then OrNull(location.value.org) else None,
      info.browser, info.os, info.device, ScreenResolution(env),
      env.language, pathname, OrNull(Some(env.referrer)))
  }

  /**
   * The row's nullable columns: without location data every location
   * column is null; with it, an empty or missing field is null too, and the
   * address is masked. An empty referrer is null.
   */
  lemma VisitorRecordNulls(sessionId: string, pathname: string, location: Option<LocationData>, env: BrowserEnv)
    ensures var r := VisitorRecord(sessionId, pathname, location, env);
      && (location.None? ==> r.ipPartial.None? && r.city.None? && r.region.None? && r.country.None? && r.timezone.None? && r.isp.None?)
      && (location.Some? ==> r.ipPartial == MaskIP(location.value.ip))
      && (location.Some? ==> (r.city.None? <==> location.value.city.None? || location.value.city.value == ""))
      && (location.Some? ==> (r.region.None? <==> location.value.region.None? || location.value.region.value == ""))
      && (location.Some? ==> (r.country.None? <==> location.value.countryName.None? || location.value.countryName.value == ""))
      && (location.Some? ==> (r.timezone.None? <==> location.value.timezone.None? || location.value.timezone.value == ""))
      && (location.Some? ==> (r.isp.None? <==> location.value.org.None? || location.value.org.value == ""))
      && (r.city.Some? ==> r.city.value != "") && (r.region.Some? ==> r.region.value != "")
      && (r.country.Some? ==> r.country.value != "") && (r.timezone.Some? ==> r.timezone.value != "")
      && (r.isp.Some? ==> r.isp.value != "")
      && (r.referrer.None? <==> env.referrer == "")
      && r.sessionId == sessionId && r.pagePath == pathname
      && r.browser == Browser(env.userAgent) && r.operatingSystem == Os(env.userAgent) && r.deviceType == Device(env.userAgent)
  {
  }

  function PageKey(sessionId: string, pathname: string): string {
    sessionId + "-" + pathname
  }

  /** An insert the hook sent, with the page key that admitted it. */
  datatype VisitAttempt = VisitAttempt(pageKey: string, row: VisitorLog)

  /** One mounted hook: `hasTrackedRef`, `locationDataRef` and the inserts it has issued. */
  class VisitTracker {
    var tracked: set<string>
    var location: Option<LocationData>
    var attempts: seq<VisitAttempt>

    /** Every attempt's key is remembered, and no key was attempted twice. */
    ghost predicate Valid()
      reads this
    {
      && (forall i :: 0 <= i < |attempts| ==> attempts[i].pageKey in tracked)
      && (forall i, j :: 0 <= i < j < |attempts| ==> attempts[i].pageKey != attempts[j].pageKey)
    }

    constructor ()
      ensures Valid() && tracked == {} && location == None && attempts == []
    {
      tracked, location, attempts := {}, None, [];
    }

    /** `fetchLocationData`: skipped once data is present; `reply` is the parsed answer of a successful lookup. */
    method FetchLocation(reply: Option<LocationData>)
      requires Valid()
      modifies this
      ensures Valid()
      ensures location == if old(location).Some? then old(location) else reply
      ensures tracked == old(tracked) && attempts == old(attempts)
    {
      if location.None? {
        location := reply;
      }
    }

    /**
     * `trackVisit`, when its timer fires: the page key is added before the
     * insert is issued, so a key already seen issues nothing and a failed
     * insert is never retried.
     */
    method TrackVisit(store: SessionStorage, generated: string, pathname: string, env: BrowserEnv)
      requires Valid()
      modifies this, store
      ensures Valid()
      ensures var (sid, items) := SessionLookup(old(store.items), generated);
        var key := PageKey(sid, pathname);
        && store.items == items
        && tracked == old(tracked) + {key}
        && attempts == (if key in old(tracked) then old(attempts)
                        else old(attempts) + [VisitAttempt(key, VisitorRecord(sid, pathname, old(location), env))])
      ensures location == old(location)
    {
      var sessionId := GetSessionId(store, generated);
      var key := PageKey(sessionId, pathname);
      if key in tracked {
        return;
      }
      tracked := tracked + {key};
      attempts := attempts + [VisitAttempt(key, VisitorRecord(sessionId, pathname, location, env))];
    }
  }

  /** Two visits to one path in one tab issue a single insert, for the first visit's session id. */
  method RepeatVisitInsertsOnce(pathname: string, generated1: string, generated2: string, env: BrowserEnv)
    returns (inserts: seq<VisitAttempt>)
    requires generated1 != ""
    ensures |inserts| == 1
    ensures inserts[0].pageKey == PageKey(generated1, pathname)
    ensures inserts[0].row.sessionId == generated1 && inserts[0].row.pagePath == pathname
  {
    var store := new SessionStorage();
    var tracker := new VisitTracker();
    tracker.TrackVisit(store, generated1, pathname, env);
    tracker.TrackVisit(store, generated2, pathname, env);
    inserts := tracker.attempts;
  }
}
