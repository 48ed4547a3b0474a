/**
 * The pure pieces of the capture job: the fetch guards (domain allowlist,
 * image content type, size ceiling), the caller's bearer-secret gate, the
 * time-slot classifier and the storage-key builder.
 */
module CaptureGuards {
  import opened Wrappers
  import opened JsString

  // ---------------------------------------------------------------------
  // Domain allowlist
  // ---------------------------------------------------------------------

  /** Host-name suffixes a fetch target must end with. */
  const AllowedDomains: seq<string> :=
    ["backend.roundshot.com", "api.urlbox.io", "urlbox.io", "s3.urlbox.io"]

  /** `domains.some(d => hostname.endsWith(d))`. */
  function EndsWithAny(hostname: string, domains: seq<string>): (b: bool)
    ensures b <==> exists k :: 0 <= k < |domains| && EndsWith(hostname, domains[k])
    decreases |domains|
  {
    if domains == [] then false
    else
      assert forall k :: 1 <= k < |domains| ==> domains[k] == domains[1..][k - 1];
      EndsWith(hostname, domains[0]) || EndsWithAny(hostname, domains[1..])
  }

  /**
   * Whether `url` may be fetched. `host` is the URL parser: the host name
   * of a parseable URL, None where `new URL` throws (the guard then fails
   * closed). The suffix test has no dot boundary.
   */
  function IsAllowedDomain(host: string -> Option<string>, url: string): (b: bool)
    ensures b <==> host(url).Some? &&
                   exists k :: 0 <= k < |AllowedDomains| && EndsWith(host(url).value, AllowedDomains[k])
  {
    match host(url)
    case None => false
    case Some(h) => EndsWithAny(h, AllowedDomains)
  }

  /** A host that is an allowlisted domain or one of its subdomains is admitted. */
  lemma SubdomainAllowed(host: string -> Option<string>, url: string, k: nat)
    requires k < |AllowedDomains| && host(url).Some?
    requires host(url).value == AllowedDomains[k] || EndsWith(host(url).value, "." + AllowedDomains[k])
    ensures IsAllowedDomain(host, url)
  {
    var h, d := host(url).value, AllowedDomains[k];
    if h != d {
      assert h[|h| - |d|..] == h[|h| - |d| - 1..][1..];
    }
    assert EndsWith(h, d);
  }

  /** Without a dot boundary, a host that merely ends in "urlbox.io" is admitted too. */
  lemma LookalikeHostAllowed(host: string -> Option<string>, url: string)
    requires host(url) == Some("evilurlbox.io")
    ensures IsAllowedDomain(host, url)
  {
    assert EndsWith("evilurlbox.io", AllowedDomains[2]);
  }

  /** A suffix of a suffix is a suffix. */
  lemma EndsWithTransitive(h: string, longer: string, shorter: string)
    requires EndsWith(h, longer) && EndsWith(longer, shorter)
    ensures EndsWith(h, shorter)
  {
    assert h[|h| - |shorter|..] == h[|h| - |longer|..][|longer| - |shorter|..];
  }

  /** Only the two registrable suffixes matter: the list admits exactly the hosts ending in one of them. */
  lemma AllowlistReduces(host: string -> Option<string>, url: string)
    ensures IsAllowedDomain(host, url) <==>
            host(url).Some? && (EndsWith(host(url).value, "backend.roundshot.com") || EndsWith(host(url).value, "urlbox.io"))
  {
    if host(url).Some? {
      var h := host(url).value;
      assert EndsWith("api.urlbox.io", "urlbox.io");
      assert EndsWith("s3.urlbox.io", "urlbox.io");
      if EndsWith(h, AllowedDomains[1]) {
        EndsWithTransitive(h, "api.urlbox.io", "urlbox.io");
      }
      if EndsWith(h, AllowedDomains[3]) {
        EndsWithTransitive(h, "s3.urlbox.io", "urlbox.io");
      }
      if EndsWith(h, "urlbox.io") {
        assert EndsWith(h, AllowedDomains[2]);
      }
      if EndsWith(h, "backend.roundshot.com") {
        assert EndsWith(h, AllowedDomains[0]);
      }
    }
  }

  // ---------------------------------------------------------------------
  // Content validation
  // ---------------------------------------------------------------------

  /** The `content-type` header names an image; a missing or empty header does not. */
  function IsValidImageContentType(contentType: Option<string>): (b: bool)
    ensures contentType == None || contentType == Some("") ==> !b
    ensures b <==> contentType.Some? && |contentType.value| >= 6 && contentType.value[..6] == "image/"
  {
    match contentType
    case None => false
    case Some(ct) => ct != "" && StartsWith(ct, "image/")
  }

  /** A downloaded payload may be at most 10 MiB. */
  const MaxImageSize: nat := 10 * 1024 * 1024

  predicate TooLarge(size: nat) {
    size > MaxImageSize
  }

  /** The ceiling is inclusive: exactly 10485760 bytes pass, one more byte is refused. */
  lemma SizeCeiling(size: nat)
    ensures TooLarge(size) <==> size >= 10485761
    ensures !TooLarge(10485760)
  {
  }

  // ---------------------------------------------------------------------
  // Caller authentication
  // ---------------------------------------------------------------------

  const BearerPrefix := "Bearer "

  /**
   * Whether a request with Authorization header `header` is admitted when
   * the configured shared secret is `secret`. An unset or empty secret
   * admits everything; otherwise the header, after removing the first
   * "Bearer " found anywhere in it, must equal the secret.
   */
  function Authorized(secret: Option<string>, header: Option<string>): (admitted: bool)
    ensures secret.None? || secret == Some("") ==> admitted
    ensures secret.Some? && secret.value != "" && header.None? ==> !admitted
  {
    if secret.Some? && secret.value != "" then
      header.Some? && ReplaceFirst(header.value, BearerPrefix, "") == secret.value
    else true
  }

  /** The canonical header "Bearer <secret>" is admitted. */
  lemma AdmitsCanonical(s: string)
    ensures Authorized(Some(s), Some(BearerPrefix + s))
  {
    ReplaceLeading(BearerPrefix, s, "");
  }

  /** The bare secret, without any scheme, is admitted as well. */
  lemma AdmitsBareSecret(s: string)
    requires !Contains(s, BearerPrefix)
    ensures Authorized(Some(s), Some(s))
  {
  }

  /** "Bearer " is removed wherever it first stands, not only at the start. */
  lemma AdmitsEmbeddedBearer(a: string, b: string)
    requires forall j :: 0 <= j < |a| ==> !OccursAt(a + BearerPrefix + b, BearerPrefix, j)
    ensures Authorized(Some(a + b), Some(a + BearerPrefix + b))
  {
    var h := a + BearerPrefix + b;
    assert h[|a|..|a| + |BearerPrefix|] == BearerPrefix;
    ReplaceFirstAt(h, BearerPrefix, "", |a|);
    assert h[..|a|] == a && h[|a| + |BearerPrefix|..] == b;
    if a + b == "" {
      assert a == "" && b == "";
    }
  }

  /** With a secret set, a header is admitted only if it is the secret with at most one "Bearer " inserted. */
  lemma {:induction false} AdmittedHeaderShape(s: string, h: string)
    requires s != "" && Authorized(Some(s), Some(h))
    ensures h == s || exists i :: 0 <= i <= |s| && h == s[..i] + BearerPrefix + s[i..]
  {
    match IndexOf(h, BearerPrefix)
    case None =>
    case Some(i) =>
      assert s == h[..i] + h[i + |BearerPrefix|..];
      assert s[..i] == h[..i] && s[i..] == h[i + |BearerPrefix|..];
      assert h == s[..i] + BearerPrefix + s[i..];
  }

  // ---------------------------------------------------------------------
  // Time-slot classification
  // ---------------------------------------------------------------------

  const MsPerHour: int := 60 * 60 * 1000
  /** The largest magnitude of a valid JavaScript time value (ms from the epoch). */
  const MaxTimeValue: int := 8640000000000000
  /** The fixed Pacific Standard Time offset; no daylight-saving rule is applied. */
  const PstOffsetMinutes: int := -8 * 60

  /** `new Date(t).getUTCHours()`; None is NaN, which an out-of-range time value gives. */
  function UtcHours(t: int): (h: Option<nat>)
    ensures h.Some? <==> -MaxTimeValue <= t <= MaxTimeValue
    ensures h.Some? ==> h.value < 24
  {
    if -MaxTimeValue <= t <= MaxTimeValue then Some((t / MsPerHour) % 24) else None
  }

  /** The hour of `nowMs` on a clock running eight hours behind UTC. */
  function PstHour(nowMs: int): Option<nat> {
    UtcHours(nowMs + PstOffsetMinutes * 60 * 1000)
  }

  const SlotLabels: seq<string> := ["7:30 AM", "12:00 PM", "3:30 PM"]

  /** The if-chain on the hour; NaN compares false both times and gives the default. */
  function ClassifyHour(hour: Option<nat>): (slot: string)
    ensures slot in SlotLabels
  {
    if hour.Some? && hour.value >= 15 then "3:30 PM"
    else if hour.Some? && hour.value >= 12 then "12:00 PM"
    else "7:30 AM"
  }

  /** The slot label one run writes for every camera. */
  function TimeSlot(nowMs: int): (slot: string)
    ensures slot in SlotLabels
  {
    ClassifyHour(PstHour(nowMs))
  }

  /** The three labels split the 24 hours into [0,12), [12,15) and [15,24). */
  lemma SlotOfHour(h: nat)
    requires h < 24
    ensures ClassifyHour(Some(h)) == "7:30 AM" <==> h < 12
    ensures ClassifyHour(Some(h)) == "12:00 PM" <==> 12 <= h < 15
    ensures ClassifyHour(Some(h)) == "3:30 PM" <==> 15 <= h
  {
  }

  /** Slot boundaries as (first hour, label), in increasing order of hour. */
  const SlotBoundaries: seq<(nat, string)> := [(0, "7:30 AM"), (12, "12:00 PM"), (15, "3:30 PM")]

  /** The label of the last boundary whose hour is at most `h`, or `current` if there is none. */
  function LastBoundaryAtMost(bounds: seq<(nat, string)>, h: nat, current: string): string
    decreases |bounds|
  {
    if bounds == [] then current
    else LastBoundaryAtMost(bounds[1..], h, if bounds[0].0 <= h then bounds[0].1 else current)
  }

  /** The if-chain agrees with the boundary table read as "greatest lower bound wins". */
  lemma ClassifyMatchesTable(h: nat)
    requires h < 24
    ensures ClassifyHour(Some(h)) == LastBoundaryAtMost(SlotBoundaries, h, "7:30 AM")
  {
    var b: seq<(nat, string)> := SlotBoundaries;
    assert |b[1..][1..][1..]| == 0;
    assert LastBoundaryAtMost(b, h, "7:30 AM") == LastBoundaryAtMost(b[1..], h, "7:30 AM");
    var c1 := if 12 <= h then "12:00 PM" else "7:30 AM";
    assert LastBoundaryAtMost(b[1..], h, "7:30 AM") == LastBoundaryAtMost(b[1..][1..], h, c1);
    var c2 := if 15 <= h then "3:30 PM" else c1;
    assert LastBoundaryAtMost(b[1..][1..], h, c1) == LastBoundaryAtMost(b[1..][1..][1..], h, c2);
  }

  /** The Pacific hour is the UTC hour moved back by eight, modulo 24. */
  lemma PstHourShift(nowMs: int)
    requires -MaxTimeValue + 8 * MsPerHour <= nowMs <= MaxTimeValue
    ensures PstHour(nowMs) == Some(((nowMs / MsPerHour) % 24 + 16) % 24)
  {
    var q := nowMs / MsPerHour;
    var t := nowMs + PstOffsetMinutes * 60 * 1000;
    assert t == nowMs - 8 * MsPerHour;
    assert t == (q - 8) * MsPerHour + nowMs % MsPerHour;
    assert t / MsPerHour == q - 8;
    var r := q % 24;
    assert q == (q / 24) * 24 + r;
    assert q - 8 == (q / 24 - 1) * 24 + (r + 16);
    if r < 8 {
      assert (q - 8) % 24 == r + 16;
    } else {
      assert q - 8 == (q / 24) * 24 + (r - 8);
      assert (q - 8) % 24 == r - 8;
    }
  }

  // ---------------------------------------------------------------------
  // Storage key
  // ---------------------------------------------------------------------

  /** `iso.replace(/[:.]/g, '-')`. */
  function SanitizeTimestamp(iso: string): (r: string)
    ensures |r| == |iso|
    ensures forall k :: 0 <= k < |iso| ==> r[k] == (if iso[k] == ':' || iso[k] == '.' then '-' else iso[k])
    decreases |iso|
  {
    if iso == [] then []
    else [if iso[0] == ':' || iso[0] == '.' then '-' else iso[0]] + SanitizeTimestamp(iso[1..])
  }

  /** The object key of a snapshot: `<slug>/<timestamp>.jpg`. */
  function StorageKey(slug: string, iso: string): (key: string)
    ensures |key| == |slug| + |iso| + 5
    ensures StartsWith(key, slug + "/") && EndsWith(key, ".jpg")
    ensures forall k :: |slug| + 1 <= k < |key| - 4 ==> key[k] != ':' && key[k] != '.'
    ensures key[|slug| + 1..|key| - 4] == SanitizeTimestamp(iso)
  {
    var key := slug + "/" + SanitizeTimestamp(iso) + ".jpg";
    assert key[..|slug| + 1] == slug + "/";
    assert key[|key| - 4..] == ".jpg";
    assert key[|slug| + 1..|key| - 4] == SanitizeTimestamp(iso);
    key
  }

  /** A sanitized timestamp holds no ':' and no '.'. */
  lemma SanitizedHasNoSeparators(iso: string)
    ensures ':' !in SanitizeTimestamp(iso) && '.' !in SanitizeTimestamp(iso)
  {
    var r := SanitizeTimestamp(iso);
    forall k | 0 <= k < |r| ensures r[k] != ':' && r[k] != '.' { }
  }

  /** Within one run (one timestamp), distinct cameras get distinct keys. */
  lemma StorageKeySlugInjective(s1: string, s2: string, iso: string)
    requires StorageKey(s1, iso) == StorageKey(s2, iso)
    ensures s1 == s2
  {
    var k := StorageKey(s1, iso);
    assert |s1| == |s2|;
    assert s1 == k[..|s1|];
    assert s2 == StorageKey(s2, iso)[..|s2|];
  }

  /** Timestamps with separators at the same places (as every ISO-8601 rendering has) get distinct keys. */
  lemma SanitizeInjectiveOnShape(t1: string, t2: string)
    requires |t1| == |t2|
    requires forall k :: 0 <= k < |t1| ==> ((t1[k] == ':' || t1[k] == '.') <==> (t2[k] == ':' || t2[k] == '.'))
    requires forall k :: 0 <= k < |t1| ==> (t1[k] == ':' <==> t2[k] == ':')
    requires SanitizeTimestamp(t1) == SanitizeTimestamp(t2)
    ensures t1 == t2
  {
    forall k | 0 <= k < |t1| ensures t1[k] == t2[k] {
      assert SanitizeTimestamp(t1)[k] == SanitizeTimestamp(t2)[k];
    }
  }

  /** For one camera, two runs whose timestamps have the same shape and differ get distinct keys. */
  lemma StorageKeyTimestampInjective(slug: string, t1: string, t2: string)
    requires |t1| == |t2|
    requires forall k :: 0 <= k < |t1| ==> ((t1[k] == ':' || t1[k] == '.') <==> (t2[k] == ':' || t2[k] == '.'))
    requires forall k :: 0 <= k < |t1| ==> (t1[k] == ':' <==> t2[k] == ':')
    requires StorageKey(slug, t1) == StorageKey(slug, t2)
    ensures t1 == t2
  {
    var key := StorageKey(slug, t1);
    assert SanitizeTimestamp(t1) == key[|slug| + 1..|key| - 4] == SanitizeTimestamp(t2);
    SanitizeInjectiveOnShape(t1, t2);
  }
}
