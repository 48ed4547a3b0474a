/**
 * The two helpers that the visitor-tracking hook and the user-info page
 * both define, with the same text: masking a visitor's IP address and
 * classifying the browser, operating system and device from the
 * user-agent string. Each first-match chain is also given as a rule table
 * with a generic first-match reading, and the two are proved to agree.
 */
module ClientInfo {
  import opened JsString

  // ---------------------------------------------------------------------
  // IP masking
  // ---------------------------------------------------------------------

  /** `maskIP` on a non-empty address: dotted quad, then IPv6, then halving. */
  function MaskAddress(ip: string): string {
    var parts := Split(ip, '.');
    if |parts| == 4 then parts[0] + "." + parts[1] + ".***.***"
    else if Contains(ip, ":") then
      var v6parts := Split(ip, ':');
      Join(v6parts[..Min(3, |v6parts|)], ':') + ":****:****"
    else ip[..|ip| / 2] + "****"
  }

  /** An address splits into four dotted parts exactly when it has three dots. */
  lemma DottedQuadIff(ip: string)
    ensures |Split(ip, '.')| == 4 <==> CountChar(ip, '.') == 3
  {
    SplitCount(ip, '.');
  }

  /** The text of the first two pieces of a split, with the separator that follows them. */
  lemma {:induction false} SplitLeadingPieces(s: string, c: char) returns (k: nat)
    requires |Split(s, c)| >= 3
    ensures k == |Split(s, c)[0]| + 1 + |Split(s, c)[1]|
    ensures k < |s| && s[..k] == Split(s, c)[0] + [c] + Split(s, c)[1] && s[k] == c
    ensures CountChar(s[..k], c) == 1
  {
    var parts := Split(s, c);
    JoinSplit(s, c);
    var kept := parts[0] + [c] + parts[1];
    assert Join(parts[..2], c) == kept by {
      assert parts[..2][1..] == [parts[1]];
    }
    assert Join(parts[..3], c) == kept + [c] + parts[2] by {
      assert parts[..3][1..] == parts[1..3];
      assert parts[1..3][1..] == [parts[2]];
      assert Join(parts[1..3], c) == parts[1] + [c] + parts[2];
    }
    JoinPrefix(parts, 3, c);
    k := |kept|;
    assert s[..k] == kept;
    assert s[k] == (kept + [c] + parts[2])[k];
    CountCharJoin(parts[..2], c);
  }

  /** A dotted quad keeps exactly its text up to the second dot; the rest becomes ".***.***". */
  lemma MaskDottedQuad(ip: string)
    requires CountChar(ip, '.') == 3
    ensures exists k :: 0 <= k < |ip| && ip[k] == '.' && CountChar(ip[..k], '.') == 1 &&
                        MaskAddress(ip) == ip[..k] + ".***.***"
  {
    var parts := Split(ip, '.');
    DottedQuadIff(ip);
    var k := SplitLeadingPieces(ip, '.');
    assert MaskAddress(ip) == ip[..k] + ".***.***";
  }

  /**
   * Joining the first (up to) three pieces of a split gives the prefix of
   * the string that ends just before its third separator, or the whole
   * string when it has at most two.
   */
  lemma SplitLeadingThree(s: string, c: char) returns (k: nat)
    ensures k == |Join(Split(s, c)[..Min(3, |Split(s, c)|)], c)|
    ensures k <= |s| && s[..k] == Join(Split(s, c)[..Min(3, |Split(s, c)|)], c)
    ensures CountChar(s[..k], c) <= 2
    ensures (CountChar(s, c) <= 2 && k == |s|) || (k < |s| && s[k] == c && CountChar(s[..k], c) == 2)
  {
    var parts := Split(s, c);
    var n := Min(3, |parts|);
    JoinSplit(s, c);
    SplitCount(s, c);
    JoinPrefix(parts, n, c);
    CountCharJoin(parts[..n], c);
    k := |Join(parts[..n], c)|;
    if |parts| <= 3 {
      assert parts[..n] == parts;
    } else {
      var kept := Join(parts[..3], c);
      assert parts[..4] == parts[..3] + [parts[3]];
      JoinSnoc(parts[..3], parts[3], c);
      JoinPrefix(parts, 4, c);
      assert s[..|kept| + 1 + |parts[3]|] == kept + [c] + parts[3];
      assert s[k] == (kept + [c] + parts[3])[k];
    }
  }

  /**
   * An address with a colon (and not four dotted parts) keeps its first
   * three colon-separated groups: the text before its third colon, or all
   * of it when it has at most two.
   */
  lemma MaskColonAddress(ip: string)
    requires CountChar(ip, '.') != 3 && Contains(ip, ":")
    ensures exists k :: 0 <= k <= |ip| && CountChar(ip[..k], ':') <= 2 &&
                        ((CountChar(ip, ':') <= 2 && k == |ip|) || (k < |ip| && ip[k] == ':' && CountChar(ip[..k], ':') == 2)) &&
                        MaskAddress(ip) == ip[..k] + ":****:****"
  {
    DottedQuadIff(ip);
    var k := SplitLeadingThree(ip, ':');
    assert MaskAddress(ip) == ip[..k] + ":****:****";
  }

  /** Any other address keeps its first half. */
  lemma MaskOtherAddress(ip: string)
    requires CountChar(ip, '.') != 3 && !Contains(ip, ":")
    ensures MaskAddress(ip) == ip[..|ip| / 2] + "****"
  {
    DottedQuadIff(ip);
  }

  // ---------------------------------------------------------------------
  // User-agent classification
  // ---------------------------------------------------------------------

  /** A rule matches when any of its tokens occurs in the user agent. */
  datatype Rule = Rule(tokens: seq<string>, name: string)

  predicate RuleMatches(r: Rule, ua: string) {
    exists k :: 0 <= k < |r.tokens| && Contains(ua, r.tokens[k])
  }

  /** The name of the first rule from position `from` on that matches, or `fallback` when none does. */
  function FirstMatchFrom(rules: seq<Rule>, from: nat, ua: string, fallback: string): string
    decreases |rules| - from
  {
    if from >= |rules| then fallback
    else if RuleMatches(rules[from], ua) then rules[from].name
    else FirstMatchFrom(rules, from + 1, ua, fallback)
  }

  /** The name of the first matching rule, or `fallback` when none matches. */
  function FirstMatch(rules: seq<Rule>, ua: string, fallback: string): string {
    FirstMatchFrom(rules, 0, ua, fallback)
  }

  /** Rule i decides when it matches and no rule between `from` and i does. */
  lemma {:induction false} FirstMatchFromPicks(rules: seq<Rule>, from: nat, ua: string, fallback: string, i: nat)
    requires from <= i < |rules| && RuleMatches(rules[i], ua)
    requires forall j :: from <= j < i ==> !RuleMatches(rules[j], ua)
    ensures FirstMatchFrom(rules, from, ua, fallback) == rules[i].name
    decreases i - from
  {
    if from < i {
      FirstMatchFromPicks(rules, from + 1, ua, fallback, i);
    }
  }

  /** Rule i decides when it matches and no earlier rule does. */
  lemma FirstMatchPicks(rules: seq<Rule>, ua: string, fallback: string, i: nat)
    requires i < |rules| && RuleMatches(rules[i], ua)
    requires forall j :: 0 <= j < i ==> !RuleMatches(rules[j], ua)
    ensures FirstMatch(rules, ua, fallback) == rules[i].name
  {
    FirstMatchFromPicks(rules, 0, ua, fallback, i);
  }

  /** From position `from` on, the fallback is the answer exactly when no rule matches. */
  lemma {:induction false} FirstMatchFromFallback(rules: seq<Rule>, from: nat, ua: string, fallback: string)
    requires forall j :: 0 <= j < |rules| ==> rules[j].name != fallback
    ensures FirstMatchFrom(rules, from, ua, fallback) == fallback <==>
            forall j :: from <= j < |rules| ==> !RuleMatches(rules[j], ua)
    decreases |rules| - from
  {
    if from < |rules| {
      FirstMatchFromFallback(rules, from + 1, ua, fallback);
    }
  }

  /** The fallback is the answer exactly when no rule matches (given that no rule is named like it). */
  lemma FirstMatchFallback(rules: seq<Rule>, ua: string, fallback: string)
    requires forall j :: 0 <= j < |rules| ==> rules[j].name != fallback
    ensures FirstMatch(rules, ua, fallback) == fallback <==> forall j :: 0 <= j < |rules| ==> !RuleMatches(rules[j], ua)
  {
    FirstMatchFromFallback(rules, 0, ua, fallback);
  }

  const BrowserRules: seq<Rule> := [
    Rule(["Firefox"], "Firefox"), Rule(["Edg"], "Microsoft Edge"), Rule(["Chrome"], "Chrome"),
    Rule(["Safari"], "Safari"), Rule(["Opera", "OPR"], "Opera")]

  const OsRules: seq<Rule> := [
    Rule(["Windows NT 10"], "Windows 10/11"), Rule(["Windows"], "Windows"), Rule(["Mac OS X"], "macOS"),
    Rule(["Linux"], "Linux"), Rule(["Android"], "Android"), Rule(["iPhone", "iPad"], "iOS")]

  function Browser(ua: string): string {
    if Contains(ua, "Firefox") then "Firefox"
    else if Contains(ua, "Edg") then "Microsoft Edge"
    else if Contains(ua, "Chrome") then "Chrome"
    else if Contains(ua, "Safari") then "Safari"
    else if Contains(ua, "Opera") || Contains(ua, "OPR") then "Opera"
    else "Unknown"
  }

  function Os(ua: string): string {
    if Contains(ua, "Windows NT 10") then "Windows 10/11"
    else if Contains(ua, "Windows") then "Windows"
    else if Contains(ua, "Mac OS X") then "macOS"
    else if Contains(ua, "Linux") then "Linux"
    else if Contains(ua, "Android") then "Android"
    else if Contains(ua, "iPhone") || Contains(ua, "iPad") then "iOS"
    else "Unknown"
  }

  /** `/Mobi|Android/i` wins over `/Tablet|iPad/i`; neither gives "Desktop". */
  function Device(ua: string): string {
    if ContainsIgnoringCase(ua, "mobi") || ContainsIgnoringCase(ua, "android") then "Mobile"
    else if ContainsIgnoringCase(ua, "tablet") || ContainsIgnoringCase(ua, "ipad") then "Tablet"
    else "Desktop"
  }

  lemma RuleMatchesOne(r: Rule, ua: string)
    requires |r.tokens| == 1
    ensures RuleMatches(r, ua) <==> Contains(ua, r.tokens[0])
  {
  }

  lemma RuleMatchesTwo(r: Rule, ua: string)
    requires |r.tokens| == 2
    ensures RuleMatches(r, ua) <==> Contains(ua, r.tokens[0]) || Contains(ua, r.tokens[1])
  {
  }

  /** The browser chain is the first match over BrowserRules. */
  lemma BrowserIsFirstMatch(ua: string)
    ensures Browser(ua) == FirstMatch(BrowserRules, ua, "Unknown")
  {
    var rs := BrowserRules;
    RuleMatchesOne(rs[0], ua);
    RuleMatchesOne(rs[1], ua);
    RuleMatchesOne(rs[2], ua);
    RuleMatchesOne(rs[3], ua);
    RuleMatchesTwo(rs[4], ua);
    if RuleMatches(rs[0], ua) {
      FirstMatchPicks(rs, ua, "Unknown", 0);
    } else if RuleMatches(rs[1], ua) {
      FirstMatchPicks(rs, ua, "Unknown", 1);
    } else if RuleMatches(rs[2], ua) {
      FirstMatchPicks(rs, ua, "Unknown", 2);
    } else if RuleMatches(rs[3], ua) {
      FirstMatchPicks(rs, ua, "Unknown", 3);
    } else if RuleMatches(rs[4], ua) {
      FirstMatchPicks(rs, ua, "Unknown", 4);
    } else {
      FirstMatchFallback(rs, ua, "Unknown");
    }
  }

  /** The OS chain is the first match over OsRules. */
  lemma OsIsFirstMatch(ua: string)
    ensures Os(ua) == FirstMatch(OsRules, ua, "Unknown")
  {
    var rs := OsRules;
    RuleMatchesOne(rs[0], ua);
    if Contains(ua, "Windows NT 10") {
      FirstMatchPicks(rs, ua, "Unknown", 0);
      return;
    }
    RuleMatchesOne(rs[1], ua);
    if Contains(ua, "Windows") {
      FirstMatchPicks(rs, ua, "Unknown", 1);
      return;
    }
    RuleMatchesOne(rs[2], ua);
    if Contains(ua, "Mac OS X") {
      FirstMatchPicks(rs, ua, "Unknown", 2);
      return;
    }
    RuleMatchesOne(rs[3], ua);
    if Contains(ua, "Linux") {
      FirstMatchPicks(rs, ua, "Unknown", 3);
      return;
    }
    RuleMatchesOne(rs[4], ua);
    if Contains(ua, "Android") {
      FirstMatchPicks(rs, ua, "Unknown", 4);
      return;
    }
    RuleMatchesTwo(rs[5], ua);
    if Contains(ua, "iPhone") || Contains(ua, "iPad") {
      FirstMatchPicks(rs, ua, "Unknown", 5);
    } else {
      FirstMatchFallback(rs, ua, "Unknown");
    }
  }

  /** "Unknown" browser exactly when none of the five browser tokens occurs. */
  lemma BrowserUnknownIff(ua: string)
    ensures Browser(ua) == "Unknown" <==>
      !Contains(ua, "Firefox") && !Contains(ua, "Edg") && !Contains(ua, "Chrome") &&
      !Contains(ua, "Safari") && !Contains(ua, "Opera") && !Contains(ua, "OPR")
  {
  }

  /** "Linux" is tested before "Android", so an Android agent (which names Linux too) is reported as Linux. */
  lemma AndroidReportedAsLinux(ua: string)
    requires Contains(ua, "Linux") && Contains(ua, "Android")
    requires !Contains(ua, "Windows NT 10") && !Contains(ua, "Windows") && !Contains(ua, "Mac OS X")
    ensures Os(ua) == "Linux"
  {
  }

  /** Device classes: Mobile when a mobile token occurs in any letter case, else Tablet on a tablet token, else Desktop. */
  lemma DeviceIff(ua: string)
    ensures Device(ua) == "Mobile" <==> ContainsIgnoringCase(ua, "mobi") || ContainsIgnoringCase(ua, "android")
    ensures Device(ua) == "Tablet" <==>
      !ContainsIgnoringCase(ua, "mobi") && !ContainsIgnoringCase(ua, "android") &&
      (ContainsIgnoringCase(ua, "tablet") || ContainsIgnoringCase(ua, "ipad"))
    ensures Device(ua) in {"Mobile", "Tablet", "Desktop"}
  {
  }

  /** Case does not matter to the device test: folding the agent first changes nothing. */
  lemma {:induction false} DeviceIgnoresCase(ua: string)
    ensures Device(AsciiLower(ua)) == Device(ua)
  {
    var l := AsciiLower(ua);
    assert AsciiLower(l) == l by {
      forall k | 0 <= k < |l| ensures AsciiLower(l)[k] == l[k] { }
    }
  }
}
