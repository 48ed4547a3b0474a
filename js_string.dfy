/**
 * The parts of JavaScript's String API the application relies on, on
 * `string` (a sequence of characters): `indexOf`/`includes`, `startsWith`,
 * `endsWith`, `split` and `join` with a one-character separator,
 * `replace` with a string pattern (first occurrence only), ASCII case
 * folding as a case-insensitive regular expression applies it to ASCII
 * patterns, and the decimal rendering and parsing of non-negative integers.
 */
module JsString {
  import opened Wrappers

  /** `t` occurs in `s` starting at index `i`. */
  predicate OccursAt(s: string, t: string, i: int) {
    0 <= i && i + |t| <= |s| && s[i..i + |t|] == t
  }

  predicate StartsWith(s: string, p: string) {
    |p| <= |s| && s[..|p|] == p
  }

  predicate EndsWith(s: string, p: string) {
    |p| <= |s| && s[|s| - |p|..] == p
  }

  /** `Math.min`, used for the end of a slice. */
  function Min(a: int, b: int): int { if a < b then a else b }

  /** `s.indexOf(t)`: the first index at which `t` occurs, or None (JavaScript's -1). */
  function IndexOf(s: string, t: string): (r: Option<nat>)
    ensures r.Some? ==> OccursAt(s, t, r.value)
    ensures r.Some? ==> forall j :: 0 <= j < r.value ==> !OccursAt(s, t, j)
    ensures r.None? ==> forall j :: 0 <= j <= |s| ==> !OccursAt(s, t, j)
    decreases |s|
  {
    if StartsWith(s, t) then
      assert s[0..|t|] == s[..|t|];
      Some(0)
    else if |s| <= |t| then
      assert !OccursAt(s, t, 0) by { if |t| <= |s| { assert s[0..|t|] == s[..|t|]; } }
      None
    else
      var rest := IndexOf(s[1..], t);
      assert !OccursAt(s, t, 0) by { assert s[0..|t|] == s[..|t|]; }
      assert forall j :: 1 <= j <= |s| ==> (OccursAt(s[1..], t, j - 1) <==> OccursAt(s, t, j)) by {
        forall j | 1 <= j <= |s| ensures OccursAt(s[1..], t, j - 1) <==> OccursAt(s, t, j) {
          if j + |t| <= |s| {
            assert s[1..][j - 1..j - 1 + |t|] == s[j..j + |t|];
          }
        }
      }
      match rest
      case Some(i) => Some(i + 1)
      case None => None
  }

  /** `s.includes(t)`. */
  predicate Contains(s: string, t: string) {
    IndexOf(s, t).Some?
  }

  lemma ContainsIff(s: string, t: string)
    ensures Contains(s, t) <==> exists i :: OccursAt(s, t, i)
  {
  }

  /**
   * `s.replace(pat, rep)` with a string pattern: only the FIRST occurrence
   * of `pat`, wherever it stands, is replaced; without one, `s` is returned.
   * (The replacements used here contain no `$` patterns.)
   */
  function ReplaceFirst(s: string, pat: string, rep: string): (r: string)
    ensures !Contains(s, pat) ==> r == s
    ensures Contains(s, pat) ==> |r| == |s| - |pat| + |rep|
  {
    match IndexOf(s, pat)
    case None => s
    case Some(i) => s[..i] + rep + s[i + |pat|..]
  }

  /** What `ReplaceFirst` returns when `pat` first occurs at `i`. */
  lemma ReplaceFirstAt(s: string, pat: string, rep: string, i: nat)
    requires OccursAt(s, pat, i)
    requires forall j :: 0 <= j < i ==> !OccursAt(s, pat, j)
    ensures ReplaceFirst(s, pat, rep) == s[..i] + rep + s[i + |pat|..]
  {
    var k := IndexOf(s, pat);
    assert k.Some?;
    assert !(k.value < i) && !(i < k.value);
  }

  /** Replacing a leading occurrence strips exactly that prefix. */
  lemma ReplaceLeading(pat: string, rest: string, rep: string)
    ensures ReplaceFirst(pat + rest, pat, rep) == rep + rest
  {
    var s := pat + rest;
    assert s[..|pat|] == pat;
    assert OccursAt(s, pat, 0);
    ReplaceFirstAt(s, pat, rep, 0);
    assert s[|pat|..] == rest;
  }

  /** `s.split(c)` for a one-character separator `c`. */
  function Split(s: string, c: char): (parts: seq<string>)
    ensures |parts| >= 1
    ensures forall k :: 0 <= k < |parts| ==> c !in parts[k]
    decreases |s|
  {
    if s == [] then [""]
    else
      var rest := Split(s[1..], c);
      if s[0] == c then [""] + rest
      else [[s[0]] + rest[0]] + rest[1..]
  }

  /** A piece ending at the first separator is the first part of the split. */
  lemma {:induction false} SplitFirstPart(a: string, t: string, c: char)
    requires c !in a && (t == [] || t[0] == c)
    ensures Split(a + t, c)[0] == a
    decreases |a|
  {
    if a != [] {
      assert (a + t)[1..] == a[1..] + t;
      SplitFirstPart(a[1..], t, c);
      assert [a[0]] + a[1..] == a;
    } else if t != [] {
      assert a + t == t;
    }
  }

  /** Splitting at the first separator peels off the part before it. */
  lemma {:induction false} SplitAtFirst(a: string, b: string, c: char)
    requires c !in a
    ensures Split(a + [c] + b, c) == [a] + Split(b, c)
    decreases |a|
  {
    if a == [] {
      assert a + [c] + b == [c] + b;
      assert ([c] + b)[1..] == b;
    } else {
      assert (a + [c] + b)[1..] == a[1..] + [c] + b;
      SplitAtFirst(a[1..], b, c);
      assert [a[0]] + a[1..] == a;
    }
  }

  /** `parts.join(c)`. */
  function Join(parts: seq<string>, c: char): string
    decreases |parts|
  {
    if |parts| == 0 then ""
    else if |parts| == 1 then parts[0]
    else parts[0] + [c] + Join(parts[1..], c)
  }

  /** The number of occurrences of the character `c` in `s`. */
  function CountChar(s: string, c: char): nat
    decreases |s|
  {
    if s == [] then 0 else (if s[0] == c then 1 else 0) + CountChar(s[1..], c)
  }

  /** Joining the pieces of a split gives back the string. */
  lemma {:induction false} JoinSplit(s: string, c: char)
    ensures Join(Split(s, c), c) == s
    decreases |s|
  {
    if s != [] {
      var rest := Split(s[1..], c);
      JoinSplit(s[1..], c);
      if s[0] == c {
        assert Split(s, c) == [""] + rest;
        assert ([""] + rest)[1..] == rest;
        assert Join(Split(s, c), c) == "" + [c] + Join(rest, c);
        assert [s[0]] + s[1..] == s;
      } else {
        var parts := [[s[0]] + rest[0]] + rest[1..];
        assert Split(s, c) == parts;
        if |rest| == 1 {
          assert Join(parts, c) == [s[0]] + rest[0];
          assert Join(rest, c) == rest[0];
        } else {
          assert parts[1..] == rest[1..];
          assert Join(parts, c) == [s[0]] + rest[0] + [c] + Join(rest[1..], c);
          assert Join(rest, c) == rest[0] + [c] + Join(rest[1..], c);
        }
        assert [s[0]] + s[1..] == s;
      }
    }
  }

  /** A split has one more piece than the string has separators. */
  lemma {:induction false} SplitCount(s: string, c: char)
    ensures |Split(s, c)| == CountChar(s, c) + 1
    decreases |s|
  {
    if s != [] {
      SplitCount(s[1..], c);
    }
  }

  lemma {:induction false} CountCharConcat(a: string, b: string, c: char)
    ensures CountChar(a + b, c) == CountChar(a, c) + CountChar(b, c)
    decreases |a|
  {
    if a == [] {
      assert a + b == b;
    } else {
      assert (a + b)[0] == a[0];
      assert (a + b)[1..] == a[1..] + b;
      CountCharConcat(a[1..], b, c);
    }
  }

  lemma {:induction false} CountCharAbsent(s: string, c: char)
    requires c !in s
    ensures CountChar(s, c) == 0
    decreases |s|
  {
    if s != [] {
      assert c !in s[1..] by { assert forall j :: 0 <= j < |s| - 1 ==> s[1..][j] == s[j + 1]; }
      CountCharAbsent(s[1..], c);
    }
  }

  /** Joining separator-free pieces puts exactly one separator between neighbours. */
  lemma {:induction false} CountCharJoin(parts: seq<string>, c: char)
    requires |parts| >= 1
    requires forall k :: 0 <= k < |parts| ==> c !in parts[k]
    ensures CountChar(Join(parts, c), c) == |parts| - 1
    decreases |parts|
  {
    CountCharAbsent(parts[0], c);
    if |parts| > 1 {
      CountCharJoin(parts[1..], c);
      CountCharConcat(parts[0], [c], c);
      CountCharConcat(parts[0] + [c], Join(parts[1..], c), c);
    }
  }

  /** Joining a leading run of the pieces gives a prefix of joining them all. */
  lemma {:induction false} JoinPrefix(parts: seq<string>, k: nat, c: char)
    requires 1 <= k <= |parts|
    ensures StartsWith(Join(parts, c), Join(parts[..k], c))
    decreases k
  {
    if k > 1 {
      JoinPrefix(parts[1..], k - 1, c);
      assert parts[..k][1..] == parts[1..][..k - 1];
      assert Join(parts[..k], c) == parts[0] + [c] + Join(parts[1..][..k - 1], c);
      assert Join(parts, c) == parts[0] + [c] + Join(parts[1..], c);
    } else {
      assert Join(parts[..1], c) == parts[0];
      if |parts| > 1 {
        assert Join(parts, c) == parts[0] + [c] + Join(parts[1..], c);
      }
    }
  }

  /** Joining one more piece appends a separator and that piece. */
  lemma {:induction false} JoinSnoc(ps: seq<string>, p: string, c: char)
    requires |ps| >= 1
    ensures Join(ps + [p], c) == Join(ps, c) + [c] + p
    decreases |ps|
  {
    if |ps| == 1 {
      assert (ps + [p])[1..] == [p];
    } else {
      assert (ps + [p])[1..] == ps[1..] + [p];
      JoinSnoc(ps[1..], p, c);
      assert Join(ps + [p], c) == ps[0] + [c] + (Join(ps[1..], c) + [c] + p);
    }
  }

  /** JavaScript's ASCII case folding: what `/pat/i` compares for an ASCII letter. */
  function AsciiLowerChar(ch: char): (r: char)
    ensures 'A' <= ch <= 'Z' ==> r != ch && 'a' <= r <= 'z'
    ensures !('A' <= ch <= 'Z') ==> r == ch
  {
    if 'A' <= ch <= 'Z' then (ch as int - 'A' as int + 'a' as int) as char else ch
  }

  function AsciiLower(s: string): (r: string)
    ensures |r| == |s|
    ensures forall k :: 0 <= k < |s| ==> r[k] == AsciiLowerChar(s[k])
    decreases |s|
  {
    if s == [] then [] else [AsciiLowerChar(s[0])] + AsciiLower(s[1..])
  }

  /** `/pat/i.test(s)` for a lower-case ASCII `pat`. */
  predicate ContainsIgnoringCase(s: string, pat: string) {
    Contains(AsciiLower(s), pat)
  }

  predicate IsDigit(ch: char) {
    '0' <= ch <= '9'
  }

  predicate IsDigits(s: string) {
    forall k :: 0 <= k < |s| ==> IsDigit(s[k])
  }

  function DigitChar(d: nat): (ch: char)
    requires d < 10
    ensures IsDigit(ch) && ch as int - '0' as int == d
  {
    ('0' as int + d) as char
  }

  /** The decimal text of `n`, as JavaScript renders an integer Number in a template literal. */
  function NatToDecimal(n: nat): (s: string)
    ensures |s| >= 1 && IsDigits(s)
    ensures |s| > 1 ==> s[0] != '0'
    decreases n
  {
    if n < 10 then [DigitChar(n)] else NatToDecimal(n / 10) + [DigitChar(n % 10)]
  }

  /** The value of a string of decimal digits (leading zeros allowed; the empty string is 0, as `Number("")`). */
  function ParseDecimal(s: string): nat
    requires IsDigits(s)
    decreases |s|
  {
    if s == [] then 0 else ParseDecimal(s[..|s| - 1]) * 10 + (s[|s| - 1] as int - '0' as int)
  }

  /** Parsing the decimal text of a number gives the number back. */
  lemma {:induction false} DecimalRoundTrip(n: nat)
    ensures ParseDecimal(NatToDecimal(n)) == n
    decreases n
  {
    var s := NatToDecimal(n);
    if n >= 10 {
      DecimalRoundTrip(n / 10);
      assert s[..|s| - 1] == NatToDecimal(n / 10);
    }
  }

  /** Distinct numbers have distinct decimal texts. */
  lemma DecimalInjective(a: nat, b: nat)
    requires NatToDecimal(a) == NatToDecimal(b)
    ensures a == b
  {
    DecimalRoundTrip(a);
    DecimalRoundTrip(b);
  }

  /** When two decompositions of one string split at different lengths and the
    * longer first part is all digits, the shorter one is followed by a digit. */
  lemma DigitAtShorterEnd(a: string, sep: string, t: string, b: string, r: string)
    requires IsDigits(b) && |sep| >= 1 && a + sep + t == b + r
    ensures |a| < |b| ==> IsDigit(sep[0])
  {
    if |a| < |b| {
      assert (a + sep + t)[|a|] == sep[0];
      assert (b + r)[|a|] == b[|a|];
    }
  }

  /** Digit strings followed by a separator that starts with a non-digit split back apart uniquely. */
  lemma DigitsBeforeSeparator(s1: string, t1: string, s2: string, t2: string, sep: string)
    requires IsDigits(s1) && IsDigits(s2) && |sep| >= 1 && !IsDigit(sep[0])
    requires s1 + sep + t1 == s2 + sep + t2
    ensures s1 == s2 && t1 == t2
  {
    var l1, l2 := s1 + sep + t1, s2 + sep + t2;
    DigitAtShorterEnd(s1, sep, t1, s2, sep + t2);
    DigitAtShorterEnd(s2, sep, t2, s1, sep + t1);
    assert s1 == l1[..|s1|] && s2 == l2[..|s2|];
    assert t1 == l1[|s1| + |sep|..] && t2 == l2[|s2| + |sep|..];
  }

  /** Two numbers written with a separator between them can be read back when the separator starts with a non-digit. */
  lemma DecimalPairInjective(a1: nat, b1: nat, a2: nat, b2: nat, sep: string)
    requires |sep| >= 1 && !IsDigit(sep[0])
    requires NatToDecimal(a1) + sep + NatToDecimal(b1) == NatToDecimal(a2) + sep + NatToDecimal(b2)
    ensures a1 == a2 && b1 == b2
  {
    DigitsBeforeSeparator(NatToDecimal(a1), NatToDecimal(b1), NatToDecimal(a2), NatToDecimal(b2), sep);
    DecimalInjective(a1, a2);
    DecimalInjective(b1, b2);
  }

  /** Strings that share a prefix and a suffix are equal when what lies between is. */
  lemma Cancel(p: string, x: string, y: string, q: string)
    requires p + x + q == p + y + q
    ensures x == y
  {
    var l := p + x + q;
    assert |x| == |y|;
    assert x == l[|p|..|p| + |x|];
    assert y == (p + y + q)[|p|..|p| + |y|];
  }
}
