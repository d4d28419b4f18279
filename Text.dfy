/**
 * String helpers shared by the model: JavaScript truthiness of optional
 * strings, `String.prototype.trim`, `split('@')[0]`, `substring(0, n)`,
 * `startsWith`, ASCII upper-casing and decimal rendering of integers.
 */
module Text {
  import opened Wrappers

  /** JavaScript truthiness of an optional string: present and non-empty. */
  predicate Truthy(s: Option<string>) {
    s.Some? && s.value != ""
  }

  /** `a || b` on optional strings. */
  function Or(a: Option<string>, b: string): (r: string)
    ensures Truthy(a) ==> r == a.value
    ensures !Truthy(a) ==> r == b
  {
    if Truthy(a) then a.value else b
  }

  /**
   * The characters `trim` removes: the ECMAScript WhiteSpace set (tab, vertical tab,
   * form feed, the byte-order mark and every space separator) and the line terminators.
   */
  predicate IsSpace(c: char) {
    c == ' ' || c == '\t' || c == '\n' || c == '\r' || c == '\U{B}' || c == '\U{C}'
    || c == '\U{A0}' || c == '\U{1680}' || ('\U{2000}' <= c <= '\U{200A}') || c == '\U{202F}'
    || c == '\U{205F}' || c == '\U{3000}' || c == '\U{FEFF}' || c == '\U{2028}' || c == '\U{2029}'
  }

  /** `v || null` on an optional string. */
  function OrNull(v: Option<string>): (r: Option<string>)
    ensures Truthy(v) ==> r == v
    ensures !Truthy(v) ==> r.None?
  {
    if Truthy(v) then v else None
  }

  predicate AllSpace(s: string) {
    forall k :: 0 <= k < |s| ==> IsSpace(s[k])
  }

  /** Neither end of `s` is white space. */
  predicate IsTrimmed(s: string) {
    s == "" || (!IsSpace(s[0]) && !IsSpace(s[|s| - 1]))
  }

  /** Number of leading white-space characters. */
  function Leading(s: string): (n: nat)
    ensures n <= |s|
    ensures AllSpace(s[..n])
    ensures n < |s| ==> !IsSpace(s[n])
  {
    if s == [] || !IsSpace(s[0]) then 0
    else
      var m := Leading(s[1..]);
      assert s[1..][..m] == s[1..m + 1];
      1 + m
  }

  /** Number of trailing white-space characters. */
  function Trailing(s: string): (n: nat)
    ensures n <= |s|
    ensures AllSpace(s[|s| - n..])
    ensures n < |s| ==> !IsSpace(s[|s| - 1 - n])
  {
    if s == [] || !IsSpace(s[|s| - 1]) then 0
    else
      var m := Trailing(s[..|s| - 1]);
      assert s[..|s| - 1][|s| - 1 - m..] == s[|s| - 1 - m..|s| - 1];
      1 + m
  }

  /** `s.trim()`: `s` without its leading and trailing white space. */
  function Trim(s: string): (r: string)
    ensures IsTrimmed(r)
    ensures |r| <= |s|
    ensures r == "" <==> AllSpace(s)
    ensures Leading(s) + |r| <= |s| && r == s[Leading(s)..Leading(s) + |r|]
    ensures AllSpace(s[Leading(s) + |r|..])
  {
    var a := Leading(s);
    var t := s[a..];
    var b := Trailing(t);
    TrimFacts(s, a, b);
    t[..|t| - b]
  }

  /** The properties of `Trim`, for the string left between the leading and the trailing run. */
  lemma TrimFacts(s: string, a: nat, b: nat)
    requires a == Leading(s) && b == Trailing(s[a..])
    ensures var t := s[a..]; var r := t[..|t| - b];
      && IsTrimmed(r) && |r| <= |s| && (r == "" <==> AllSpace(s))
      && a + |r| <= |s| && r == s[a..a + |r|] && AllSpace(s[a + |r|..])
  {
    var t := s[a..];
    var r := t[..|t| - b];
    assert IsTrimmed(r) by { TrimEnds(s, a, b); }
    assert r == "" <==> AllSpace(s) by { TrimEmptyIff(s, a, b); }
    assert a + |r| <= |s| && r == s[a..a + |r|] && AllSpace(s[a + |r|..]) by {
      TrimSlices(s, a, b);
    }
  }

  /** The slices `Trim` is made of, as slices of the input. */
  lemma TrimSlices(s: string, a: nat, b: nat)
    requires a <= |s| && b <= |s| - a
    ensures var t := s[a..]; var r := t[..|t| - b];
      r == s[a..a + |r|] && s[a + |r|..] == t[|t| - b..] && |r| <= |s|
  {
  }

  /** After the leading run, the trailing run takes everything exactly when the input is all white space. */
  lemma TrimEmptyIff(s: string, a: nat, b: nat)
    requires a == Leading(s) && b == Trailing(s[a..])
    ensures b == |s| - a <==> AllSpace(s)
  {
    if a == |s| {
      LeadingAll(s);
    } else {
      LeadingStops(s);
    }
  }

  /** A leading run over the whole string means it is all white space. */
  lemma LeadingAll(s: string)
    requires Leading(s) == |s|
    ensures AllSpace(s) && Trailing(s[|s|..]) == 0
  {
    assert s[..|s|] == s;
  }

  /** A leading run that stops early leaves a string that is not all white space and has a non-space end. */
  lemma LeadingStops(s: string)
    requires Leading(s) < |s|
    ensures !AllSpace(s) && Trailing(s[Leading(s)..]) < |s| - Leading(s)
  {
    var a := Leading(s);
    var t := s[a..];
    assert t[0] == s[a];
    TrailingShort(t);
    assert !IsSpace(s[a]);
  }

  /** A string that starts with a non-space character is never all trailing white space. */
  lemma {:induction false} TrailingShort(t: string)
    requires t != [] && !IsSpace(t[0])
    ensures Trailing(t) < |t|
  {
    if IsSpace(t[|t| - 1]) {
      var u := t[..|t| - 1];
      assert u[0] == t[0];
      TrailingShort(u);
    }
  }

  /** A non-empty result begins after the leading run and ends before the trailing run. */
  lemma TrimEnds(s: string, a: nat, b: nat)
    requires a == Leading(s) && b == Trailing(s[a..])
    ensures var t := s[a..]; IsTrimmed(t[..|t| - b])
  {
    var t := s[a..];
    var r := t[..|t| - b];
    if r != [] {
      assert r[0] == t[0] == s[a];
      assert r[|r| - 1] == t[|t| - 1 - b];
    }
  }

  lemma {:induction false} TrimmedTrim(s: string)
    requires IsTrimmed(s)
    ensures Trim(s) == s
  {
    if s != "" {
      assert Leading(s) == 0;
      assert s[0..] == s;
      assert Trailing(s) == 0;
    }
  }

  /** Trimming twice is trimming once. */
  lemma TrimIdempotent(s: string)
    ensures Trim(Trim(s)) == Trim(s)
  {
    TrimmedTrim(Trim(s));
  }

  /** `email.split('@')[0]`: everything before the first '@' (all of it when there is none). */
  function LocalPart(email: string): (r: string)
    ensures '@' !in r
    ensures r <= email
    ensures |r| < |email| ==> email[|r|] == '@'
  {
    if email == [] || email[0] == '@' then []
    else [email[0]] + LocalPart(email[1..])
  }

  lemma {:induction false} LocalPartOfAddress(user: string, domain: string)
    requires '@' !in user
    ensures LocalPart(user + "@" + domain) == user
  {
    if user != [] {
      assert (user + "@" + domain)[1..] == user[1..] + "@" + domain;
      LocalPartOfAddress(user[1..], domain);
    }
  }

  /** `s.substring(0, n)` for `n >= 0`. */
  function Take(s: string, n: nat): (r: string)
    ensures r <= s
    ensures |r| == if n < |s| then n else |s|
  {
    if n < |s| then s[..n] else s
  }

  /** `s.startsWith(p)`. */
  predicate StartsWith(s: string, p: string)
    ensures StartsWith(s, p) <==> |p| <= |s| && s[..|p|] == p
  {
    p <= s
  }

  function UpperChar(c: char): (u: char)
    ensures 'a' <= c <= 'z' ==> u as int == c as int - 32
    ensures !('a' <= c <= 'z') ==> u == c
  {
    if 'a' <= c <= 'z' then (c as int - 32) as char else c
  }

  /** `s.toUpperCase()` restricted to ASCII letters. */
  function ToUpper(s: string): (r: string)
    ensures |r| == |s|
    ensures forall k :: 0 <= k < |s| ==> r[k] == UpperChar(s[k])
  {
    if s == [] then [] else [UpperChar(s[0])] + ToUpper(s[1..])
  }

  predicate IsDigit(c: char) {
    '0' <= c <= '9'
  }

  function Digit(d: nat): (c: char)
    requires d < 10
    ensures IsDigit(c) && c as int - '0' as int == d
  {
    ('0' as int + d) as char
  }

  /** Decimal rendering of a natural number, as `String(n)` prints it. */
  function NatToString(n: nat): (r: string)
    ensures |r| >= 1
    ensures forall k :: 0 <= k < |r| ==> IsDigit(r[k])
    ensures |r| > 1 ==> r[0] != '0'
    decreases n
  {
    if n < 10 then [Digit(n)] else NatToString(n / 10) + [Digit(n % 10)]
  }

  /** The value of a string of decimal digits. */
  function DigitsValue(s: string): nat
    requires forall k :: 0 <= k < |s| ==> IsDigit(s[k])
  {
    if s == [] then 0
    else
      assert IsDigit(s[|s| - 1]);
      10 * DigitsValue(s[..|s| - 1]) + (s[|s| - 1] as int - '0' as int)
  }

  /** Reading the printed number back gives the number. */
  lemma {:induction false} NatToStringRoundTrip(n: nat)
    ensures DigitsValue(NatToString(n)) == n
    decreases n
  {
    if n >= 10 {
      var r := NatToString(n);
      assert r[..|r| - 1] == NatToString(n / 10);
      NatToStringRoundTrip(n / 10);
    }
  }

  /** Different numbers print differently. */
  lemma NatToStringInjective(m: nat, n: nat)
    requires NatToString(m) == NatToString(n)
    ensures m == n
  {
    NatToStringRoundTrip(m);
    NatToStringRoundTrip(n);
  }

  /** `String(i)` for any integer. */
  function IntToString(i: int): (r: string)
    ensures i >= 0 ==> r == NatToString(i)
    ensures i < 0 ==> r == "-" + NatToString(-i)
  {
    if i >= 0 then NatToString(i) else "-" + NatToString(-i)
  }

  /** Different integers print differently: the sign is the first character. */
  lemma IntToStringInjective(i: int, j: int)
    requires IntToString(i) == IntToString(j)
    ensures i == j
  {
    assert (IntToString(i)[0] == '-') == (i < 0);
    assert (IntToString(j)[0] == '-') == (j < 0);
    if i < 0 {
      assert IntToString(i)[1..] == NatToString(-i);
      assert IntToString(j)[1..] == NatToString(-j);
      NatToStringInjective(-i, -j);
    } else {
      NatToStringInjective(i, j);
    }
  }

  /** A decimal rendering holds no colon. */
  lemma IntToStringNoColon(i: int)
    ensures ':' !in IntToString(i)
  {
    var r := IntToString(i);
    forall k | 0 <= k < |r| ensures r[k] != ':' {
      if i < 0 && k > 0 {
        assert r[k] == NatToString(-i)[k - 1];
      }
    }
  }
}
