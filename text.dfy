/**
 * String helpers of src/app.js: the UUID shape check, HTML escaping
 * (duplicated verbatim in src/js/category.js) and trailing-slash removal.
 */
module Text {
  import opened Wrappers

  // ---------------------------------------------------------------------------
  // isUUID: /^[0-9a-f]{8}-[0-9a-f]{4}-[0-9a-f]{4}-[0-9a-f]{4}-[0-9a-f]{12}$/i
  // ---------------------------------------------------------------------------

  /** One character of the class `[0-9a-f]` under the `i` flag. */
  predicate IsHexDigit(c: char) {
    ('0' <= c <= '9') || ('a' <= c <= 'f') || ('A' <= c <= 'F')
  }

  /** Positions of the four dashes in an 8-4-4-4-12 layout. */
  predicate IsDashPosition(i: int) {
    i == 8 || i == 13 || i == 18 || i == 23
  }

  /** The regular expression, read position by position over a 36-character string. */
  predicate IsUUID(v: string) {
    |v| == 36 &&
    forall i :: 0 <= i < 36 ==> if IsDashPosition(i) then v[i] == '-' else IsHexDigit(v[i])
  }

  predicate AllHex(s: string) {
    forall i :: 0 <= i < |s| ==> IsHexDigit(s[i])
  }

  /** The textual UUID built from its five groups. */
  function JoinGroups(a: string, b: string, c: string, d: string, e: string): string {
    a + "-" + b + "-" + c + "-" + d + "-" + e
  }

  /** Five hex groups of lengths 8, 4, 4, 4 and 12 joined by dashes pass the check. */
  lemma JoinedGroupsAreUUID(a: string, b: string, c: string, d: string, e: string)
    requires |a| == 8 && |b| == 4 && |c| == 4 && |d| == 4 && |e| == 12
    requires AllHex(a) && AllHex(b) && AllHex(c) && AllHex(d) && AllHex(e)
    ensures IsUUID(JoinGroups(a, b, c, d, e))
  {
    var v := JoinGroups(a, b, c, d, e);
    forall i | 0 <= i < 36
      ensures if IsDashPosition(i) then v[i] == '-' else IsHexDigit(v[i])
    {
      if i < 8 { assert v[i] == a[i]; }
      else if 8 < i < 13 { assert v[i] == b[i - 9]; }
      else if 13 < i < 18 { assert v[i] == c[i - 14]; }
      else if 18 < i < 23 { assert v[i] == d[i - 19]; }
      else if 23 < i { assert v[i] == e[i - 24]; }
    }
  }

  /** Conversely, every string that passes the check is five such groups. */
  lemma UUIDHasGroups(v: string)
    requires IsUUID(v)
    ensures v == JoinGroups(v[..8], v[9..13], v[14..18], v[19..23], v[24..])
    ensures AllHex(v[..8]) && AllHex(v[9..13]) && AllHex(v[14..18]) && AllHex(v[19..23]) && AllHex(v[24..])
  {
    var w := JoinGroups(v[..8], v[9..13], v[14..18], v[19..23], v[24..]);
    assert |w| == 36;
    forall i | 0 <= i < 36 ensures w[i] == v[i] {
      assert if IsDashPosition(i) then v[i] == '-' else IsHexDigit(v[i]);
    }
    assert forall i :: 0 <= i < 8 ==> v[..8][i] == v[i];
    assert forall i :: 0 <= i < 4 ==> v[9..13][i] == v[i + 9];
    assert forall i :: 0 <= i < 4 ==> v[14..18][i] == v[i + 14];
    assert forall i :: 0 <= i < 4 ==> v[19..23][i] == v[i + 19];
    assert forall i :: 0 <= i < 12 ==> v[24..][i] == v[i + 24];
  }

  // ---------------------------------------------------------------------------
  // escapeHtml: five chained replaceAll calls, '&' first
  // ---------------------------------------------------------------------------

  /** `s.replaceAll(c, rep)` for a one-character pattern, scanning left to right. */
  function ReplaceAll(s: string, c: char, rep: string): string {
    if s == [] then []
    else (if s[0] == c then rep else [s[0]]) + ReplaceAll(s[1..], c, rep)
  }

  /** `escapeHtml(s)` on the string `String(s ?? "")`, exactly as the chain is written. */
  function EscapeHtml(s: string): string {
    ReplaceAll(ReplaceAll(ReplaceAll(ReplaceAll(ReplaceAll(s,
      '&', "&amp;"), '<', "&lt;"), '>', "&gt;"), '"', "&quot;"), '\'', "&#039;")
  }

  /** `escapeHtml(v)` for a value that may be null or undefined. */
  function EscapeHtmlValue(v: Option<string>): string {
    EscapeHtml(v.GetOr(""))
  }

  /** Reference definition: the entity that stands for one character. */
  function Entity(c: char): string {
    if c == '&' then "&amp;"
    else if c == '<' then "&lt;"
    else if c == '>' then "&gt;"
    else if c == '"' then "&quot;"
    else if c == '\'' then "&#039;"
    else [c]
  }

  /** Reference definition: each character replaced by its entity. */
  function EscapeEach(s: string): string {
    if s == [] then [] else Entity(s[0]) + EscapeEach(s[1..])
  }

  predicate IsSpecial(c: char) {
    c == '<' || c == '>' || c == '"' || c == '\''
  }

  lemma {:induction false} ReplaceAllAppend(a: string, b: string, c: char, rep: string)
    ensures ReplaceAll(a + b, c, rep) == ReplaceAll(a, c, rep) + ReplaceAll(b, c, rep)
  {
    if a == [] {
      assert a + b == b;
    } else {
      assert (a + b)[0] == a[0];
      assert (a + b)[1..] == a[1..] + b;
      ReplaceAllAppend(a[1..], b, c, rep);
    }
  }

  lemma {:induction false} ReplaceAllAbsent(s: string, c: char, rep: string)
    requires c !in s
    ensures ReplaceAll(s, c, rep) == s
  {
    if s != [] {
      ReplaceAllAbsent(s[1..], c, rep);
    }
  }

  lemma ReplaceAllOne(x: char, c: char, rep: string)
    ensures ReplaceAll([x], c, rep) == if x == c then rep else [x]
  {
    assert [x][1..] == [];
  }

  /** The passes after the one that produced entity `e` leave it alone. */
  lemma LaterPassesKeep(e: string, from: nat)
    requires from <= 4
    requires from <= 1 ==> '<' !in e
    requires from <= 2 ==> '>' !in e
    requires from <= 3 ==> '"' !in e
    requires '\'' !in e
    ensures from <= 1 ==> ReplaceAll(e, '<', "&lt;") == e
    ensures from <= 2 ==> ReplaceAll(e, '>', "&gt;") == e
    ensures from <= 3 ==> ReplaceAll(e, '"', "&quot;") == e
    ensures ReplaceAll(e, '\'', "&#039;") == e
  {
    if from <= 1 { ReplaceAllAbsent(e, '<', "&lt;"); }
    if from <= 2 { ReplaceAllAbsent(e, '>', "&gt;"); }
    if from <= 3 { ReplaceAllAbsent(e, '"', "&quot;"); }
    ReplaceAllAbsent(e, '\'', "&#039;");
  }

  /** The chain applied to one character gives that character's entity. */
  lemma EscapeOne(x: char)
    ensures EscapeHtml([x]) == Entity(x)
  {
    if x == '&' {
      EscapeAmp(x, Entity(x));
    } else if x == '<' {
      EscapeLt(x, Entity(x));
    } else if x == '>' {
      EscapeGt(x, Entity(x));
    } else if x == '"' {
      EscapeQuot(x, Entity(x));
    } else if x == '\'' {
      EscapeApos(x, Entity(x));
    } else {
      ReplaceAllOne(x, '&', "&amp;");
      ReplaceAllOne(x, '<', "&lt;");
      ReplaceAllOne(x, '>', "&gt;");
      ReplaceAllOne(x, '"', "&quot;");
      ReplaceAllOne(x, '\'', "&#039;");
    }
  }

  lemma EscapeAmp(x: char, e: string)
    requires x == '&' && e == "&amp;"
    ensures EscapeHtml([x]) == e
  {
    ReplaceAllOne(x, '&', "&amp;");
    assert '<' !in e && '>' !in e && '"' !in e && '\'' !in e;
    ReplaceAllAbsent(e, '<', "&lt;");
    ReplaceAllAbsent(e, '>', "&gt;");
    ReplaceAllAbsent(e, '"', "&quot;");
    ReplaceAllAbsent(e, '\'', "&#039;");
  }

  lemma EscapeLt(x: char, e: string)
    requires x == '<' && e == "&lt;"
    ensures EscapeHtml([x]) == e
  {
    ReplaceAllOne(x, '&', "&amp;");
    ReplaceAllOne(x, '<', "&lt;");
    assert '>' !in e && '"' !in e && '\'' !in e;
    ReplaceAllAbsent(e, '>', "&gt;");
    ReplaceAllAbsent(e, '"', "&quot;");
    ReplaceAllAbsent(e, '\'', "&#039;");
  }

  lemma EscapeGt(x: char, e: string)
    requires x == '>' && e == "&gt;"
    ensures EscapeHtml([x]) == e
  {
    ReplaceAllOne(x, '&', "&amp;");
    ReplaceAllOne(x, '<', "&lt;");
    ReplaceAllOne(x, '>', "&gt;");
    assert '"' !in e && '\'' !in e;
    ReplaceAllAbsent(e, '"', "&quot;");
    ReplaceAllAbsent(e, '\'', "&#039;");
  }

  lemma EscapeQuot(x: char, e: string)
    requires x == '"' && e == "&quot;"
    ensures EscapeHtml([x]) == e
  {
    ReplaceAllOne(x, '&', "&amp;");
    ReplaceAllOne(x, '<', "&lt;");
    ReplaceAllOne(x, '>', "&gt;");
    ReplaceAllOne(x, '"', "&quot;");
    assert '\'' !in e;
    ReplaceAllAbsent(e, '\'', "&#039;");
  }

  lemma EscapeApos(x: char, e: string)
    requires x == '\'' && e == "&#039;"
    ensures EscapeHtml([x]) == e
  {
    ReplaceAllOne(x, '&', "&amp;");
    ReplaceAllOne(x, '<', "&lt;");
    ReplaceAllOne(x, '>', "&gt;");
    ReplaceAllOne(x, '"', "&quot;");
    ReplaceAllOne(x, '\'', "&#039;");
  }

  /** Because '&' is replaced first, the chain never re-escapes an entity it produced:
      it is the per-character substitution. */
  lemma {:induction false} EscapeHtmlIsPerCharacter(s: string)
    ensures EscapeHtml(s) == EscapeEach(s)
  {
    if s != [] {
      var x, t := s[0], s[1..];
      assert s == [x] + t;
      var a1 := ReplaceAll([x], '&', "&amp;");
      var b1 := ReplaceAll(t, '&', "&amp;");
      ReplaceAllAppend([x], t, '&', "&amp;");
      var a2 := ReplaceAll(a1, '<', "&lt;");
      var b2 := ReplaceAll(b1, '<', "&lt;");
      ReplaceAllAppend(a1, b1, '<', "&lt;");
      var a3 := ReplaceAll(a2, '>', "&gt;");
      var b3 := ReplaceAll(b2, '>', "&gt;");
      ReplaceAllAppend(a2, b2, '>', "&gt;");
      var a4 := ReplaceAll(a3, '"', "&quot;");
      var b4 := ReplaceAll(b3, '"', "&quot;");
      ReplaceAllAppend(a3, b3, '"', "&quot;");
      ReplaceAllAppend(a4, b4, '\'', "&#039;");
      assert EscapeHtml(s) == EscapeHtml([x]) + EscapeHtml(t);
      EscapeOne(x);
      EscapeHtmlIsPerCharacter(t);
    }
  }

  lemma {:induction false} EscapeEachHasNoSpecials(s: string)
    ensures forall i :: 0 <= i < |EscapeEach(s)| ==> !IsSpecial(EscapeEach(s)[i])
  {
    if s != [] {
      EscapeEachHasNoSpecials(s[1..]);
      var e, r := Entity(s[0]), EscapeEach(s[1..]);
      assert forall i :: 0 <= i < |e| ==> !IsSpecial(e[i]);
      assert EscapeEach(s) == e + r;
      forall i | 0 <= i < |e + r| ensures !IsSpecial((e + r)[i]) {
        if i >= |e| { assert (e + r)[i] == r[i - |e|]; }
      }
    }
  }

  /** The escaped text contains no raw `<`, `>`, `"` or `'`. */
  lemma EscapeHtmlHasNoSpecials(s: string)
    ensures forall i :: 0 <= i < |EscapeHtml(s)| ==> !IsSpecial(EscapeHtml(s)[i])
  {
    EscapeHtmlIsPerCharacter(s);
    EscapeEachHasNoSpecials(s);
  }

  predicate StartsWith(s: string, p: string) {
    |p| <= |s| && s[..|p|] == p
  }

  /** What a browser shows for escaped text: the five entities decoded, left to right. */
  function UnescapeHtml(s: string): string
    decreases |s|
  {
    if s == [] then []
    else if StartsWith(s, "&amp;") then "&" + UnescapeHtml(s[5..])
    else if StartsWith(s, "&lt;") then "<" + UnescapeHtml(s[4..])
    else if StartsWith(s, "&gt;") then ">" + UnescapeHtml(s[4..])
    else if StartsWith(s, "&quot;") then "\"" + UnescapeHtml(s[6..])
    else if StartsWith(s, "&#039;") then "'" + UnescapeHtml(s[6..])
    else [s[0]] + UnescapeHtml(s[1..])
  }

  /** Unescaping text that starts with the entity `e` of `x` consumes `e` and yields `x`. */
  lemma UnescapeEntity(x: char, rest: string)
    ensures UnescapeHtml(Entity(x) + rest) == [x] + UnescapeHtml(rest)
  {
    var e := Entity(x);
    var s := e + rest;
    assert s[..|e|] == e;
    assert s[|e|..] == rest;
    assert s[0] == e[0];
    if x == '&' {
      assert StartsWith(s, "&amp;");
    } else if x == '<' {
      assert s[1] == 'l';
      assert !StartsWith(s, "&amp;");
      assert StartsWith(s, "&lt;");
    } else if x == '>' {
      assert s[1] == 'g';
      assert !StartsWith(s, "&amp;") && !StartsWith(s, "&lt;");
      assert StartsWith(s, "&gt;");
    } else if x == '"' {
      assert s[1] == 'q';
      assert !StartsWith(s, "&amp;") && !StartsWith(s, "&lt;") && !StartsWith(s, "&gt;");
      assert StartsWith(s, "&quot;");
    } else if x == '\'' {
      assert s[1] == '#';
      assert !StartsWith(s, "&amp;") && !StartsWith(s, "&lt;") && !StartsWith(s, "&gt;");
      assert !StartsWith(s, "&quot;");
      assert StartsWith(s, "&#039;");
    } else {
      assert e == [x];
      assert !StartsWith(s, "&amp;") && !StartsWith(s, "&lt;") && !StartsWith(s, "&gt;");
      assert !StartsWith(s, "&quot;") && !StartsWith(s, "&#039;");
    }
  }

  lemma {:induction false} UnescapeEscapeEach(s: string)
    ensures UnescapeHtml(EscapeEach(s)) == s
  {
    if s != [] {
      UnescapeEntity(s[0], EscapeEach(s[1..]));
      UnescapeEscapeEach(s[1..]);
    }
  }

  /** Decoding the five entities restores the escaped text. */
  lemma EscapeHtmlRoundTrip(s: string)
    ensures UnescapeHtml(EscapeHtml(s)) == s
  {
    EscapeHtmlIsPerCharacter(s);
    UnescapeEscapeEach(s);
  }

  /** A null or undefined value escapes to the empty string; any other text escapes to markup
      with no special character that decodes back to it. */
  lemma EscapeHtmlValueSpec(v: Option<string>)
    ensures v.None? ==> EscapeHtmlValue(v) == ""
    ensures UnescapeHtml(EscapeHtmlValue(v)) == v.GetOr("")
    ensures forall i :: 0 <= i < |EscapeHtmlValue(v)| ==> !IsSpecial(EscapeHtmlValue(v)[i])
  {
    EscapeHtmlRoundTrip(v.GetOr(""));
    EscapeHtmlHasNoSpecials(v.GetOr(""));
  }

  // ---------------------------------------------------------------------------
  // cleanBase: String(u || "").replace(/\/+$/, "")
  // ---------------------------------------------------------------------------

  /** The base URL with its run of trailing slashes removed. */
  function CleanBase(u: string): (r: string)
    ensures |r| <= |u| && r == u[..|r|]
    ensures r == [] || r[|r| - 1] != '/'
    ensures forall i :: |r| <= i < |u| ==> u[i] == '/'
  {
    if |u| > 0 && u[|u| - 1] == '/' then CleanBase(u[..|u| - 1]) else u
  }

  /** The contract of CleanBase determines its result: it removes exactly the trailing slashes. */
  lemma CleanBaseUnique(u: string, r: string)
    requires |r| <= |u| && r == u[..|r|]
    requires r == [] || r[|r| - 1] != '/'
    requires forall i :: |r| <= i < |u| ==> u[i] == '/'
    ensures r == CleanBase(u)
  {
    var c := CleanBase(u);
    if |r| < |c| {
      assert false;
    } else if |c| < |r| {
      assert false;
    }
  }

  lemma CleanBaseIdempotent(u: string)
    ensures CleanBase(CleanBase(u)) == CleanBase(u)
  {
  }

  // ---------------------------------------------------------------------------
  // String(n) of an integer, and the /^\d+$/ test
  // ---------------------------------------------------------------------------

  function DigitChar(d: nat): char
    requires d < 10
  {
    "0123456789"[d]
  }

  /** Decimal digits of `n`, no leading zero. */
  function NatToString(n: nat): (r: string)
    ensures |r| >= 1 && IsDigits(r)
    ensures |r| == 1 <==> n < 10
    decreases n
  {
    if n < 10 then [DigitChar(n)] else NatToString(n / 10) + [DigitChar(n % 10)]
  }

  /** `String(id)` for an integer id. */
  function IntToString(i: int): string {
    if i < 0 then "-" + NatToString(-i) else NatToString(i)
  }

  /** `/^\d+$/.test(s)`: non-empty and only ASCII digits. */
  predicate IsDigits(s: string) {
    |s| >= 1 && forall k :: 0 <= k < |s| ==> '0' <= s[k] <= '9'
  }

  lemma {:induction false} NatToStringInjective(a: nat, b: nat)
    requires NatToString(a) == NatToString(b)
    ensures a == b
    decreases a
  {
    var sa, sb := NatToString(a), NatToString(b);
    if a >= 10 && b >= 10 {
      assert sa[|sa| - 1] == DigitChar(a % 10) && sb[|sb| - 1] == DigitChar(b % 10);
      assert sa[..|sa| - 1] == NatToString(a / 10);
      assert sb[..|sb| - 1] == NatToString(b / 10);
      NatToStringInjective(a / 10, b / 10);
    }
  }

  /** Distinct integers print differently, so comparing `String(a)` with `String(b)` compares
      the integers; only non-negative integers print as digits alone. */
  lemma IntToStringInjective(a: int, b: int)
    ensures IntToString(a) == IntToString(b) <==> a == b
    ensures IsDigits(IntToString(a)) <==> a >= 0
  {
    if IntToString(a) == IntToString(b) {
      if a < 0 && b < 0 {
        assert IntToString(a)[1..] == NatToString(-a);
        assert IntToString(b)[1..] == NatToString(-b);
        NatToStringInjective(-a, -b);
      } else if a >= 0 && b >= 0 {
        NatToStringInjective(a, b);
      } else {
        assert false;
      }
    }
    if a < 0 {
      assert IntToString(a)[0] == '-';
    }
  }
}
