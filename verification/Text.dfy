/** The text forms that canonical JSON is made of: decimal integers, escaped
    strings and sorted keys, each with the fact that makes it readable back. */
module Text {
  import opened Prelude
  import opened Json
  import opened JsonReader

  // ----- tokens

  predicate All(p: char -> bool, s: string) {
    forall i :: 0 <= i < |s| ==> p(s[i])
  }

  /** Two texts that start with a run of token characters, each followed by
      nothing or by a non-token character, have the same first token. */
  lemma FirstTokenUnique(p: char -> bool, s: string, t: string, x: string, y: string)
    requires All(p, s) && All(p, t)
    requires x != "" ==> !p(x[0])
    requires y != "" ==> !p(y[0])
    requires s + x == t + y
    ensures s == t && x == y
  {
    var all := s + x;
    assert forall i :: 0 <= i < |s| ==> all[i] == s[i];
    assert forall i :: 0 <= i < |t| ==> all[i] == t[i];
    assert |s| < |all| ==> all[|s|] == x[0];
    assert |t| < |all| ==> all[|t|] == y[0];
    assert s == (s + x)[..|s|] == (t + y)[..|t|] == t;
    assert x == (s + x)[|s|..] == (t + y)[|t|..] == y;
  }

  /** A run of token characters is read up to what follows it. */
  lemma {:induction false} SpanIsToken(p: char -> bool, s: string, x: string)
    requires All(p, s) && (x != "" ==> !p(x[0]))
    ensures Span(p, s + x) == |s|
  {
    if s == "" {
      assert s + x == x;
    } else {
      assert (s + x)[1..] == s[1..] + x;
      SpanIsToken(p, s[1..], x);
    }
  }

  lemma Reassociate(a: string, b: string, c: string)
    ensures a + b + c == a + (b + c)
  {
  }

  // ----- decimal integers

  const DIGITS := "0123456789"

  function Digits(n: nat): (s: string)
    ensures s != "" && All(IsDigit, s)
  {
    if n < 10 then [DIGITS[n]] else Digits(n / 10) + [DIGITS[n % 10]]
  }

  function IntText(n: int): (s: string)
    ensures s != ""
    ensures s[0] == '-' <==> n < 0
  {
    if n < 0 then "-" + Digits(-n) else Digits(n)
  }

  lemma {:induction false} DigitsValue(n: nat)
    ensures DecimalValue(Digits(n)) == n
  {
    assert forall d :: 0 <= d < 10 ==> DIGITS[d] as int - '0' as int == d;
    if n < 10 {
      assert DecimalValue(Digits(n)[..0]) == 0;
    } else {
      var s := Digits(n);
      assert s[..|s| - 1] == Digits(n / 10);
      DigitsValue(n / 10);
    }
  }

  lemma {:induction false} NoLeadingZero(n: nat)
    requires n != 0
    ensures Digits(n)[0] != '0'
  {
    if n >= 10 {
      NoLeadingZero(n / 10);
    }
  }

  /** One-digit naturals are exactly the digits themselves. */
  lemma OneDigit(n: nat, c: char)
    requires IsDigit(c)
    ensures Digits(n) == [c] <==> n == (c as int) - ('0' as int)
  {
    if n >= 10 {
      assert |Digits(n)| > 1;
    }
  }

  // ----- escaped strings

  const HEX := "0123456789abcdef"

  /** The letter of a two-character escape, where there is one. */
  function ShortEscape(c: char): Option<char> {
    var n := c as int;
    if c == '"' || c == '\\' then Some(c)
    else if n == 0x08 then Some('b')
    else if n == 0x0C then Some('f')
    else if n == 0x0A then Some('n')
    else if n == 0x0D then Some('r')
    else if n == 0x09 then Some('t')
    else None
  }

  function EscapeChar(c: char): (s: string)
    ensures s != "" && s[0] != '"'
  {
    if ShortEscape(c).Some? then ['\\', ShortEscape(c).value]
    else if c as int < 0x20 then ['\\', 'u', '0', '0', HEX[c as int / 16], HEX[c as int % 16]]
    else [c]
  }

  function Escape(s: string): string {
    if s == "" then "" else EscapeChar(s[0]) + Escape(s[1..])
  }

  function Quote(s: string): string {
    "\"" + Escape(s) + "\""
  }

  /** The text of a character is read as that character, whatever follows. */
  lemma ReadsChar(c: char, x: string)
    ensures ReadChar(EscapeChar(c) + x) == Some(Parsed(c, x))
  {
    var s := EscapeChar(c);
    var all := s + x;
    assert all[0] == s[0] && all[|s|..] == x;
    if s[0] == '\\' {
      assert all[1] == s[1];
      if ShortEscape(c).None? {
        var n := c as int;
        assert all[2..][..4] == s[2..];
        assert HexValue(HEX[n / 16]) == Some(n / 16) && HexValue(HEX[n % 16]) == Some(n % 16);
        assert all[2..][0] == '0' && all[2..][1] == '0' && all[2..][2] == s[4] && all[2..][3] == s[5];
        assert CodeUnit(all[2..]) == Some(n);
        assert all[2..][4..] == x;
      }
    }
  }

  lemma {:induction false} ReadsEscape(s: string, x: string)
    ensures ReadChars(Escape(s) + ("\"" + x)) == Some(Parsed(s, x))
    decreases |s|
  {
    hide EscapeChar;
    hide ReadChar;
    var tail := "\"" + x;
    if s == "" {
      assert Escape(s) + tail == tail;
      assert tail[1..] == x;
    } else {
      var rest := Escape(s[1..]) + tail;
      Reassociate(EscapeChar(s[0]), Escape(s[1..]), tail);
      assert (EscapeChar(s[0]) + rest)[0] == EscapeChar(s[0])[0];
      ReadsChar(s[0], rest);
      ReadsEscape(s[1..], x);
      assert s == [s[0]] + s[1..];
    }
  }

  /** A quoted string is read as the string, whatever follows. */
  lemma ReadsQuote(s: string, x: string)
    ensures Quote(s) + x != "" && (Quote(s) + x)[0] == '"'
    ensures ReadChars((Quote(s) + x)[1..]) == Some(Parsed(s, x))
  {
    Reassociate("\"", Escape(s), "\"");
    Reassociate("\"", Escape(s) + "\"", x);
    Reassociate(Escape(s), "\"", x);
    assert (Quote(s) + x)[1..] == Escape(s) + ("\"" + x);
    ReadsEscape(s, x);
  }

  predicate UpperHex(c: char) {
    'A' <= c <= 'F'
  }

  lemma CodeUnitDigits(s: string)
    requires CodeUnit(s).Some? && CodeUnit(s).value < 0x20
    requires !UpperHex(s[2]) && !UpperHex(s[3])
    ensures var n := CodeUnit(s).value; s[..4] == ['0', '0', HEX[n / 16], HEX[n % 16]]
  {
    var a, b, c, d := HexValue(s[0]).value, HexValue(s[1]).value, HexValue(s[2]).value, HexValue(s[3]).value;
    var n := CodeUnit(s).value;
    assert n == 4096 * a + 256 * b + 16 * c + d;
    assert a == 0 && b == 0 && c == n / 16 && d == n % 16;
    assert s[2] == HEX[c] && s[3] == HEX[d];
  }

  /** Of all texts that read as a character none is shorter than its own, and none
      of that length differs from it but by capital hexadecimal digits. */
  lemma EscapesAreShortest(c: char, t: string, rest: string)
    requires ReadChar(t) == Some(Parsed(c, rest))
    ensures var n := |t| - |rest|;
      && n >= |EscapeChar(c)|
      && (n == |EscapeChar(c)| && (n == 6 ==> !UpperHex(t[4]) && !UpperHex(t[5])) ==> t == EscapeChar(c) + rest)
  {
    if t[0] != '\\' {
      assert t == [c] + rest;
    } else if t[1] != 'u' {
      assert t == ['\\', t[1]] + rest;
    } else {
      var unit := CodeUnit(t[2..]).value;
      if |t| - |rest| == 6 && unit < 0x20 && !UpperHex(t[4]) && !UpperHex(t[5]) {
        assert t[2..][2] == t[4] && t[2..][3] == t[5];
        CodeUnitDigits(t[2..]);
        assert t == ['\\', 'u'] + t[2..][..4] + t[2..][4..];
      }
    }
  }

  /** The text of a string is the shortest there is. */
  lemma {:induction false} QuotesAreShortest(s: string, t: string, rest: string)
    requires ReadChars(t) == Some(Parsed(s, rest))
    ensures |t| - |rest| >= |Quote(s)| - 1
    decreases |t|
  {
    if t != "" && t[0] == '"' {
    } else {
      var first := ReadChar(t).value;
      var more := ReadChars(first.rest).value;
      EscapesAreShortest(first.value, t, first.rest);
      QuotesAreShortest(more.value, first.rest, rest);
      assert s[1..] == more.value;
      hide EscapeChar;
      assert |Escape(s)| == |EscapeChar(s[0])| + |Escape(s[1..])|;
    }
  }

  // ----- keys in code-point order

  predicate Less(s: string, t: string) {
    if t == "" then false
    else if s == "" then true
    else s[0] < t[0] || (s[0] == t[0] && Less(s[1..], t[1..]))
  }

  /** A proper prefix, or smaller where the two first differ. */
  ghost predicate FirstSmaller(s: string, t: string) {
    || (|s| < |t| && s <= t)
    || exists k :: 0 <= k < |s| && k < |t| && s[..k] == t[..k] && s[k] < t[k]
  }

  lemma {:induction false} LessIsLexicographic(s: string, t: string)
    ensures Less(s, t) <==> FirstSmaller(s, t)
    decreases |s|
  {
    if s != "" && t != "" {
      LessIsLexicographic(s[1..], t[1..]);
      assert s == [s[0]] + s[1..] && t == [t[0]] + t[1..];
      if s[0] < t[0] {
        assert s[..0] == t[..0];
      }
      if s[0] == t[0] {
        if k :| 0 <= k < |s[1..]| && k < |t[1..]| && s[1..][..k] == t[1..][..k] && s[1..][k] < t[1..][k] {
          assert s[..k + 1] == [s[0]] + s[1..][..k] && t[..k + 1] == [t[0]] + t[1..][..k];
          assert s[k + 1] < t[k + 1];
        }
      }
      if k :| 0 <= k < |s| && k < |t| && s[..k] == t[..k] && s[k] < t[k] {
        if k > 0 {
          assert s[0] == s[..k][0] == t[..k][0] == t[0];
          assert s[1..][..k - 1] == s[..k][1..] == t[..k][1..] == t[1..][..k - 1];
          assert s[1..][k - 1] < t[1..][k - 1];
        }
      }
    }
  }

  lemma {:induction false} LessTotal(s: string, t: string)
    ensures s == t || Less(s, t) || Less(t, s)
    ensures !(Less(s, t) && Less(t, s)) && !Less(s, s)
    decreases |s|
  {
    if s == "" {
    } else {
      LessTotal(s[1..], s[1..]);
      if t != "" {
        LessTotal(s[1..], t[1..]);
        if s[1..] == t[1..] && s[0] == t[0] {
          assert s == [s[0]] + s[1..] == t;
        }
      }
    }
  }

  lemma {:induction false} LessTransitive(s: string, t: string, u: string)
    requires Less(s, t) && Less(t, u)
    ensures Less(s, u)
    decreases |s|
  {
    if s != "" && s[0] == t[0] == u[0] {
      LessTransitive(s[1..], t[1..], u[1..]);
    }
  }

  predicate Ascending(keys: seq<string>) {
    forall i, j :: 0 <= i < j < |keys| ==> Less(keys[i], keys[j])
  }

  function InsertKey(k: string, keys: seq<string>): (r: seq<string>)
    ensures forall s :: s in r <==> s == k || s in keys
  {
    if keys == [] || !Less(keys[0], k) then [k] + keys
    else
      assert keys == [keys[0]] + keys[1..];
      [keys[0]] + InsertKey(k, keys[1..])
  }

  function SortKeys(keys: seq<string>): (r: seq<string>)
    ensures forall s :: s in r <==> s in keys
  {
    if keys == [] then []
    else
      assert keys == [keys[0]] + keys[1..];
      InsertKey(keys[0], SortKeys(keys[1..]))
  }

  lemma {:induction false} InsertKeyAscending(k: string, keys: seq<string>)
    requires Ascending(keys) && k !in keys
    ensures Ascending(InsertKey(k, keys))
  {
    if keys == [] {
    } else if !Less(keys[0], k) {
      LessTotal(keys[0], k);
      forall j | 0 < j < |keys| ensures Less(k, keys[j]) {
        LessTransitive(k, keys[0], keys[j]);
      }
      assert ([k] + keys)[1..] == keys;
    } else {
      var rest := keys[1..];
      assert keys == [keys[0]] + rest;
      InsertKeyAscending(k, rest);
      var all := InsertKey(k, rest);
      forall j | 0 <= j < |all| ensures Less(keys[0], all[j]) {
        assert all[j] in all;
        if all[j] != k {
          var i :| 0 <= i < |rest| && rest[i] == all[j];
          assert keys[i + 1] == all[j];
        }
      }
    }
  }

  lemma {:induction false} SortKeysAscending(keys: seq<string>)
    requires forall i, j :: 0 <= i < j < |keys| ==> keys[i] != keys[j]
    ensures Ascending(SortKeys(keys))
  {
    if keys == [] {
    } else {
      SortKeysAscending(keys[1..]);
      assert keys == [keys[0]] + keys[1..];
      assert keys[0] !in keys[1..];
      InsertKeyAscending(keys[0], SortKeys(keys[1..]));
    }
  }

  /** An ascending listing is determined by its set of keys. */
  lemma {:induction false} AscendingUnique(a: seq<string>, b: seq<string>)
    requires Ascending(a) && Ascending(b)
    requires forall s :: s in a <==> s in b
    ensures a == b
    decreases |a|
  {
    if a == [] {
      assert forall i :: 0 <= i < |b| ==> b[i] in a;
    } else {
      assert a[0] in b;
      assert b[0] in a;
      var i :| 0 <= i < |b| && b[i] == a[0];
      var j :| 0 <= j < |a| && a[j] == b[0];
      LessTotal(a[0], b[0]);
      assert a[0] == b[0];
      forall s ensures s in a[1..] <==> s in b[1..] {
        LessTotal(s, s);
        assert a == [a[0]] + a[1..] && b == [b[0]] + b[1..];
        if s in a[1..] {
          var k :| 0 <= k < |a[1..]| && a[1..][k] == s;
          assert a[k + 1] == s && s in b;
        }
        if s in b[1..] {
          var k :| 0 <= k < |b[1..]| && b[1..][k] == s;
          assert b[k + 1] == s && s in a;
        }
      }
      AscendingUnique(a[1..], b[1..]);
      assert a == [a[0]] + a[1..] && b == [b[0]] + b[1..];
    }
  }
}
