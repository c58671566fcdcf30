/**
 * The JavaScript string operations the insight pipeline relies on:
 * `String.prototype.trim`, `Array.prototype.join`, `String.prototype.split`
 * (used only to state what a join produced) and the decimal rendering of an
 * integer in a template literal.
 */
module JsText {

  /**
   * The characters `trim` removes: ECMAScript's WhiteSpace (tab, vertical tab,
   * form feed, space, no-break space, byte-order mark and the other Unicode
   * space separators) and LineTerminator (line feed, carriage return, line and
   * paragraph separators) code points, sections 12.2 and 12.3 of ECMA-262.
   */
  predicate IsWhitespace(c: char) {
    || c == '\U{0009}' || c == '\U{000B}' || c == '\U{000C}' || c == '\U{0020}'
    || c == '\U{00A0}' || c == '\U{FEFF}' || c == '\U{1680}'
    || ('\U{2000}' <= c <= '\U{200A}') || c == '\U{202F}' || c == '\U{205F}' || c == '\U{3000}'
    || c == '\U{000A}' || c == '\U{000D}' || c == '\U{2028}' || c == '\U{2029}'
  }

  predicate AllWhitespace(s: string) {
    forall i :: 0 <= i < |s| ==> IsWhitespace(s[i])
  }

  lemma WhitespaceConcat(a: string, b: string)
    requires AllWhitespace(a) && AllWhitespace(b)
    ensures AllWhitespace(a + b)
  {
    assert forall i :: |a| <= i < |a + b| ==> (a + b)[i] == b[i - |a|];
  }

  /** Neither end of `s` is a whitespace character. */
  predicate Trimmed(s: string) {
    s == [] || (!IsWhitespace(s[0]) && !IsWhitespace(s[|s| - 1]))
  }

  /** How many whitespace characters `s` starts with. */
  function LeadingSpace(s: string): (n: nat)
    ensures n <= |s| && AllWhitespace(s[..n])
    ensures n < |s| ==> !IsWhitespace(s[n])
  {
    if s != [] && IsWhitespace(s[0]) then
      var n := 1 + LeadingSpace(s[1..]);
      GrowPrefix(s, n);
      n
    else 0
  }

  /** How many whitespace characters `s` ends with. */
  function TrailingSpace(s: string): (n: nat)
    ensures n <= |s| && AllWhitespace(s[|s| - n..])
    ensures n < |s| ==> !IsWhitespace(s[|s| - 1 - n])
  {
    if s != [] && IsWhitespace(s[|s| - 1]) then
      var n := 1 + TrailingSpace(s[..|s| - 1]);
      GrowSuffix(s, n);
      n
    else 0
  }

  /** A whitespace first character followed by a whitespace run makes a longer run. */
  lemma GrowPrefix(s: string, n: nat)
    requires 1 <= n <= |s| && IsWhitespace(s[0]) && AllWhitespace(s[1..][..n - 1])
    ensures AllWhitespace(s[..n])
  {
    assert s[..n] == [s[0]] + s[1..][..n - 1];
    WhitespaceConcat([s[0]], s[1..][..n - 1]);
  }

  /** A whitespace run followed by a whitespace last character makes a longer run. */
  lemma GrowSuffix(s: string, n: nat)
    requires 1 <= n <= |s| && IsWhitespace(s[|s| - 1]) && AllWhitespace(s[..|s| - 1][|s| - n..])
    ensures AllWhitespace(s[|s| - n..])
  {
    assert s[|s| - n..] == s[..|s| - 1][|s| - n..] + [s[|s| - 1]];
    WhitespaceConcat(s[..|s| - 1][|s| - n..], [s[|s| - 1]]);
  }

  /**
   * `s.trim()`: `s` without the whitespace it starts with, then without the
   * whitespace that is left at its end.
   */
  function Trim(s: string): (r: string)
    ensures Trimmed(r)
    ensures |r| <= |s|
  {
    var t := s[LeadingSpace(s)..];
    var r := t[..|t| - TrailingSpace(t)];
    assert r != [] ==> r[0] == t[0] && r[|r| - 1] == t[|t| - 1 - TrailingSpace(t)];
    r
  }

  /** `Trim(s)` is the piece of `s` between its leading and its trailing whitespace. */
  lemma TrimIsMiddle(s: string) returns (i: nat)
    ensures i + |Trim(s)| <= |s| && Trim(s) == s[i..i + |Trim(s)|]
    ensures AllWhitespace(s[..i]) && AllWhitespace(s[i + |Trim(s)|..])
  {
    i := LeadingSpace(s);
    var m := TrailingSpace(s[i..]);
    MiddleSlices(s, i, m, Trim(s));
  }

  /** The piece of `s` between `i` leading and `m` trailing characters, as slices of `s` itself. */
  lemma MiddleSlices(s: string, i: nat, m: nat, r: string)
    requires i <= |s| && m <= |s| - i
    requires r == s[i..][..|s| - i - m]
    requires AllWhitespace(s[i..][|s| - i - m..])
    ensures i + |r| <= |s| && r == s[i..i + |r|]
    ensures AllWhitespace(s[i + |r|..])
  {
    assert s[i..][|s| - i - m..] == s[i + |r|..];
  }

  /** Whatever whitespace surrounds a trimmed piece, trimming gives back that piece. */
  lemma TrimOfPadded(a: string, r: string, b: string)
    requires AllWhitespace(a) && AllWhitespace(b) && Trimmed(r)
    ensures Trim(a + r + b) == r
  {
    var s := a + r + b;
    var n := LeadingSpace(s);
    PrefixToSpace(s, n);
    if r == [] {
      assert forall k :: 0 <= k < |s| ==> IsWhitespace(s[k]) by {
        forall k | 0 <= k < |s| ensures IsWhitespace(s[k]) {
          if k < |a| { assert s[k] == a[k]; } else { assert s[k] == b[k - |a|]; }
        }
      }
      assert n == |s|;
    } else {
      assert s[|a|] == r[0];
      assert forall k :: 0 <= k < |a| ==> s[k] == a[k];
      assert n == |a|;
      var t := s[n..];
      assert t == r + b;
      var m := TrailingSpace(t);
      SuffixToSpace(t, |t| - m);
      assert t[|r| - 1] == r[|r| - 1];
      assert t[|r|..] == b;
      SuffixToSpace(t, |r|);
      assert m == |b|;
      assert t[..|t| - m] == r;
    }
  }

  /** Each character of an all-whitespace prefix is whitespace. */
  lemma PrefixToSpace(s: string, n: nat)
    requires n <= |s|
    requires AllWhitespace(s[..n])
    ensures forall k :: 0 <= k < n ==> IsWhitespace(s[k])
  {
    forall k | 0 <= k < n ensures IsWhitespace(s[k]) {
      assert s[k] == s[..n][k];
    }
  }

  /** Each character of an all-whitespace suffix is whitespace. */
  lemma SuffixToSpace(s: string, j: nat)
    requires j <= |s|
    requires AllWhitespace(s[j..])
    ensures forall k :: j <= k < |s| ==> IsWhitespace(s[k])
  {
    forall k | j <= k < |s| ensures IsWhitespace(s[k]) {
      assert s[k] == s[j..][k - j];
    }
  }

  /** Trimming ignores whitespace added on either side. */
  lemma TrimIgnoresPadding(p: string, s: string, q: string)
    requires AllWhitespace(p) && AllWhitespace(q)
    ensures Trim(p + s + q) == Trim(s)
  {
    var r := Trim(s);
    var i := TrimIsMiddle(s);
    var a, b := s[..i], s[i + |r|..];
    Regroup(p, s, q, a, r, b);
    WhitespaceConcat(p, a);
    WhitespaceConcat(b, q);
    TrimOfPadded(p + a, r, b + q);
  }

  lemma Regroup(p: string, s: string, q: string, a: string, r: string, b: string)
    requires |a| + |r| <= |s| && a == s[..|a|] && r == s[|a|..|a| + |r|] && b == s[|a| + |r|..]
    ensures p + s + q == (p + a) + r + (b + q)
  {
    assert s == a + r + b;
  }

  /** `parts.join(sep)`: the parts separated by `sep`, with no separator at either end. */
  function Join(parts: seq<string>, sep: string): (r: string)
  {
    if |parts| == 0 then ""
    else if |parts| == 1 then parts[0]
    else parts[0] + sep + Join(parts[1..], sep)
  }

  /** `s.split(sep)` for a one-character separator; `""` splits into `[""]`. */
  function Split(s: string, sep: char): (r: seq<string>)
    ensures |r| >= 1
  {
    if s == [] then [""]
    else
      var rest := Split(s[1..], sep);
      if s[0] == sep then [""] + rest
      else [[s[0]] + rest[0]] + rest[1..]
  }

  /** Splitting a piece without the separator gives that piece alone. */
  lemma {:induction false} SplitPiece(piece: string, sep: char)
    requires sep !in piece
    ensures Split(piece, sep) == [piece]
  {
    if piece != [] {
      SplitPiece(piece[1..], sep);
      assert [piece[0]] + piece[1..] == piece;
    }
  }

  /** A separator ends the first piece of a split. */
  lemma {:induction false} SplitAtSeparator(piece: string, sep: char, rest: string)
    requires sep !in piece
    ensures Split(piece + [sep] + rest, sep) == [piece] + Split(rest, sep)
  {
    if piece == [] {
      assert piece + [sep] + rest == [sep] + rest;
      assert ([sep] + rest)[1..] == rest;
    } else {
      var s := piece + [sep] + rest;
      assert s[1..] == piece[1..] + [sep] + rest;
      SplitAtSeparator(piece[1..], sep, rest);
      assert [piece[0]] + piece[1..] == piece;
    }
  }

  /** Splitting a join recovers the parts, provided no part holds the separator. */
  lemma {:induction false} SplitJoin(parts: seq<string>, sep: char)
    requires |parts| >= 1
    requires forall i :: 0 <= i < |parts| ==> sep !in parts[i]
    ensures Split(Join(parts, [sep]), sep) == parts
  {
    if |parts| == 1 {
      SplitPiece(parts[0], sep);
    } else {
      SplitJoin(parts[1..], sep);
      SplitAtSeparator(parts[0], sep, Join(parts[1..], [sep]));
      assert [parts[0]] + parts[1..] == parts;
    }
  }

  /** A join holds the separator character only where it separates, or inside a part. */
  lemma {:induction false} JoinNoSeparator(parts: seq<string>, sep: char, c: char)
    requires c != sep
    requires forall i :: 0 <= i < |parts| ==> c !in parts[i]
    ensures c !in Join(parts, [sep])
  {
    if |parts| > 1 {
      JoinNoSeparator(parts[1..], sep, c);
    }
  }

  function DigitChar(d: nat): (c: char)
    requires d < 10
    ensures '0' <= c <= '9'
  {
    ('0' as int + d) as char
  }

  function DigitValue(c: char): (d: nat)
    requires '0' <= c <= '9'
    ensures d < 10 && DigitChar(d) == c
  {
    (c as int - '0' as int)
  }

  predicate IsDigits(s: string) {
    forall i :: 0 <= i < |s| ==> '0' <= s[i] <= '9'
  }

  /** The decimal digits of `n`, most significant first, without leading zeros. */
  function NatToString(n: nat): (s: string)
    ensures |s| >= 1 && IsDigits(s)
    ensures |s| > 1 ==> s[0] != '0'
  {
    if n < 10 then [DigitChar(n)] else NatToString(n / 10) + [DigitChar(n % 10)]
  }

  /** `${n}` for an integer-valued number. */
  function IntToString(n: int): (s: string)
    ensures |s| >= 1
    ensures forall i :: 0 <= i < |s| ==> s[i] == '-' || '0' <= s[i] <= '9'
  {
    if n < 0 then "-" + NatToString(-n) else NatToString(n)
  }

  /** The number a string of decimal digits denotes. */
  function DigitsValue(s: string): (n: nat)
    requires IsDigits(s)
  {
    if s == [] then 0 else 10 * DigitsValue(s[..|s| - 1]) + DigitValue(s[|s| - 1])
  }

  /** Reading back a rendered integer. */
  function ParseInt(s: string): (n: int)
    requires |s| >= 1
    requires forall i :: 1 <= i < |s| ==> '0' <= s[i] <= '9'
    requires s[0] == '-' || '0' <= s[0] <= '9'
  {
    if s[0] == '-' then 0 - DigitsValue(s[1..]) else DigitsValue(s)
  }

  /** The digits of `n` read back as `n`. */
  lemma {:induction false} NatToStringRoundTrip(n: nat)
    ensures DigitsValue(NatToString(n)) == n
  {
    if n >= 10 {
      NatToStringRoundTrip(n / 10);
      var s := NatToString(n);
      assert s == NatToString(n / 10) + [DigitChar(n % 10)];
      assert s[..|s| - 1] == NatToString(n / 10);
      assert DigitValue(s[|s| - 1]) == n % 10;
    }
  }

  /** The rendering of an integer read back as that integer. */
  lemma IntToStringRoundTrip(n: int)
    ensures ParseInt(IntToString(n)) == n
  {
    if n < 0 {
      assert IntToString(n)[1..] == NatToString(-n);
      NatToStringRoundTrip(-n);
    } else {
      NatToStringRoundTrip(n);
    }
  }
}
