/**
 * The JavaScript string operations the booking flow relies on:
 * `String.prototype.trim`, number-to-decimal conversion (`${n}`),
 * `padStart`, `toLowerCase` and `Array.prototype.join`.
 */
module Text {

  /** The characters `trim` removes and `\s` matches: WhiteSpace and LineTerminator. */
  predicate IsWhitespace(c: char) {
    c == '\t' || c == '\n' || c == '\U{000B}' || c == '\U{000C}' || c == '\r' ||
    c == ' ' || c == '\U{00A0}' || c == '\U{1680}' ||
    ('\U{2000}' <= c <= '\U{200A}') ||
    c == '\U{2028}' || c == '\U{2029}' || c == '\U{202F}' || c == '\U{205F}' ||
    c == '\U{3000}' || c == '\U{FEFF}'
  }

  ghost predicate AllWhitespace(s: string) {
    forall i :: 0 <= i < |s| ==> IsWhitespace(s[i])
  }

  /** The number of whitespace characters `s` starts with. */
  function LeadingWhitespace(s: string): (n: nat)
    ensures n <= |s|
    ensures forall i :: 0 <= i < n ==> IsWhitespace(s[i])
    ensures n < |s| ==> !IsWhitespace(s[n])
  {
    if s == [] || !IsWhitespace(s[0]) then 0 else 1 + LeadingWhitespace(s[1..])
  }

  /** The number of whitespace characters `s` ends with. */
  function TrailingWhitespace(s: string): (n: nat)
    ensures n <= |s|
    ensures forall i :: |s| - n <= i < |s| ==> IsWhitespace(s[i])
    ensures n < |s| ==> !IsWhitespace(s[|s| - n - 1])
  {
    if s == [] || !IsWhitespace(s[|s| - 1]) then 0
    else 1 + TrailingWhitespace(s[..|s| - 1])
  }

  /** `s.trim()`: the string without its leading and trailing whitespace. */
  function Trim(s: string): (r: string)
    ensures r == [] || (!IsWhitespace(r[0]) && !IsWhitespace(r[|r| - 1]))
    ensures |r| <= |s|
  {
    var t := s[LeadingWhitespace(s)..];
    t[..|t| - TrailingWhitespace(t)]
  }

  /** `Boolean(s.trim())` holds exactly when `s` has a non-whitespace character. */
  lemma TrimEmptyIff(s: string)
    ensures Trim(s) == [] <==> AllWhitespace(s)
  {
    var a := LeadingWhitespace(s);
    var t := s[a..];
    var b := TrailingWhitespace(t);
    if a < |s| {
      assert t[0] == s[a];
      assert b < |t|;
      assert Trim(s)[0] == s[a];
    }
  }

  /** `trim` undoes padding with whitespace on both sides. */
  lemma TrimPadded(front: string, t: string, back: string)
    requires AllWhitespace(front) && AllWhitespace(back)
    requires t == [] || (!IsWhitespace(t[0]) && !IsWhitespace(t[|t| - 1]))
    ensures Trim(front + t + back) == t
  {
    var s := front + t + back;
    if t == [] {
      assert AllWhitespace(s);
      TrimEmptyIff(s);
    } else {
      LeadingOfPadded(front, t + back);
      assert s == front + (t + back);
      var rest := s[LeadingWhitespace(s)..];
      assert rest == t + back;
      TrailingOfPadded(t, back);
    }
  }

  lemma {:induction false} LeadingOfPadded(front: string, rest: string)
    requires AllWhitespace(front)
    requires rest != [] && !IsWhitespace(rest[0])
    ensures LeadingWhitespace(front + rest) == |front|
  {
    if front != [] {
      assert (front + rest)[1..] == front[1..] + rest;
      LeadingOfPadded(front[1..], rest);
    }
  }

  lemma {:induction false} TrailingOfPadded(t: string, back: string)
    requires AllWhitespace(back)
    requires t != [] && !IsWhitespace(t[|t| - 1])
    ensures TrailingWhitespace(t + back) == |back|
  {
    if back != [] {
      assert (t + back)[..|t + back| - 1] == t + back[..|back| - 1];
      TrailingOfPadded(t, back[..|back| - 1]);
    }
  }

  /** Extra whitespace around any string leaves its trimmed form unchanged. */
  lemma TrimPaddedAny(front: string, s: string, back: string)
    requires AllWhitespace(front) && AllWhitespace(back)
    ensures Trim(front + s + back) == Trim(s)
  {
    var lead, trail := TrimSplit(s);
    var core := Trim(s);
    WhitespaceConcat(front, lead);
    WhitespaceConcat(trail, back);
    Regroup(front, lead, core, trail, back);
    TrimPadded(front + lead, core, trail + back);
  }

  /** Every string is its trimmed form between two runs of whitespace. */
  lemma TrimSplit(s: string) returns (lead: string, trail: string)
    ensures AllWhitespace(lead) && AllWhitespace(trail)
    ensures s == lead + (Trim(s) + trail)
  {
    var a := LeadingWhitespace(s);
    var t := s[a..];
    var b := TrailingWhitespace(t);
    lead, trail := s[..a], t[|t| - b..];
    assert AllWhitespace(lead) by {
      forall i | 0 <= i < |lead| ensures IsWhitespace(lead[i]) {
        assert lead[i] == s[i];
      }
    }
    assert AllWhitespace(trail) by {
      forall i | 0 <= i < |trail| ensures IsWhitespace(trail[i]) {
        assert trail[i] == t[|t| - b + i];
      }
    }
    assert Trim(s) == t[..|t| - b];
    SplitAt(t, |t| - b);
    SplitAt(s, a);
  }

  lemma SplitAt(s: string, n: nat)
    requires n <= |s|
    ensures s == s[..n] + s[n..]
  {
  }

  lemma Regroup(f: string, l: string, c: string, t: string, b: string)
    ensures f + (l + (c + t)) + b == (f + l) + c + (t + b)
  {
  }

  lemma WhitespaceConcat(a: string, b: string)
    requires AllWhitespace(a) && AllWhitespace(b)
    ensures AllWhitespace(a + b)
  {
    assert forall i :: 0 <= i < |a + b| ==> (a + b)[i] == if i < |a| then a[i] else b[i - |a|];
  }

  /** Trimming twice is trimming once. */
  lemma TrimIdempotent(s: string)
    ensures Trim(Trim(s)) == Trim(s)
  {
    var r := Trim(s);
    TrimPadded([], r, []);
    assert [] + r + [] == r;
  }

  // ---------------------------------------------------------------------------
  // Decimal notation of integers, as `${n}` and `n.toString()` print them.

  predicate IsDigit(c: char) {
    '0' <= c <= '9'
  }

  function DigitChar(d: nat): (c: char)
    requires d < 10
    ensures IsDigit(c)
  {
    (('0' as int) + d) as char
  }

  function DigitValue(c: char): (d: nat)
    requires IsDigit(c)
    ensures d < 10
  {
    (c as int) - ('0' as int)
  }

  /** The decimal digits of `n`, without leading zeros. */
  function NatToString(n: nat): (r: string)
    ensures |r| > 0 && forall i :: 0 <= i < |r| ==> IsDigit(r[i])
    ensures r[0] == '0' ==> n == 0
    ensures n < 10 <==> |r| == 1
    decreases n
  {
    if n < 10 then [DigitChar(n)] else NatToString(n / 10) + [DigitChar(n % 10)]
  }

  /** An integer in decimal, with a leading minus sign when negative. */
  function IntToString(i: int): (r: string)
    ensures |r| > 0
  {
    if i < 0 then "-" + NatToString(-i) else NatToString(i)
  }

  /** The value of a string of decimal digits. */
  function ParseDigits(s: string): nat
    requires forall i :: 0 <= i < |s| ==> IsDigit(s[i])
  {
    if s == [] then 0 else ParseDigits(s[..|s| - 1]) * 10 + DigitValue(s[|s| - 1])
  }

  /** Reading back the decimal notation gives the number. */
  lemma {:induction false} ParseNatToString(n: nat)
    ensures ParseDigits(NatToString(n)) == n
    decreases n
  {
    if n >= 10 {
      ParseNatToString(n / 10);
      var r := NatToString(n);
      assert r[..|r| - 1] == NatToString(n / 10);
    }
  }

  /** Distinct numbers are printed differently. */
  lemma NatToStringInjective(a: nat, b: nat)
    requires NatToString(a) == NatToString(b)
    ensures a == b
  {
    ParseNatToString(a);
    ParseNatToString(b);
  }

  // ---------------------------------------------------------------------------

  /** `s.padStart(2, "0")`. */
  function PadStart2(s: string): (r: string)
    ensures |r| == if |s| < 2 then 2 else |s|
    ensures r[|r| - |s|..] == s
  {
    if |s| == 0 then "00" else if |s| == 1 then "0" + s else s
  }

  /**
   * `toLowerCase` for the letters that occur in the catalog's labels:
   * ASCII, Latin-1 and the Romanian letters with comma and cedilla below.
   */
  function LowerChar(c: char): char {
    if 'A' <= c <= 'Z' || ('\U{00C0}' <= c <= '\U{00DE}' && c != '\U{00D7}') then
      ((c as int) + 32) as char
    else if c == '\U{0102}' || c == '\U{015E}' || c == '\U{0162}' || c == '\U{0218}' || c == '\U{021A}' then
      ((c as int) + 1) as char
    else c
  }

  function ToLower(s: string): (r: string)
    ensures |r| == |s| && forall i :: 0 <= i < |s| ==> r[i] == LowerChar(s[i])
  {
    if s == [] then [] else [LowerChar(s[0])] + ToLower(s[1..])
  }

  // ---------------------------------------------------------------------------

  /** `lines.join(sep)`. */
  function Join(lines: seq<string>, sep: string): string {
    if |lines| == 0 then ""
    else if |lines| == 1 then lines[0]
    else lines[0] + sep + Join(lines[1..], sep)
  }

  ghost predicate EndsWith(s: string, t: string) {
    |t| <= |s| && s[|s| - |t|..] == t
  }

  /** The joined text starts with the first line and ends with the last. */
  lemma {:induction false} JoinEnds(lines: seq<string>, sep: string)
    requires |lines| > 0
    ensures lines[0] <= Join(lines, sep)
    ensures EndsWith(Join(lines, sep), lines[|lines| - 1])
  {
    if |lines| > 1 {
      JoinEnds(lines[1..], sep);
      var rest := Join(lines[1..], sep);
      var last := lines[|lines| - 1];
      assert lines[1..][|lines[1..]| - 1] == last;
      var whole := lines[0] + sep + rest;
      assert whole[|whole| - |last|..] == rest[|rest| - |last|..];
    }
  }

  /** Joining two lines puts exactly one separator between them. */
  lemma JoinTwo(a: string, b: string, sep: string)
    ensures Join([a, b], sep) == a + sep + b
  {
    assert [a, b][1..] == [b];
  }
}
