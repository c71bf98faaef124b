/**
 * The pieces of Python's text handling the program leans on: `str.strip()`,
 * `str(n)` for an integer and `int(s)` for a string.
 */
module PyText {
  import opened Wrappers

  /** The characters `str.isspace()` accepts, which `strip()` drops. */
  predicate IsSpace(c: char) {
    var n := c as int;
    (9 <= n <= 13) || (28 <= n <= 32) || n == 0x85 || n == 0xA0 || n == 0x1680
    || (0x2000 <= n <= 0x200A) || n == 0x2028 || n == 0x2029 || n == 0x202F
    || n == 0x205F || n == 0x3000
  }

  /**
   * Which blanks a trim drops: those of `str.strip()`, or those `int()`
   * skips around a number. `int()` passes ASCII through unchanged and skips
   * only tab, line feed, vertical tab, form feed, carriage return and space
   * among it, so the separators U+001C to U+001F stay and are refused; any
   * other Unicode whitespace it reads as a space.
   */
  datatype Blanks = StrBlanks | IntBlanks

  predicate IsBlank(c: char, b: Blanks) {
    IsSpace(c) && (b == IntBlanks ==> !(28 <= c as int <= 31))
  }

  predicate IsDigit(c: char) {
    '0' <= c <= '9'
  }

  predicate AllDigits(s: string) {
    forall k :: 0 <= k < |s| ==> IsDigit(s[k])
  }

  function DigitChar(d: nat): (c: char)
    requires d < 10
    ensures IsDigit(c) && c as int - '0' as int == d
  {
    ('0' as int + d) as char
  }

  function DigitValue(c: char): (d: nat)
    requires IsDigit(c)
    ensures d < 10 && DigitChar(d) == c
  {
    (c as int - '0' as int)
  }

  /** The number a run of decimal digits denotes (leading zeros allowed). */
  function DigitsValue(s: string): nat
    requires AllDigits(s)
  {
    if s == [] then 0 else DigitsValue(s[..|s| - 1]) * 10 + DigitValue(s[|s| - 1])
  }

  /** Where the blanks of s starting at lo end: the first non-blank at or after lo, or |s|. */
  function LeadingEnd(s: string, b: Blanks, lo: nat): (i: nat)
    requires lo <= |s|
    ensures lo <= i <= |s|
    ensures forall k :: lo <= k < i ==> IsBlank(s[k], b)
    ensures i < |s| ==> !IsBlank(s[i], b)
    decreases |s| - lo
  {
    if lo < |s| && IsBlank(s[lo], b) then LeadingEnd(s, b, lo + 1) else lo
  }

  /** Where the blanks of s[lo..hi] at its back begin: just after the last non-blank, or lo. */
  function TrailingStart(s: string, b: Blanks, lo: nat, hi: nat): (j: nat)
    requires lo <= hi <= |s|
    ensures lo <= j <= hi
    ensures forall k :: j <= k < hi ==> IsBlank(s[k], b)
    ensures lo < j ==> !IsBlank(s[j - 1], b)
  {
    if lo < hi && IsBlank(s[hi - 1], b) then TrailingStart(s, b, lo, hi - 1) else hi
  }

  /**
   * The slice of s left after dropping blanks at both ends: it starts at i,
   * everything before i and after its end is blank, and its own ends are not.
   */
  function Trim(s: string, b: Blanks): (r: string)
    ensures var i := LeadingEnd(s, b, 0);
      && i + |r| <= |s| && r == s[i..i + |r|]
      && (forall k :: 0 <= k < i ==> IsBlank(s[k], b))
      && (forall k :: i + |r| <= k < |s| ==> IsBlank(s[k], b))
    ensures r == [] || (!IsBlank(r[0], b) && !IsBlank(r[|r| - 1], b))
  {
    var i := LeadingEnd(s, b, 0);
    s[i..TrailingStart(s, b, i, |s|)]
  }

  /** `s.strip()`: the middle slice of s, with the whitespace at both ends dropped and nothing else. */
  function Strip(s: string): (r: string)
    ensures var i := LeadingEnd(s, StrBlanks, 0);
      && i + |r| <= |s| && r == s[i..i + |r|]
      && (forall k :: 0 <= k < i ==> IsSpace(s[k]))
      && (forall k :: i + |r| <= k < |s| ==> IsSpace(s[k]))
    ensures r == [] || (!IsSpace(r[0]) && !IsSpace(r[|r| - 1]))
  {
    Trim(s, StrBlanks)
  }

  /** A string whose ends are not blank is its own trim. */
  lemma TrimKeeps(s: string, b: Blanks)
    requires s == [] || (!IsBlank(s[0], b) && !IsBlank(s[|s| - 1], b))
    ensures Trim(s, b) == s
  {
  }

  /** Stripping twice is stripping once. */
  lemma StripIdempotent(s: string)
    ensures Strip(Strip(s)) == Strip(s)
  {
    TrimKeeps(Strip(s), StrBlanks);
  }

  /** `str(n)` for a non-negative integer: its shortest decimal form. */
  function NatString(n: nat): (r: string)
    ensures |r| > 0 && AllDigits(r)
    ensures r[0] == '0' ==> n == 0
  {
    if n < 10 then [DigitChar(n)] else NatString(n / 10) + [DigitChar(n % 10)]
  }

  /** `str(n)` for any integer. */
  function DecimalString(n: int): (r: string)
    ensures |r| > 0
  {
    if n < 0 then "-" + NatString(-n) else NatString(n)
  }

  /**
   * The digit body `int()` accepts after the sign: digits, with single
   * underscores allowed between two digits.
   */
  predicate Grouped(s: string) {
    && |s| > 0
    && IsDigit(s[0])
    && IsDigit(s[|s| - 1])
    && (forall k :: 0 <= k < |s| ==> IsDigit(s[k]) || s[k] == '_')
    && (forall k :: 0 <= k < |s| - 1 && s[k] == '_' ==> s[k + 1] != '_')
  }

  /** The digits of a grouped body, underscores dropped. */
  function Ungroup(s: string): (r: string)
    requires forall k :: 0 <= k < |s| ==> IsDigit(s[k]) || s[k] == '_'
    ensures AllDigits(r)
    ensures AllDigits(s) ==> r == s
  {
    if s == [] then []
    else if s[0] == '_' then Ungroup(s[1..])
    else [s[0]] + Ungroup(s[1..])
  }

  /**
   * `int(s)` for a string, base 10: the blanks `int()` skips, an optional
   * sign, then a grouped digit body; None stands for the ValueError.
   */
  function ParseInt(s: string): (r: Option<int>)
  {
    ParseSigned(Trim(s, IntBlanks))
  }

  /** `int()` on an already stripped string. */
  function ParseSigned(t: string): (r: Option<int>)
  {
    if |t| > 0 && (t[0] == '-' || t[0] == '+') then
      match ParseBody(t[1..])
      case Some(v) => var i: int := v; Some(if t[0] == '-' then -i else i)
      case None => None
    else ParseBody(t)
  }

  /** The value of a grouped digit body, None for anything else. */
  function ParseBody(b: string): (r: Option<nat>)
  {
    if Grouped(b) then Some(DigitsValue(Ungroup(b))) else None
  }

  lemma {:induction false} NatStringValue(n: nat)
    ensures DigitsValue(NatString(n)) == n
  {
    if n >= 10 {
      var s := NatString(n);
      NatStringValue(n / 10);
      assert s[..|s| - 1] == NatString(n / 10);
      assert DigitValue(s[|s| - 1]) == n % 10;
    }
  }

  lemma NatStringParses(n: nat)
    ensures Grouped(NatString(n))
    ensures Ungroup(NatString(n)) == NatString(n)
  {
  }

  lemma NatStringBody(m: nat)
    ensures ParseBody(NatString(m)) == Some(m)
  {
    NatStringParses(m);
    NatStringValue(m);
  }

  lemma NegativeParses(n: int)
    requires n < 0
    ensures ParseSigned(DecimalString(n)) == Some(n)
  {
    var m: nat := -n;
    var body := NatString(m);
    var s := DecimalString(n);
    assert s == "-" + body;
    assert s[1..] == body;
    NatStringBody(m);
    assert ParseBody(s[1..]) == Some(m);
  }

  /** `int(str(n)) == n` for every integer n. */
  lemma ParseDecimalString(n: int)
    ensures ParseInt(DecimalString(n)) == Some(n)
  {
    var s := DecimalString(n);
    if n < 0 {
      NegativeParses(n);
      assert s[|s| - 1] == NatString(-n)[|NatString(-n)| - 1];
    } else {
      NatStringBody(n);
    }
    TrimKeeps(s, IntBlanks);
  }

  /** `int()` only accepts strings that hold at least one digit. */
  lemma ParseIntNeedsDigit(s: string)
    requires ParseInt(s).Some?
    ensures exists k :: 0 <= k < |s| && IsDigit(s[k])
  {
    var t := Trim(s, IntBlanks);
    var off := LeadingEnd(s, IntBlanks, 0);
    if t[0] == '-' || t[0] == '+' {
      assert IsDigit(t[1]) && s[off + 1] == t[1];
    } else {
      assert IsDigit(t[0]) && s[off] == t[0];
    }
  }

  /**
   * A string `int()` accepts holds none of the separators U+001C to U+001F,
   * not even at its ends, although `strip()` drops them there.
   */
  lemma IntRefusesSeparators(s: string)
    requires ParseInt(s).Some?
    ensures forall k :: 0 <= k < |s| ==> !(28 <= s[k] as int <= 31)
  {
    var t := Trim(s, IntBlanks);
    SignedChars(t);
    NoSeparatorAround(s, t, LeadingEnd(s, IntBlanks, 0));
  }

  /** A slice free of separators, with only `int()` blanks around it, leaves none in the whole. */
  lemma NoSeparatorAround(s: string, t: string, i: nat)
    requires i + |t| <= |s| && t == s[i..i + |t|]
    requires forall k :: 0 <= k < i ==> IsBlank(s[k], IntBlanks)
    requires forall k :: i + |t| <= k < |s| ==> IsBlank(s[k], IntBlanks)
    requires forall k :: 0 <= k < |t| ==> IsDigit(t[k]) || t[k] == '_' || t[k] == '-' || t[k] == '+'
    ensures forall k :: 0 <= k < |s| ==> !(28 <= s[k] as int <= 31)
  {
    forall k | 0 <= k < |s|
      ensures !(28 <= s[k] as int <= 31)
    {
      if i <= k < i + |t| {
        assert s[k] == t[k - i];
      }
    }
  }

  /** What `int()` accepts once trimmed is made of digits, underscores and a sign. */
  lemma SignedChars(t: string)
    requires ParseSigned(t).Some?
    ensures forall k :: 0 <= k < |t| ==> IsDigit(t[k]) || t[k] == '_' || t[k] == '-' || t[k] == '+'
  {
    if |t| > 0 && (t[0] == '-' || t[0] == '+') {
      assert Grouped(t[1..]);
      forall k | 1 <= k < |t|
        ensures IsDigit(t[k]) || t[k] == '_'
      {
        assert t[k] == t[1..][k - 1];
      }
    } else {
      assert Grouped(t);
    }
  }

  /** The record separator before a number: `strip()` drops it, `int()` refuses the text. */
  lemma SeparatorSplitsStripFromInt()
    ensures Strip([28 as char, '5']) == "5"
    ensures ParseInt([28 as char, '5']) == None
  {
    var s := [28 as char, '5'];
    assert LeadingEnd(s, StrBlanks, 0) == 1;
    assert LeadingEnd(s, IntBlanks, 0) == 0;
    assert !Grouped(s);
  }

  /** Every character of s is a blank of the given set. */
  predicate AllBlank(s: string, b: Blanks) {
    forall k :: 0 <= k < |s| ==> IsBlank(s[k], b)
  }

  /** The optional sign `int()` takes before the digits. */
  predicate IsSign(sg: string) {
    sg == "" || sg == "+" || sg == "-"
  }

  /** The number a sign and a grouped digit body denote. */
  function SignedValue(sg: string, body: string): int
    requires Grouped(body)
  {
    var v: int := DigitsValue(Ungroup(body));
    if sg == "-" then -v else v
  }

  /**
   * What `int()` accepts, sufficient direction: blanks it skips, an optional
   * sign, a digit body with single underscores between digits, blanks again;
   * the value is the body's digits with the sign applied.
   */
  lemma IntAccepts(p: string, sg: string, body: string, q: string)
    requires AllBlank(p, IntBlanks) && AllBlank(q, IntBlanks)
    requires IsSign(sg) && Grouped(body)
    ensures ParseInt(p + sg + body + q) == Some(SignedValue(sg, body))
  {
    var m := sg + body;
    assert m[0] == (if sg == "" then body[0] else sg[0]);
    assert m[|m| - 1] == body[|body| - 1];
    assert p + sg + body + q == p + m + q;
    TrimPadded(p, m, q, IntBlanks);
    SignedBody(sg, body);
  }

  /** Blanks around a text with non-blank ends are exactly what a trim drops. */
  lemma TrimPadded(p: string, m: string, q: string, b: Blanks)
    requires AllBlank(p, b) && AllBlank(q, b)
    requires |m| > 0 && !IsBlank(m[0], b) && !IsBlank(m[|m| - 1], b)
    ensures Trim(p + m + q, b) == m
  {
    var s := p + m + q;
    var e := |p| + |m|;
    assert s[|p|] == m[0];
    assert s[e - 1] == m[|m| - 1];
    forall k | 0 <= k < |p| ensures IsBlank(s[k], b) {
      assert s[k] == p[k];
    }
    forall k | e <= k < |s| ensures IsBlank(s[k], b) {
      assert s[k] == q[k - e];
    }
    LeadingAt(s, b, |p|);
    TrailingAt(s, b, |p|, e);
    assert s[|p|..e] == m;
  }

  /** A sign before a grouped body is read as that body's value with the sign applied. */
  lemma SignedBody(sg: string, body: string)
    requires IsSign(sg) && Grouped(body)
    ensures ParseSigned(sg + body) == Some(SignedValue(sg, body))
  {
    var t := sg + body;
    if sg != "" {
      assert t[0] == sg[0] && t[1..] == body;
    } else {
      assert t == body;
    }
  }

  /** A run of blanks ended by a non-blank is exactly what `LeadingEnd` skips. */
  lemma LeadingAt(s: string, b: Blanks, i: nat)
    requires i < |s| && !IsBlank(s[i], b)
    requires forall k :: 0 <= k < i ==> IsBlank(s[k], b)
    ensures LeadingEnd(s, b, 0) == i
  {
  }

  /** A non-blank followed only by blanks ends what `TrailingStart` keeps. */
  lemma TrailingAt(s: string, b: Blanks, lo: nat, j: nat)
    requires lo < j <= |s| && !IsBlank(s[j - 1], b)
    requires forall k :: j <= k < |s| ==> IsBlank(s[k], b)
    ensures TrailingStart(s, b, lo, |s|) == j
  {
  }

  /**
   * What `int()` accepts, necessary direction: every accepted text splits
   * into skipped blanks, an optional sign, a grouped digit body and blanks,
   * and its value is the one that split denotes.
   */
  lemma IntForm(s: string) returns (p: string, sg: string, body: string, q: string)
    requires ParseInt(s).Some?
    ensures s == p + sg + body + q
    ensures AllBlank(p, IntBlanks) && AllBlank(q, IntBlanks)
    ensures IsSign(sg) && Grouped(body)
    ensures ParseInt(s) == Some(SignedValue(sg, body))
  {
    var t := Trim(s, IntBlanks);
    p, q := TrimSplit(s, IntBlanks);
    sg, body := SignedSplit(t);
    Regroup(s, p, t, q, sg, body);
  }

  lemma Regroup(s: string, p: string, t: string, q: string, sg: string, body: string)
    requires s == p + t + q && t == sg + body
    ensures s == p + sg + body + q
  {
    assert p + (sg + body) == p + sg + body;
  }

  /** A text is its trim with the dropped blanks on either side. */
  lemma TrimSplit(s: string, b: Blanks) returns (p: string, q: string)
    ensures s == p + Trim(s, b) + q
    ensures AllBlank(p, b) && AllBlank(q, b)
  {
    var t := Trim(s, b);
    var i := LeadingEnd(s, b, 0);
    p, q := s[..i], s[i + |t|..];
    ThreeSlices(s, i, i + |t|);
    forall k | 0 <= k < |q| ensures IsBlank(q[k], b) {
      assert q[k] == s[i + |t| + k];
    }
  }

  lemma ThreeSlices(s: string, i: nat, j: nat)
    requires i <= j <= |s|
    ensures s == s[..i] + s[i..j] + s[j..]
  {
    assert s[..i] + s[i..j] == s[..j];
  }

  /** An accepted trimmed text is an optional sign followed by a grouped body. */
  lemma SignedSplit(t: string) returns (sg: string, body: string)
    requires ParseSigned(t).Some?
    ensures t == sg + body && IsSign(sg) && Grouped(body)
    ensures ParseSigned(t) == Some(SignedValue(sg, body))
  {
    if |t| > 0 && (t[0] == '-' || t[0] == '+') {
      sg, body := t[..1], t[1..];
    } else {
      sg, body := "", t;
    }
    assert t == sg + body;
  }
}
