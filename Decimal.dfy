/** Decimal text for integers: Python's `str(n)` (which `"%s" % n` uses) and
    Python's `int(text)` for base-10 text, as the entry point applies it to
    its command-line argument. */
module Decimal {
  import opened Wrappers
  import opened Text

  /** The ASCII digits, the only ones the model accepts. */
  predicate IsDigit(c: char) {
    '0' <= c <= '9'
  }

  predicate AllDigits(s: string) {
    forall k :: 0 <= k < |s| ==> IsDigit(s[k])
  }

  function DigitChar(d: nat): (c: char)
    requires d < 10
    ensures IsDigit(c)
  {
    ('0' as int + d) as char
  }

  function DigitValue(c: char): (d: nat)
    requires IsDigit(c)
    ensures d < 10
  {
    c as int - '0' as int
  }

  /** `str(n)` for a non-negative integer: non-empty, only digits, and no
      leading zero unless the number is zero. */
  function NatToString(n: nat): (r: string)
    ensures |r| > 0 && AllDigits(r)
    ensures r[0] == '0' ==> n == 0
  {
    if n < 10 then [DigitChar(n)] else NatToString(n / 10) + [DigitChar(n % 10)]
  }

  /** `str(n)`: a minus sign in front of the magnitude for negative numbers. */
  function IntToString(n: int): (r: string)
    ensures |r| > 0 && IsDigit(r[|r| - 1])
    ensures n < 0 <==> r[0] == '-'
  {
    if n < 0 then "-" + NatToString(-n) else NatToString(n)
  }

  /** The value of a string of digits, most significant first. */
  function DigitsValue(s: string): nat
    requires AllDigits(s)
  {
    if s == [] then 0 else DigitsValue(s[..|s| - 1]) * 10 + DigitValue(s[|s| - 1])
  }

  lemma {:induction false} NatToStringValue(n: nat)
    ensures DigitsValue(NatToString(n)) == n
  {
    if n >= 10 {
      var s := NatToString(n / 10) + [DigitChar(n % 10)];
      assert s[..|s| - 1] == NatToString(n / 10);
      NatToStringValue(n / 10);
    }
  }

  predicate DigitsOrUnderscores(s: string) {
    forall k :: 0 <= k < |s| ==> IsDigit(s[k]) || s[k] == '_'
  }

  /** The digit text Python's `int()` accepts after the sign: digits, with
      single underscores allowed between two digits. */
  predicate DigitGroups(s: string) {
    |s| > 0 && DigitsOrUnderscores(s)
    && forall k :: 0 <= k < |s| && s[k] == '_' ==> 0 < k < |s| - 1 && IsDigit(s[k - 1]) && IsDigit(s[k + 1])
  }

  /** The digits of `s`, in order, without its underscores. */
  function DropUnderscores(s: string): (r: string)
    requires DigitsOrUnderscores(s)
    ensures AllDigits(r) && |r| <= |s|
  {
    if s == [] then []
    else if s[0] == '_' then DropUnderscores(s[1..])
    else [s[0]] + DropUnderscores(s[1..])
  }

  /** Exactly the underscores are dropped: one character fewer for each. */
  lemma {:induction false} DropUnderscoresCount(s: string)
    requires DigitsOrUnderscores(s)
    ensures |DropUnderscores(s)| == |s| - multiset(s)['_']
  {
    if s != [] {
      assert s == [s[0]] + s[1..];
      DropUnderscoresCount(s[1..]);
    }
  }

  /** Dropping underscores works piece by piece. */
  lemma {:induction false} DropUnderscoresAppend(x: string, y: string)
    requires DigitsOrUnderscores(x) && DigitsOrUnderscores(y)
    ensures DigitsOrUnderscores(x + y)
    ensures DropUnderscores(x + y) == DropUnderscores(x) + DropUnderscores(y)
  {
    if x == [] {
      assert x + y == y;
    } else {
      assert (x + y)[1..] == x[1..] + y;
      DropUnderscoresAppend(x[1..], y);
      assert (x + y)[0] == x[0];
    }
  }

  lemma {:induction false} DropUnderscoresOfDigits(s: string)
    requires AllDigits(s)
    ensures DropUnderscores(s) == s
  {
    if s != [] {
      DropUnderscoresOfDigits(s[1..]);
    }
  }

  /** The most digits `int()` converts from decimal text: CPython's default
      `sys.get_int_max_str_digits()`. Longer text raises `ValueError`. */
  const MaxStrDigits := 4300

  /** The unsigned part of `int(text)`: the value of digit groups, unless
      they hold more digits than the limit (underscores do not count). */
  function ParseUnsigned(body: string): Option<nat> {
    if DigitGroups(body) && |DropUnderscores(body)| <= MaxStrDigits then
      Some(DigitsValue(DropUnderscores(body)))
    else None
  }

  /** The whitespace `int()` skips around a number: the ASCII space, tab,
      line feed, vertical tab, form feed and carriage return, and the
      non-ASCII characters of Python's `isspace()` set. Unlike `str.strip()`
      it does not skip the separators U+001C to U+001F. */
  predicate IsIntSpace(c: char) {
    IsSpace(c) && !('\U{1C}' <= c <= '\U{1F}')
  }

  /** The text `int()` reads once the whitespace it skips is removed. */
  function IntStrip(s: string): string {
    Trim(s, IsIntSpace)
  }

  /** Python's `int(text)` in base 10: the whitespace `int()` skips around
      the number is ignored, an optional sign comes first, then digit groups;
      anything else is the `ValueError` that is modelled as `None`. */
  function ParseInt(text: string): Option<int> {
    var t := IntStrip(text);
    if |t| > 0 && (t[0] == '-' || t[0] == '+') then
      match ParseUnsigned(t[1..])
      case None => None
      case Some(m) => Some(if t[0] == '-' then -(m as int) else m as int)
    else
      match ParseUnsigned(t)
      case None => None
      case Some(m) => Some(m)
  }

  lemma ParseUnsignedOfNat(n: nat)
    requires |NatToString(n)| <= MaxStrDigits
    ensures ParseUnsigned(NatToString(n)) == Some(n)
  {
    var digits := NatToString(n);
    assert DigitGroups(digits);
    DropUnderscoresOfDigits(digits);
    NatToStringValue(n);
  }

  /** The size of an integer, whose digits `str` writes. */
  function Magnitude(n: int): nat {
    if n < 0 then -n else n
  }

  /** `int(str(n)) == n`: parsing undoes formatting, for every number with
      no more digits than the limit. */
  lemma ParseIntRoundTrip(n: int)
    requires |NatToString(Magnitude(n))| <= MaxStrDigits
    ensures ParseInt(IntToString(n)) == Some(n)
  {
    var s := IntToString(n);
    Untrimmed(s, IsIntSpace);
    if n < 0 {
      assert s[1..] == NatToString(-n);
      ParseUnsignedOfNat(-n);
    } else {
      ParseUnsignedOfNat(n);
    }
  }

  /** The text `int()` reads when it parses is a sign or digit followed by
      digit groups, so it starts and ends with a character that is no
      whitespace of any kind. */
  lemma ParsedEnds(text: string)
    requires ParseInt(text).Some?
    ensures var r := IntStrip(text);
            |r| > 0 && (r[0] == '-' || r[0] == '+' || IsDigit(r[0])) && IsDigit(r[|r| - 1])
  {
    var r := IntStrip(text);
    var body := if r[0] == '-' || r[0] == '+' then r[1..] else r;
    assert DigitGroups(body);
    assert body[|body| - 1] == r[|r| - 1];
  }

  /** Text that parses is read as `str.strip()` leaves it: a number has no
      whitespace of any kind at its ends. */
  lemma ParsedIsStripped(text: string)
    ensures ParseInt(text).Some? ==> Strip(text) == IntStrip(text)
  {
    if ParseInt(text).Some? {
      var t := TrimStart(text, IsIntSpace);
      TrimStartShape(text, IsIntSpace);
      var r := TrimEnd(t, IsIntSpace);
      TrimEndShape(t, IsIntSpace);
      ParsedEnds(text);
      var a, b := text[..|text| - |t|], t[|r|..];
      assert text == a + r + b;
      assert forall k :: 0 <= k < |a| ==> IsIntSpace(a[k]);
      assert forall k :: 0 <= k < |b| ==> IsIntSpace(b[k]) by {
        forall k | 0 <= k < |b| ensures IsIntSpace(b[k]) {
          assert b[k] == t[|r| + k];
        }
      }
      StripPadded(a, r, b);
    }
  }

  /** Text that does not parse: empty or blank text, and a bare sign. */
  lemma ParseIntRejectsBlank(text: string)
    requires Strip(text) == [] || Strip(text) == "-" || Strip(text) == "+"
    ensures ParseInt(text) == None
  {
    ParsedIsStripped(text);
  }

  /** A separator U+001C to U+001F in front of the number is not skipped:
      `int()` raises although `str.strip()` would remove it. */
  lemma SeparatorNotSkipped(c: char, rest: string)
    requires '\U{1C}' <= c <= '\U{1F}'
    ensures ParseInt([c] + rest) == None
  {
    var u := [c] + rest;
    assert TrimStart(u, IsIntSpace) == u;
    TrimEndShape(u, IsIntSpace);
    var r := TrimEnd(u, IsIntSpace);
    assert |r| > 0 && r[0] == c;
    assert !DigitGroups(r);
  }

  /** Two runs of digits joined by one underscore are digit groups. */
  lemma UnderscoreGroups(a: string, b: string)
    requires |a| > 0 && |b| > 0 && AllDigits(a) && AllDigits(b)
    ensures DigitGroups(a + "_" + b)
  {
    var u := a + "_" + b;
    assert forall k :: 0 <= k < |a| ==> u[k] == a[k];
    assert forall k :: |a| < k < |u| ==> u[k] == b[k - |a| - 1];
    assert u[|a| - 1] == a[|a| - 1] && u[|a| + 1] == b[0];
  }

  /** The digits of two runs joined by an underscore are those of the two
      runs. */
  lemma UnderscoreJoin(a: string, b: string)
    requires AllDigits(a) && AllDigits(b)
    ensures DigitsOrUnderscores(a + "_" + b) && DropUnderscores(a + "_" + b) == a + b
  {
    assert a + "_" + b == a + ("_" + b);
    DropUnderscoresAppend(a, "_" + b);
    assert ("_" + b)[1..] == b;
    DropUnderscoresOfDigits(a);
    DropUnderscoresOfDigits(b);
  }

  /** Underscores between digits are ignored: `int("1_000") == int("1000")`. */
  lemma UnderscoreIgnored(a: string, b: string)
    requires |a| > 0 && |b| > 0 && AllDigits(a) && AllDigits(b)
    ensures ParseInt(a + "_" + b) == ParseInt(a + b)
  {
    var u, v := a + "_" + b, a + b;
    assert u[0] == a[0] && v[0] == a[0] && u[|u| - 1] == b[|b| - 1] && v[|v| - 1] == b[|b| - 1];
    Untrimmed(u, IsIntSpace);
    Untrimmed(v, IsIntSpace);
    UnderscoreGroups(a, b);
    UnderscoreJoin(a, b);
    assert AllDigits(v);
    DropUnderscoresOfDigits(v);
  }

  /** Decimal text with more digits than the limit does not parse. */
  lemma TooManyDigits(text: string)
    requires AllDigits(Strip(text)) && |Strip(text)| > MaxStrDigits
    ensures ParseInt(text) == None
  {
    ParsedIsStripped(text);
    DropUnderscoresOfDigits(Strip(text));
  }
}
