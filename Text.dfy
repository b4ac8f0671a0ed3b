/** The string primitives the handshake relies on: Python's `str.strip()`,
    the `in` substring test, `startswith` and `endswith`. */
module Text {

  /** The characters for which Python's `str.isspace()` holds, and so the
      characters `str.strip()` removes. */
  predicate IsSpace(c: char) {
    ('\t' <= c <= '\r') || ('\U{1C}' <= c <= '\U{1F}') || c == ' ' || c == '\U{85}' || c == '\U{A0}'
    || c == '\U{1680}' || ('\U{2000}' <= c <= '\U{200A}') || c == '\U{2028}' || c == '\U{2029}'
    || c == '\U{202F}' || c == '\U{205F}' || c == '\U{3000}'
  }

  /** Drops the leading characters that `space` holds for. */
  function TrimStart(s: string, space: char -> bool): string {
    if |s| > 0 && space(s[0]) then TrimStart(s[1..], space) else s
  }

  /** Drops the trailing characters that `space` holds for. */
  function TrimEnd(s: string, space: char -> bool): string {
    if |s| > 0 && space(s[|s| - 1]) then TrimEnd(s[..|s| - 1], space) else s
  }

  /** Drops the characters that `space` holds for at both ends. */
  function Trim(s: string, space: char -> bool): string {
    TrimEnd(TrimStart(s, space), space)
  }

  /** Python's `str.strip()`. */
  function Strip(s: string): string {
    Trim(s, IsSpace)
  }

  /** `TrimStart` leaves a suffix of `s` that does not start with a
      character `space` holds for, and everything it cuts off is such a
      character. */
  lemma {:induction false} TrimStartShape(s: string, space: char -> bool)
    ensures var r := TrimStart(s, space);
            |r| <= |s| && r == s[|s| - |r|..] && (r == [] || !space(r[0]))
            && forall k :: 0 <= k < |s| - |r| ==> space(s[k])
  {
    if |s| > 0 && space(s[0]) {
      TrimStartShape(s[1..], space);
    }
  }

  /** `TrimEnd` leaves a prefix of `s` that does not end with a character
      `space` holds for, and everything it cuts off is such a character. */
  lemma {:induction false} TrimEndShape(s: string, space: char -> bool)
    ensures var r := TrimEnd(s, space);
            |r| <= |s| && r == s[..|r|] && (r == [] || !space(r[|r| - 1]))
            && forall k :: |r| <= k < |s| ==> space(s[k])
  {
    if |s| > 0 && space(s[|s| - 1]) {
      TrimEndShape(s[..|s| - 1], space);
    }
  }

  /** Text with no such character at either end is left as it is. */
  lemma Untrimmed(s: string, space: char -> bool)
    requires s == [] || (!space(s[0]) && !space(s[|s| - 1]))
    ensures Trim(s, space) == s
  {
  }

  /** What `Strip` leaves: the slice of `s` that remains when all whitespace
      at both ends is removed, with no whitespace at either of its ends. */
  lemma StripShape(s: string)
    ensures var r := Strip(s);
            (r == [] || (!IsSpace(r[0]) && !IsSpace(r[|r| - 1])))
            && exists i :: OccursAt(s, r, i)
                           && (forall k :: 0 <= k < i ==> IsSpace(s[k]))
                           && (forall k :: i + |r| <= k < |s| ==> IsSpace(s[k]))
  {
    var t := TrimStart(s, IsSpace);
    TrimStartShape(s, IsSpace);
    TrimEndShape(t, IsSpace);
    var r := TrimEnd(t, IsSpace);
    var i := |s| - |t|;
    assert OccursAt(s, r, i);
  }

  /** `sub` occurs in `s` starting at position `i`. */
  predicate OccursAt(s: string, sub: string, i: int) {
    0 <= i && i + |sub| <= |s| && s[i..i + |sub|] == sub
  }

  /** Python's `sub in s`. */
  predicate Contains(s: string, sub: string) {
    exists i | 0 <= i <= |s| - |sub| :: OccursAt(s, sub, i)
  }

  /** Python's `s.startswith(p)`. */
  predicate StartsWith(s: string, p: string) {
    |p| <= |s| && s[..|p|] == p
  }

  /** Python's `s.endswith(p)`. */
  predicate EndsWith(s: string, p: string) {
    |p| <= |s| && s[|s| - |p|..] == p
  }

  /** A substring of `t` is a substring of any string that embeds `t`. */
  lemma ContainsWithin(a: string, t: string, b: string, sub: string)
    requires Contains(t, sub)
    ensures Contains(a + t + b, sub)
  {
    var i :| 0 <= i <= |t| - |sub| && OccursAt(t, sub, i);
    var s := a + t + b;
    assert s[|a| + i..|a| + i + |sub|] == t[i..i + |sub|];
    assert OccursAt(s, sub, |a| + i);
  }

  /** Every string contains itself. */
  lemma ContainsSelf(s: string)
    ensures Contains(s, s)
  {
    assert OccursAt(s, s, 0);
  }

  /** Whitespace in front of text that starts with a non-space is all that
      `TrimStart` removes. */
  lemma {:induction false} TrimStartSkips(a: string, t: string, space: char -> bool)
    requires forall k :: 0 <= k < |a| ==> space(a[k])
    requires |t| > 0 && !space(t[0])
    ensures TrimStart(a + t, space) == t
  {
    if a == [] {
      assert a + t == t;
    } else {
      assert (a + t)[0] == a[0];
      assert (a + t)[1..] == a[1..] + t;
      TrimStartSkips(a[1..], t, space);
    }
  }

  /** Whitespace after text that ends with a non-space is all that `TrimEnd`
      removes. */
  lemma {:induction false} TrimEndSkips(t: string, b: string, space: char -> bool)
    requires forall k :: 0 <= k < |b| ==> space(b[k])
    requires |t| > 0 && !space(t[|t| - 1])
    ensures TrimEnd(t + b, space) == t
  {
    if b == [] {
      assert t + b == t;
    } else {
      var u := t + b;
      assert u[|u| - 1] == b[|b| - 1];
      assert u[..|u| - 1] == t + b[..|b| - 1];
      TrimEndSkips(t, b[..|b| - 1], space);
    }
  }

  /** Stripping text padded with whitespace on both sides gives back the
      text, when it has no whitespace at either end. */
  lemma StripPadded(a: string, r: string, b: string)
    requires forall k :: 0 <= k < |a| ==> IsSpace(a[k])
    requires forall k :: 0 <= k < |b| ==> IsSpace(b[k])
    requires |r| > 0 && !IsSpace(r[0]) && !IsSpace(r[|r| - 1])
    ensures Strip(a + r + b) == r
  {
    assert a + r + b == a + (r + b);
    assert (r + b)[0] == r[0];
    TrimStartSkips(a, r + b, IsSpace);
    TrimEndSkips(r, b, IsSpace);
  }
}
