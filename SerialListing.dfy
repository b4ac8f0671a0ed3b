/** Reading the flight controller's `serial` listing: the pattern
    `serial ([0-9]+) ([0-9]+) ` that picks the UART index and function code
    out of a line, and the scan over the listing that looks for the UART
    whose function code is 64 (the serial receiver). */
module SerialListing {
  import opened Wrappers
  import opened Text
  import opened Decimal

  /** The two capture groups of the pattern. */
  datatype Groups = Groups(index: string, functionCode: string)

  /** The receiver-serial function code, compared as text. */
  const RxFunctionCode := "64"

  /** The literal that opens the pattern. */
  const PatternHead := "serial "

  /** The pattern matches `s` at position `p` with groups `g`: `s[p..]` starts
      with `serial `, the index digits, a space, the function-code digits and
      a space. */
  predicate PatternAt(s: string, p: int, g: Groups) {
    |g.index| > 0 && AllDigits(g.index)
    && |g.functionCode| > 0 && AllDigits(g.functionCode)
    && OccursAt(s, PatternHead + g.index + " " + g.functionCode + " ", p)
  }

  /** The length of the run of digits in `s` that starts at `a`. */
  function DigitRun(s: string, a: nat): (n: nat)
    requires a <= |s|
    ensures a + n <= |s|
    ensures forall k :: a <= k < a + n ==> IsDigit(s[k])
    ensures a + n == |s| || !IsDigit(s[a + n])
    decreases |s| - a
  {
    if a < |s| && IsDigit(s[a]) then 1 + DigitRun(s, a + 1) else 0
  }

  /** The length of the digit run at `a` when it is non-empty and followed
      by a space, which is what `([0-9]+) ` needs there; 0 otherwise. */
  function SpacedRun(s: string, a: nat): (n: nat)
    requires a <= |s|
    ensures n > 0 ==> a + n < |s| && s[a + n] == ' ' && AllDigits(s[a..a + n])
  {
    var n := DigitRun(s, a);
    if n > 0 && a + n < |s| && s[a + n] == ' ' then n else 0
  }

  /** The regular-expression engine's attempt at position `p`. `[0-9]+` is
      greedy and the character after it must be a space, so only the whole
      run of digits can be the group. */
  function MatchAt(s: string, p: nat): Option<Groups>
    requires p <= |s|
  {
    if !StartsWith(s[p..], PatternHead) then None
    else
      var a := p + |PatternHead|;
      var n1 := SpacedRun(s, a);
      if n1 == 0 then None
      else
        var b := a + n1 + 1;
        var n2 := SpacedRun(s, b);
        if n2 == 0 then None else Some(Groups(s[a..a + n1], s[b..b + n2]))
  }

  /** The attempt at `p` when both groups are there. */
  lemma MatchAtParts(s: string, p: nat, g: Groups)
    requires p + |PatternHead| <= |s| && StartsWith(s[p..], PatternHead)
    requires var a := p + |PatternHead|;
             var b := a + |g.index| + 1;
             SpacedRun(s, a) == |g.index| > 0 && b <= |s| && SpacedRun(s, b) == |g.functionCode| > 0
             && s[a..a + |g.index|] == g.index && s[b..b + |g.functionCode|] == g.functionCode
    ensures MatchAt(s, p) == Some(g)
  {
  }

  /** What the attempt at `p` reports is a match of the pattern there. */
  lemma MatchAtSound(s: string, p: nat)
    requires p <= |s| && MatchAt(s, p).Some?
    ensures PatternAt(s, p, MatchAt(s, p).value)
  {
    var g := MatchAt(s, p).value;
    var i, f := g.index, g.functionCode;
    MatchAtPieces(s, p);
    JoinOccurrence(s, PatternHead, i, p);
    JoinOccurrence(s, PatternHead + i, " ", p);
    JoinOccurrence(s, PatternHead + i + " ", f, p);
    JoinOccurrence(s, PatternHead + i + " " + f, " ", p);
  }

  /** The pieces the attempt at `p` reads when it succeeds. */
  lemma MatchAtPieces(s: string, p: nat)
    requires p <= |s| && MatchAt(s, p).Some?
    ensures var g := MatchAt(s, p).value;
            var a := p + |PatternHead|;
            var b := a + |g.index| + 1;
            |g.index| > 0 && AllDigits(g.index) && |g.functionCode| > 0 && AllDigits(g.functionCode)
            && OccursAt(s, PatternHead, p) && OccursAt(s, g.index, a) && OccursAt(s, " ", b - 1)
            && OccursAt(s, g.functionCode, b) && OccursAt(s, " ", b + |g.functionCode|)
  {
  }

  /** An occurrence of `x` followed by one of `y` is an occurrence of
      `x + y`. */
  lemma JoinOccurrence(s: string, x: string, y: string, p: int)
    requires OccursAt(s, x, p) && OccursAt(s, y, p + |x|)
    ensures OccursAt(s, x + y, p)
  {
    assert s[p..p + |x| + |y|] == s[p..p + |x|] + s[p + |x|..p + |x| + |y|];
  }

  /** A run of digits followed by a space is exactly what `DigitRun` measures. */
  lemma DigitRunExact(s: string, a: nat, d: string)
    requires a + |d| < |s| && s[a..a + |d|] == d && AllDigits(d) && s[a + |d|] == ' '
    ensures DigitRun(s, a) == |d|
  {
  }

  /** An occurrence of `x + y` is an occurrence of `x` followed by one of
      `y`. */
  lemma SplitOccurrence(s: string, x: string, y: string, p: int)
    requires OccursAt(s, x + y, p)
    ensures OccursAt(s, x, p) && OccursAt(s, y, p + |x|)
  {
    assert s[p..p + |x|] == (x + y)[..|x|];
    assert s[p + |x|..p + |x| + |y|] == (x + y)[|x|..];
  }

  /** The pieces of a match of the pattern at `p`. */
  lemma PatternPieces(s: string, p: nat, g: Groups)
    requires PatternAt(s, p, g)
    ensures var a := p + |PatternHead|;
            var b := a + |g.index| + 1;
            var e := b + |g.functionCode|;
            e < |s| && StartsWith(s[p..], PatternHead)
            && s[a..a + |g.index|] == g.index && s[a + |g.index|] == ' '
            && s[b..e] == g.functionCode && s[e] == ' '
  {
    var i, f := g.index, g.functionCode;
    var u := PatternHead + i + " ";
    SplitOccurrence(s, u + f, " ", p);
    SplitOccurrence(s, u, f, p);
    SplitOccurrence(s, PatternHead + i, " ", p);
    SplitOccurrence(s, PatternHead, i, p);
    assert s[p..][..|PatternHead|] == s[p..p + |PatternHead|];
    var c, e := p + |PatternHead| + |i|, p + |u| + |f|;
    assert s[c] == s[c..c + 1][0];
    assert s[e] == s[e..e + 1][0];
  }

  /** Any place where the pattern matches is found by the attempt there. */
  lemma MatchAtComplete(s: string, p: nat, g: Groups)
    requires p <= |s| && PatternAt(s, p, g)
    ensures MatchAt(s, p) == Some(g)
  {
    var i, f := g.index, g.functionCode;
    var a := p + |PatternHead|;
    var b := a + |i| + 1;
    PatternPieces(s, p, g);
    assert SpacedRun(s, a) == |i| by {
      DigitRunExact(s, a, i);
    }
    assert SpacedRun(s, b) == |f| by {
      DigitRunExact(s, b, f);
    }
    MatchAtParts(s, p, g);
  }

  /** `re.search`: the leftmost match at or after position `from`. */
  function Search(s: string, from: nat): Option<Groups>
    requires from <= |s|
    decreases |s| - from
  {
    match MatchAt(s, from)
    case Some(g) => Some(g)
    case None => if from == |s| then None else Search(s, from + 1)
  }

  /** When `re.search` finds nothing, the pattern matches nowhere. */
  lemma {:induction false} SearchNone(s: string, from: nat)
    requires from <= |s| && Search(s, from).None?
    ensures forall p, g :: from <= p <= |s| ==> !PatternAt(s, p, g)
    decreases |s| - from
  {
    forall p, g | from <= p <= |s| ensures !PatternAt(s, p, g) {
      if p == from {
        if PatternAt(s, p, g) { MatchAtComplete(s, p, g); }
      } else {
        SearchNone(s, from + 1);
      }
    }
  }

  /** When `re.search` finds groups, the pattern matches with them at some
      position and at no earlier one: the match is the leftmost. */
  lemma {:induction false} SearchFound(s: string, from: nat)
    requires from <= |s| && Search(s, from).Some?
    ensures exists p :: from <= p <= |s| && PatternAt(s, p, Search(s, from).value)
                        && forall q, h :: from <= q < p ==> !PatternAt(s, q, h)
    decreases |s| - from
  {
    var g := Search(s, from).value;
    if MatchAt(s, from).Some? {
      MatchAtSound(s, from);
      assert PatternAt(s, from, g);
    } else {
      SearchFound(s, from + 1);
      var p :| from + 1 <= p <= |s| && PatternAt(s, p, g)
               && forall q, h :: from + 1 <= q < p ==> !PatternAt(s, q, h);
      forall q, h | from <= q < p ensures !PatternAt(s, q, h) {
        if q == from && PatternAt(s, q, h) { MatchAtComplete(s, q, h); }
      }
    }
  }

  /** How the scan reads one line of the listing. */
  datatype ListingLine =
    | EndOfListing          // blank, or carrying the prompt `#`
    | RxUart(index: string) // starts with `serial` and its function-code group is exactly `64`
    | OtherLine

  /** Classifies one reply line of the listing, after stripping it. */
  function Classify(line: string): ListingLine {
    var t := Strip(line);
    if t == "" || Contains(t, "#") then EndOfListing
    else if !StartsWith(t, "serial") then OtherLine
    else
      match Search(t, 0)
      case Some(g) => if g.functionCode == RxFunctionCode then RxUart(g.index) else OtherLine
      case None => OtherLine
  }

  /** `re.search` returns the groups of the leftmost match: a match at `p`
      with none between `from` and `p` is what the search finds. */
  lemma {:induction false} SearchLeftmost(s: string, from: nat, p: nat, g: Groups)
    requires from <= p <= |s| && PatternAt(s, p, g)
    requires forall q, h :: from <= q < p ==> !PatternAt(s, q, h)
    ensures Search(s, from) == Some(g)
    decreases p - from
  {
    if from == p {
      MatchAtComplete(s, p, g);
    } else {
      assert MatchAt(s, from) == None by {
        if MatchAt(s, from).Some? {
          MatchAtSound(s, from);
        }
      }
      SearchLeftmost(s, from + 1, p, g);
    }
  }

  /** An Rx line is a stripped, non-blank line without `#` that starts with
      `serial`, and the leftmost match of the pattern in it has function code
      `64` and the line's index as its first group. */
  lemma RxLineShape(line: string)
    requires Classify(line).RxUart?
    ensures var t, idx := Strip(line), Classify(line).index;
            t != "" && !Contains(t, "#") && StartsWith(t, "serial")
            && |idx| > 0 && AllDigits(idx)
            && exists p :: 0 <= p <= |t| && PatternAt(t, p, Groups(idx, RxFunctionCode))
                           && forall q, h :: 0 <= q < p ==> !PatternAt(t, q, h)
  {
    var t := Strip(line);
    SearchFound(t, 0);
  }

  /** The converse: a line of that shape is an Rx line with that index. */
  lemma RxLineFromMatch(line: string, p: nat, idx: string)
    requires var t := Strip(line);
             t != "" && !Contains(t, "#") && StartsWith(t, "serial")
             && p <= |t| && PatternAt(t, p, Groups(idx, RxFunctionCode))
             && forall q, h :: 0 <= q < p ==> !PatternAt(t, q, h)
    ensures Classify(line) == RxUart(idx)
  {
    SearchLeftmost(Strip(line), 0, p, Groups(idx, RxFunctionCode));
  }

  /** The classification of every queued reply line. */
  function Kinds(replies: seq<string>): seq<ListingLine> {
    seq(|replies|, i requires 0 <= i < |replies| => Classify(replies[i]))
  }

  /** The UART scan over the classified reply lines still queued, from the
      index found so far. Each step reads one line; an exhausted queue reads
      as the empty line, which ends the listing and consumes nothing. A line
      that ends the listing stops the scan; an Rx line records its index and,
      unless `debug` is set, stops the scan too. Returns the recorded index
      (`""` for none) and how many lines were read. */
  function ScanLines(kinds: seq<ListingLine>, debug: bool, found: string): (r: (string, nat))
    ensures r.1 <= |kinds|
  {
    if kinds == [] then (found, 0)
    else
      match kinds[0]
      case EndOfListing => (found, 1)
      case RxUart(idx) =>
        if debug then var rest := ScanLines(kinds[1..], debug, idx); (rest.0, rest.1 + 1)
        else (idx, 1)
      case OtherLine => var rest := ScanLines(kinds[1..], debug, found); (rest.0, rest.1 + 1)
  }

  /** The number of lines of the listing proper: those before the first
      line that ends it. */
  function ListingLength(kinds: seq<ListingLine>): (n: nat)
    ensures n <= |kinds|
    ensures forall i :: 0 <= i < n ==> !kinds[i].EndOfListing?
    ensures n < |kinds| ==> kinds[n].EndOfListing?
  {
    if kinds == [] || kinds[0].EndOfListing? then 0 else 1 + ListingLength(kinds[1..])
  }

  /** Without debug, the scan keeps the FIRST Rx line of the listing and
      reads nothing after it; when the listing has no Rx line it keeps what
      it had and reads up to and including the line that ends the listing. */
  lemma {:induction false} ScanKeepsFirst(kinds: seq<ListingLine>, found: string)
    ensures var (idx, used) := ScanLines(kinds, false, found);
            var n := ListingLength(kinds);
            ((forall i :: 0 <= i < n ==> !kinds[i].RxUart?) ==>
               idx == found && used == (if n < |kinds| then n + 1 else n))
            && ((exists i :: 0 <= i < n && kinds[i].RxUart?) ==>
                exists i :: 0 <= i < n && kinds[i] == RxUart(idx) && used == i + 1
                            && forall j :: 0 <= j < i ==> !kinds[j].RxUart?)
  {
    if kinds != [] && kinds[0].OtherLine? {
      var tail := kinds[1..];
      ScanKeepsFirst(tail, found);
      var n := ListingLength(kinds);
      assert n == 1 + ListingLength(tail);
      if exists i :: 0 <= i < n && kinds[i].RxUart? {
        var i :| 0 <= i < n && kinds[i].RxUart?;
        assert tail[i - 1].RxUart?;
        var (idx, used) := ScanLines(tail, false, found);
        var k :| 0 <= k < n - 1 && tail[k] == RxUart(idx) && used == k + 1
                 && forall j :: 0 <= j < k ==> !tail[j].RxUart?;
        assert kinds[k + 1] == RxUart(idx);
      } else {
        forall j | 0 <= j < n - 1 ensures !tail[j].RxUart? {
          assert tail[j] == kinds[j + 1];
        }
      }
    }
  }

  /** With debug, the scan reads up to and including the line that ends the
      listing and keeps the LAST Rx line in it; when the listing has no Rx
      line it keeps what it had. */
  lemma {:induction false} ScanKeepsLast(kinds: seq<ListingLine>, found: string)
    ensures var (idx, used) := ScanLines(kinds, true, found);
            var n := ListingLength(kinds);
            used == (if n < |kinds| then n + 1 else n)
            && ((forall i :: 0 <= i < n ==> !kinds[i].RxUart?) ==> idx == found)
            && ((exists i :: 0 <= i < n && kinds[i].RxUart?) ==>
                exists i :: 0 <= i < n && kinds[i] == RxUart(idx)
                            && forall j :: i < j < n ==> !kinds[j].RxUart?)
  {
    if kinds != [] && !kinds[0].EndOfListing? {
      var tail := kinds[1..];
      var found' := if kinds[0].RxUart? then kinds[0].index else found;
      ScanKeepsLast(tail, found');
      var n := ListingLength(kinds);
      assert n == 1 + ListingLength(tail);
      var idx := ScanLines(kinds, true, found).0;
      assert idx == ScanLines(tail, true, found').0;
      if exists i :: 0 <= i < n - 1 && tail[i].RxUart? {
        var i :| 0 <= i < n - 1 && tail[i] == RxUart(idx)
                 && forall j :: i < j < n - 1 ==> !tail[j].RxUart?;
        assert kinds[i + 1] == RxUart(idx);
        forall j | i + 1 < j < n ensures !kinds[j].RxUart? {
          assert kinds[j] == tail[j - 1];
        }
      } else {
        forall j | 0 < j < n ensures !kinds[j].RxUart? {
          assert kinds[j] == tail[j - 1];
        }
      }
    }
  }
}
