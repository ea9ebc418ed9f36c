/** The cleaning of a chat message (`ChatExport.Clean`) line by line: every replacement
    of the chain works on each line of a message separately, so what it does to a line on
    its own it does to that line inside a longer message. */
module CleanLines {
  import opened Wrappers
  import opened Strings
  import opened ChatExport
  import opened ReplaceSteps

  // ---------------------------------------------------------------------------
  // The text after a line break is scanned as a text of its own
  // ---------------------------------------------------------------------------

  /** After `x` the scan is where it would be at the start of a text: `x` is empty or ends
      in a line terminator, or the pattern has no `^`. */
  predicate FreshLine(p: Pattern, x: string) {
    x == [] || IsLineTerminator(x[|x| - 1]) || !(p.QuoteMark? || p.BulletMark?)
  }

  function Shifted(o: Option<nat>, d: nat): Option<nat> {
    if o.Some? then Some(o.value + d) else None
  }

  lemma {:induction false} CloseDoubleShift(x: string, y: string, i: nat)
    ensures CloseDouble(x + y, |x| + i) == Shifted(CloseDouble(y, i), |x|)
    decreases |y| - i
  {
    if i + 1 < |y| {
      var s := x + y;
      assert s[|x| + i] == y[i] && s[|x| + i + 1] == y[i + 1];
      if !(y[i] == '*' && y[i + 1] == '*') && !IsLineTerminator(y[i]) {
        CloseDoubleShift(x, y, i + 1);
      }
    }
  }

  lemma {:induction false} CloseSingleShift(x: string, y: string, i: nat, c: char)
    requires !IsLineTerminator(c)
    ensures CloseSingle(x + y, |x| + i, c) == Shifted(CloseSingle(y, i, c), |x|)
    decreases |y| - i
  {
    if i < |y| {
      assert (x + y)[|x| + i] == y[i];
      if y[i] != c && !IsLineTerminator(y[i]) {
        CloseSingleShift(x, y, i + 1, c);
      }
    }
  }

  lemma LineStartShift(x: string, y: string, j: nat)
    requires j <= |y| && (j > 0 || x == [] || IsLineTerminator(x[|x| - 1]))
    ensures LineStart(x + y, |x| + j) == LineStart(y, j)
  {
    if j > 0 { assert (x + y)[|x| + j - 1] == y[j - 1]; }
  }

  lemma MarkerShift(m: string, x: string, y: string, j: nat)
    requires j < |y|
    ensures MarkerLen(m, x + y, |x| + j) == MarkerLen(m, y, j)
  {
    var s := x + y;
    if j + |m| <= |y| {
      assert s[|x| + j..|x| + j + |m|] == y[j..j + |m|];
      if j + |m| < |y| { assert s[|x| + j + |m|] == y[j + |m|]; }
    }
  }

  lemma BulletShift(x: string, y: string, j: nat)
    requires j < |y| && (j > 0 || x == [] || IsLineTerminator(x[|x| - 1]))
    ensures BulletLen(x + y, |x| + j) == BulletLen(y, j)
  {
    var s := x + y;
    assert s[|x| + j..] == y[j..];
    LineStartShift(x, y, j);
    var w := Lead(y[j..]);
    if j + w < |y| { assert s[|x| + j + w] == y[j + w]; }
    if j + w + 1 < |y| { assert s[|x| + j + w + 1] == y[j + w + 1]; }
  }

  lemma BoldShift(x: string, y: string, j: nat)
    requires j < |y|
    ensures BoldLen(x + y, |x| + j) == BoldLen(y, j)
  {
    var s := x + y;
    var c := CloseDouble(y, j + 2);
    assert CloseDouble(s, |x| + j + 2) == Shifted(c, |x|) by {
      CloseDoubleShift(x, y, j + 2);
    }
    assert s[|x| + j] == y[j];
    if j + 1 < |y| {
      assert s[|x| + j + 1] == y[j + 1];
    }
  }

  lemma ItalicShift(x: string, y: string, j: nat)
    requires j < |y|
    ensures ItalicLen(x + y, |x| + j) == ItalicLen(y, j)
  {
    var s := x + y;
    CloseSingleShift(x, y, j + 1, '*');
    assert s[|x| + j] == y[j];
    if y[j] == '*' && CloseSingle(y, j + 1, '*').Some? {
      var v := CloseSingle(y, j + 1, '*').value;
      assert CloseSingle(s, |x| + j + 1, '*') == Some(|x| + v);
    }
  }

  /** A match in `y` is the same match in `x + y`, `|x|` further on. */
  lemma MatchLenShift(p: Pattern, x: string, y: string, j: nat)
    requires j < |y| && (j > 0 || FreshLine(p, x))
    ensures MatchLen(p, x + y, |x| + j) == MatchLen(p, y, j)
  {
    var s := x + y;
    assert s[|x| + j] == y[j];
    match p
    case BoldPair => BoldShift(x, y, j);
    case ItalicPair => ItalicShift(x, y, j);
    case Marker(m) => MarkerShift(m, x, y, j);
    case QuoteMark =>
      LineStartShift(x, y, j);
      if j + 1 < |y| { assert s[|x| + j + 1] == y[j + 1]; }
    case Backtick =>
    case BulletMark => BulletShift(x, y, j);
  }

  lemma ReplacementShift(p: Pattern, x: string, y: string, j: nat, n: nat)
    requires j < |y| && MatchLen(p, y, j) == Some(n) && MatchLen(p, x + y, |x| + j) == Some(n)
    ensures Replacement(p, x + y, |x| + j, n) == Replacement(p, y, j, n)
  {
    var s := x + y;
    if p.BoldPair? {
      assert s[|x| + j + 2..|x| + j + n - 2] == y[j + 2..j + n - 2];
    } else if p.ItalicPair? {
      assert s[|x| + j + 1..|x| + j + n - 1] == y[j + 1..j + n - 1];
    }
  }

  /** One scan step depends only on the match at that index and what replaces it. */
  lemma ScanAgrees(p: Pattern, s: string, pos: nat, t: string, q: nat)
    requires pos < |s| && q < |t| && MatchLen(p, s, pos) == MatchLen(p, t, q)
    requires MatchLen(p, s, pos).None? ==> s[pos] == t[q]
    requires MatchLen(p, s, pos).Some? ==>
               Replacement(p, s, pos, MatchLen(p, s, pos).value) == Replacement(p, t, q, MatchLen(p, s, pos).value)
    ensures Scan(p, s, pos).0 == Scan(p, t, q).0 && Scan(p, s, pos).1 - pos == Scan(p, t, q).1 - q
  {
  }

  lemma ScanShift(p: Pattern, x: string, y: string, j: nat)
    requires j < |y| && (j > 0 || FreshLine(p, x))
    ensures Scan(p, x + y, |x| + j).0 == Scan(p, y, j).0
    ensures Scan(p, x + y, |x| + j).1 == |x| + Scan(p, y, j).1
  {
    var s := x + y;
    MatchLenShift(p, x, y, j);
    if MatchLen(p, y, j).Some? {
      ReplacementShift(p, x, y, j, MatchLen(p, y, j).value);
    } else {
      assert s[|x| + j] == y[j];
    }
    ScanAgrees(p, s, |x| + j, y, j);
  }

  /** After a line break the replacement goes on as on the rest alone. */
  lemma ReplaceFromShift(p: Pattern, x: string, y: string, j: nat)
    requires j <= |y| && FreshLine(p, x)
    ensures ReplaceFrom(p, x + y, |x| + j) == ReplaceFrom(p, y, j)
  {
    forall k | j <= k < |y|
      ensures Scan(p, x + y, |x| + k).0 == Scan(p, y, k).0
      ensures Scan(p, x + y, |x| + k).1 == |x| + Scan(p, y, k).1
    {
      ScanShift(p, x, y, k);
    }
    assert ScansAlong(p, x + y, |x|, y, j);
    ReplaceFromAlong(p, x + y, |x|, y, j);
  }

  // ---------------------------------------------------------------------------
  // A match inside a line stays inside it
  // ---------------------------------------------------------------------------

  /** The last character of line `a` cannot join a match with the line break after it:
      `\s` in `###\s?`, `##\s?` and `^>\s?` would take the break, and `^\s*[-*]\s` would
      run over it. Emphasis and backticks never cross a line terminator. */
  predicate LineSafe(p: Pattern, a: string) {
    match p
    case Marker(m) => '\n' !in m && (a == [] || m == [] || a[|a| - 1] != m[|m| - 1])
    case QuoteMark => a == [] || a[|a| - 1] != '>'
    case BulletMark => a != [] && !IsSpace(a[|a| - 1]) && a[|a| - 1] != '-' && a[|a| - 1] != '*'
    case _ => true
  }

  lemma {:induction false} CloseDoubleLocal(a: string, b: string, i: nat)
    requires i <= |a|
    ensures CloseDouble(a + "\n" + b, i) == CloseDouble(a, i)
    decreases |a| - i
  {
    var s := a + "\n" + b;
    assert s[|a|] == '\n';
    if i + 1 < |a| {
      assert s[i] == a[i] && s[i + 1] == a[i + 1];
      if !(a[i] == '*' && a[i + 1] == '*') && !IsLineTerminator(a[i]) {
        CloseDoubleLocal(a, b, i + 1);
      }
    } else if i + 1 == |a| {
      assert s[i] == a[i];
      if !IsLineTerminator(a[i]) {
        CloseDoubleLocal(a, b, i + 1);
      }
    }
  }

  lemma {:induction false} CloseSingleLocal(a: string, b: string, i: nat, c: char)
    requires i <= |a| && !IsLineTerminator(c)
    ensures CloseSingle(a + "\n" + b, i, c) == CloseSingle(a, i, c)
    decreases |a| - i
  {
    var s := a + "\n" + b;
    assert s[|a|] == '\n';
    if i < |a| {
      assert s[i] == a[i];
      if a[i] != c && !IsLineTerminator(a[i]) {
        CloseSingleLocal(a, b, i + 1, c);
      }
    }
  }

  /** The white-space run at the start stops at or before any other character. */
  lemma {:induction false} LeadStopsAt(t: string, i: nat)
    requires i < |t| && !IsSpace(t[i])
    ensures Lead(t) <= i
    decreases i
  {
    if IsSpace(t[0]) {
      assert t[1..][i - 1] == t[i];
      LeadStopsAt(t[1..], i - 1);
    }
  }

  lemma BulletLocal(a: string, b: string, pos: nat)
    requires pos < |a| && LineSafe(BulletMark, a)
    ensures BulletLen(a + "\n" + b, pos) == BulletLen(a, pos)
  {
    var s := a + "\n" + b;
    var w := Lead(a[pos..]);
    assert a[pos..][|a| - pos - 1] == a[|a| - 1];
    LeadStopsAt(a[pos..], |a| - pos - 1);
    assert s[pos..][..w] == a[pos..][..w] && s[pos..][w] == a[pos + w];
    LeadOfSpaces(s[pos..], w);
    assert LineStart(s, pos) == LineStart(a, pos) by {
      if pos > 0 { assert s[pos - 1] == a[pos - 1]; }
    }
    assert s[pos + w] == a[pos + w];
    if pos + w + 1 < |a| {
      assert s[pos + w + 1] == a[pos + w + 1];
    }
  }

  lemma MarkerLocal(m: string, a: string, b: string, pos: nat)
    requires pos < |a| && LineSafe(Marker(m), a)
    ensures MarkerLen(m, a + "\n" + b, pos) == MarkerLen(m, a, pos)
  {
    var s := a + "\n" + b;
    if |m| >= 1 {
      if pos + |m| <= |a| {
        assert s[pos..pos + |m|] == a[pos..pos + |m|];
        if pos + |m| < |a| {
          assert s[pos + |m|] == a[pos + |m|];
        } else {
          assert a[pos..pos + |m|][|m| - 1] == a[|a| - 1];
        }
      } else if pos + |m| <= |s| {
        assert s[pos..pos + |m|][|a| - pos] == s[|a|] == '\n';
        assert m[|a| - pos] in m;
      }
    }
  }

  lemma QuoteLocal(a: string, b: string, pos: nat)
    requires pos < |a| && LineSafe(QuoteMark, a)
    ensures QuoteLen(a + "\n" + b, pos) == QuoteLen(a, pos)
  {
    var s := a + "\n" + b;
    assert s[pos] == a[pos];
    if pos > 0 { assert s[pos - 1] == a[pos - 1]; }
    if pos + 1 < |a| { assert s[pos + 1] == a[pos + 1]; }
  }

  /** Inside line `a`, every pattern matches in `a + "\n" + b` exactly as in `a` alone. */
  lemma MatchLenLocal(p: Pattern, a: string, b: string, pos: nat)
    requires pos < |a| && LineSafe(p, a)
    ensures MatchLen(p, a + "\n" + b, pos) == MatchLen(p, a, pos)
  {
    var s := a + "\n" + b;
    assert s[pos] == a[pos];
    match p
    case BoldPair =>
      assert s[|a|] == '\n';
      if pos + 1 < |a| { assert s[pos + 1] == a[pos + 1]; }
      if pos + 2 <= |a| { CloseDoubleLocal(a, b, pos + 2); }
    case ItalicPair =>
      CloseSingleLocal(a, b, pos + 1, '*');
    case Marker(m) =>
      MarkerLocal(m, a, b, pos);
    case QuoteMark =>
      QuoteLocal(a, b, pos);
    case Backtick =>
    case BulletMark =>
      BulletLocal(a, b, pos);
  }

  lemma ScanLocal(p: Pattern, a: string, b: string, pos: nat)
    requires pos < |a| && LineSafe(p, a)
    ensures Scan(p, a + "\n" + b, pos) == Scan(p, a, pos)
  {
    var s := a + "\n" + b;
    MatchLenLocal(p, a, b, pos);
    if MatchLen(p, a, pos).Some? {
      ReplacementLocal(p, a, b, pos, MatchLen(p, a, pos).value);
    } else {
      assert s[pos] == a[pos];
    }
    ScanAgrees(p, s, pos, a, pos);
  }

  lemma ReplacementLocal(p: Pattern, a: string, b: string, pos: nat, n: nat)
    requires pos < |a| && MatchLen(p, a, pos) == Some(n) && MatchLen(p, a + "\n" + b, pos) == Some(n)
    ensures Replacement(p, a + "\n" + b, pos, n) == Replacement(p, a, pos, n)
  {
    var s := a + "\n" + b;
    if p.BoldPair? {
      assert s[pos + 2..pos + n - 2] == a[pos + 2..pos + n - 2];
    } else if p.ItalicPair? {
      assert s[pos + 1..pos + n - 1] == a[pos + 1..pos + n - 1];
    }
  }

  /** No pattern matches at the line break itself. */
  lemma NoMatchAtBreak(p: Pattern, a: string, b: string)
    requires LineSafe(p, a)
    ensures MatchLen(p, a + "\n" + b, |a|).None?
  {
    var s := a + "\n" + b;
    assert s[|a|] == '\n';
    match p
    case Marker(m) =>
      if |m| >= 1 && |a| + |m| <= |s| {
        assert s[|a|..|a| + |m|][0] == '\n';
        assert m[0] in m;
      }
    case BulletMark =>
      assert s[|a| - 1] == a[|a| - 1];
    case _ =>
  }

  /** At the line break the scan keeps the break and goes on with the next line alone. */
  lemma ReplaceFromBreak(p: Pattern, a: string, b: string)
    requires LineSafe(p, a)
    ensures ReplaceFrom(p, a + "\n" + b, |a|) == "\n" + ReplaceAll(p, b)
  {
    var s := a + "\n" + b;
    NoMatchAtBreak(p, a, b);
    assert s[|a|] == '\n';
    ReplaceFromStep(p, s, |a|);
    assert s == (a + "\n") + b && |a + "\n"| == |a| + 1;
    ReplaceFromShift(p, a + "\n", b, 0);
  }

  lemma ReplaceFromLines(p: Pattern, a: string, b: string, pos: nat)
    requires pos <= |a| && LineSafe(p, a)
    ensures ReplaceFrom(p, a + "\n" + b, pos) == ReplaceFrom(p, a, pos) + "\n" + ReplaceAll(p, b)
  {
    var s := a + "\n" + b;
    forall k | pos <= k < |a|
      ensures Scan(p, s, k).0 == Scan(p, a, k).0 && Scan(p, s, k).1 == Scan(p, a, k).1
    {
      ScanLocal(p, a, b, k);
    }
    assert ScansPrefix(p, s, a, pos);
    ReplaceFromPrefix(p, s, a, pos);
    ReplaceFromBreak(p, a, b);
    Associative(ReplaceFrom(p, a, pos), "\n", ReplaceAll(p, b));
  }

  /** A global replacement of a message of two lines is the replacement of each line, as
      long as the first line cannot join a match with the break after it. */
  lemma ReplaceAllLines(p: Pattern, a: string, b: string)
    requires LineSafe(p, a)
    ensures ReplaceAll(p, a + "\n" + b) == ReplaceAll(p, a) + "\n" + ReplaceAll(p, b)
  {
    ReplaceFromLines(p, a, b, 0);
  }

  /** The replacement applied to each line. */
  function EachLine(p: Pattern, ls: seq<string>): (r: seq<string>)
    ensures |r| == |ls| && forall k :: 0 <= k < |ls| ==> r[k] == ReplaceAll(p, ls[k])
  {
    seq(|ls|, k requires 0 <= k < |ls| => ReplaceAll(p, ls[k]))
  }

  /** A global replacement of a message of any number of lines is the replacement of each
      line, when no line but the last can join a match with the break after it. */
  lemma {:induction false} ReplaceAllJoin(p: Pattern, ls: seq<string>)
    requires |ls| >= 1 && forall k :: 0 <= k < |ls| - 1 ==> LineSafe(p, ls[k])
    ensures ReplaceAll(p, JoinLines(ls)) == JoinLines(EachLine(p, ls))
  {
    if |ls| > 1 {
      ReplaceAllJoin(p, ls[1..]);
      ReplaceAllLines(p, ls[0], JoinLines(ls[1..]));
      assert EachLine(p, ls)[1..] == EachLine(p, ls[1..]);
    }
  }

  // ---------------------------------------------------------------------------
  // The last character of a line survives the chain
  // ---------------------------------------------------------------------------

  /** The characters a match of `p` can end with. */
  predicate EndsMatch(p: Pattern, c: char) {
    match p
    case BoldPair => c == '*'
    case ItalicPair => c == '*'
    case Marker(m) => c in m || IsSpace(c)
    case QuoteMark => c == '>' || IsSpace(c)
    case Backtick => c == '`'
    case BulletMark => IsSpace(c)
  }

  lemma MatchEnd(p: Pattern, s: string, pos: nat)
    requires pos < |s| && MatchLen(p, s, pos).Some?
    ensures EndsMatch(p, s[pos + MatchLen(p, s, pos).value - 1])
  {
    var n := MatchLen(p, s, pos).value;
    match p
    case BoldPair =>
    case ItalicPair =>
    case Marker(m) =>
      if n == |m| {
        assert s[pos + n - 1] == s[pos..pos + |m|][|m| - 1];
      }
    case QuoteMark =>
    case Backtick =>
    case BulletMark =>
  }

  /** A last character no match can end with is copied as the last character. */
  lemma {:induction false} LastKeptFrom(p: Pattern, s: string, pos: nat)
    requires pos < |s| && !EndsMatch(p, s[|s| - 1])
    ensures ReplaceFrom(p, s, pos) != [] && ReplaceFrom(p, s, pos)[|ReplaceFrom(p, s, pos)| - 1] == s[|s| - 1]
    decreases |s| - pos
  {
    var (piece, next) := Scan(p, s, pos);
    if next < |s| {
      LastKeptFrom(p, s, next);
    } else if MatchLen(p, s, pos).Some? {
      MatchEnd(p, s, pos);
    }
  }

  lemma LastKept(p: Pattern, s: string)
    requires s != [] && !EndsMatch(p, s[|s| - 1])
    ensures ReplaceAll(p, s) != [] && ReplaceAll(p, s)[|ReplaceAll(p, s)| - 1] == s[|s| - 1]
  {
    LastKeptFrom(p, s, 0);
  }

  // ---------------------------------------------------------------------------
  // The whole chain, line by line
  // ---------------------------------------------------------------------------

  /** A line ending in a character that none of the markdown patterns touches. */
  predicate PlainEnd(a: string) {
    a != [] && !IsSpace(a[|a| - 1]) && a[|a| - 1] !in "*#>`-"
  }

  /** The replacements before trimming keep the last character of such a line. */
  lemma ScrubKeepsEnd(a: string)
    requires PlainEnd(a)
    ensures PlainEnd(Scrub(a)) && Scrub(a)[|Scrub(a)| - 1] == a[|a| - 1]
  {
    var bold := ReplaceAll(BoldPair, a);
    LastKept(BoldPair, a);
    var italic := ReplaceAll(ItalicPair, bold);
    LastKept(ItalicPair, bold);
    var h3 := ReplaceAll(Marker("###"), italic);
    LastKept(Marker("###"), italic);
    var h2 := ReplaceAll(Marker("##"), h3);
    LastKept(Marker("##"), h3);
    var quote := ReplaceAll(QuoteMark, h2);
    LastKept(QuoteMark, h2);
    LastKept(Backtick, quote);
  }

  /** One pass of the chain over two lines, where the first ends in a character the pass
      neither matches across the break nor ends a match with. */
  lemma PassLines(p: Pattern, a: string, b: string)
    requires a != [] && LineSafe(p, a) && !EndsMatch(p, a[|a| - 1])
    ensures ReplaceAll(p, a + "\n" + b) == ReplaceAll(p, a) + "\n" + ReplaceAll(p, b)
    ensures ReplaceAll(p, a) != [] && ReplaceAll(p, a)[|ReplaceAll(p, a)| - 1] == a[|a| - 1]
  {
    ReplaceAllLines(p, a, b);
    LastKept(p, a);
  }

  /** The replacements before trimming work line by line across a break after a line that
      ends in a plain character. */
  lemma ScrubLines(a: string, b: string)
    requires PlainEnd(a)
    ensures Scrub(a + "\n" + b) == Scrub(a) + "\n" + Scrub(b)
  {
    var a1, b1 := ReplaceAll(BoldPair, a), ReplaceAll(BoldPair, b);
    PassLines(BoldPair, a, b);
    var a2, b2 := ReplaceAll(ItalicPair, a1), ReplaceAll(ItalicPair, b1);
    PassLines(ItalicPair, a1, b1);
    var a3, b3 := ReplaceAll(Marker("###"), a2), ReplaceAll(Marker("###"), b2);
    PassLines(Marker("###"), a2, b2);
    var a4, b4 := ReplaceAll(Marker("##"), a3), ReplaceAll(Marker("##"), b3);
    PassLines(Marker("##"), a3, b3);
    var a5, b5 := ReplaceAll(QuoteMark, a4), ReplaceAll(QuoteMark, b4);
    PassLines(QuoteMark, a4, b4);
    PassLines(Backtick, a5, b5);
  }

  /** The replacements before trimming applied to each line. */
  function ScrubEach(ls: seq<string>): (r: seq<string>)
    ensures |r| == |ls| && forall k :: 0 <= k < |ls| ==> r[k] == Scrub(ls[k])
  {
    seq(|ls|, k requires 0 <= k < |ls| => Scrub(ls[k]))
  }

  lemma {:induction false} ScrubJoin(ls: seq<string>)
    requires |ls| >= 1 && forall k :: 0 <= k < |ls| - 1 ==> PlainEnd(ls[k])
    ensures Scrub(JoinLines(ls)) == JoinLines(ScrubEach(ls))
  {
    if |ls| > 1 {
      ScrubJoin(ls[1..]);
      ScrubLines(ls[0], JoinLines(ls[1..]));
      assert ScrubEach(ls)[1..] == ScrubEach(ls[1..]);
    }
  }

  /** The cleaning of one line inside a message: the replacements, then the list marker. */
  function CleanLine(line: string): string {
    ReplaceAll(BulletMark, Scrub(line))
  }

  function CleanEach(ls: seq<string>): (r: seq<string>)
    ensures |r| == |ls| && forall k :: 0 <= k < |ls| ==> r[k] == CleanLine(ls[k])
  {
    seq(|ls|, k requires 0 <= k < |ls| => CleanLine(ls[k]))
  }

  lemma ScrubEachSafe(ls: seq<string>)
    requires forall k :: 0 <= k < |ls| - 1 ==> PlainEnd(ls[k])
    ensures forall k :: 0 <= k < |ls| - 1 ==> LineSafe(BulletMark, ScrubEach(ls)[k])
  {
    forall k | 0 <= k < |ls| - 1 ensures LineSafe(BulletMark, ScrubEach(ls)[k]) {
      ScrubKeepsEnd(ls[k]);
    }
  }

  /** The list-marker replacement of the scrubbed lines, joined, is each line cleaned. */
  lemma BulletJoin(ls: seq<string>)
    requires |ls| >= 1 && forall k :: 0 <= k < |ls| - 1 ==> PlainEnd(ls[k])
    ensures ReplaceAll(BulletMark, JoinLines(ScrubEach(ls))) == JoinLines(CleanEach(ls))
  {
    ScrubEachSafe(ls);
    ReplaceAllJoin(BulletMark, ScrubEach(ls));
    assert EachLine(BulletMark, ScrubEach(ls)) == CleanEach(ls);
  }

  /** With nothing to trim, the cleaning is the list-marker replacement of the scrubbed text. */
  lemma CleanUntrimmed(t: string, u: string)
    requires Scrub(t) == u && Trim(u) == u
    ensures Clean(t) == ReplaceAll(BulletMark, u)
  {
  }

  /** A message whose lines (but the last) end in plain characters, and which has no white
      space around it once the markdown is replaced, is cleaned line by line. */
  lemma CleanJoin(ls: seq<string>)
    requires |ls| >= 1 && forall k :: 0 <= k < |ls| - 1 ==> PlainEnd(ls[k])
    requires Trim(Scrub(JoinLines(ls))) == Scrub(JoinLines(ls))
    ensures Clean(JoinLines(ls)) == JoinLines(CleanEach(ls))
  {
    ScrubJoin(ls);
    CleanUntrimmed(JoinLines(ls), JoinLines(ScrubEach(ls)));
    BulletJoin(ls);
  }
}
