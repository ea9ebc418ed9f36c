/** The light-weight markdown renderer used for chat messages (components/MarkdownRenderer.tsx).
    The rendered JSX is modelled as a sequence of blocks holding inline parts. */
module Markdown {
  import opened Wrappers
  import opened Strings

  // ---------------------------------------------------------------------------
  // Splitting content into lines: content.split('\n')
  // ---------------------------------------------------------------------------

  /** The index of the first `c` in `s`. */
  function FirstIndex(s: string, c: char): (i: nat)
    requires c in s
    ensures i < |s| && s[i] == c && c !in s[..i]
  {
    if s[0] == c then 0
    else
      var i := 1 + FirstIndex(s[1..], c);
      assert s[..i] == [s[0]] + s[1..][..i - 1];
      i
  }

  lemma {:induction false} FirstIndexUnique(s: string, c: char, j: nat)
    requires j < |s| && s[j] == c && c !in s[..j]
    ensures FirstIndex(s, c) == j
  {
    if j > 0 {
      assert s[0] == s[..j][0];
      assert s[1..][..j - 1] == s[1..j];
      FirstIndexUnique(s[1..], c, j - 1);
    }
  }

  /** `s.split('\n')`: one piece per line, none containing a newline. */
  function SplitLines(s: string): (r: seq<string>)
    ensures |r| == Count(s, '\n') + 1
    ensures forall k :: 0 <= k < |r| ==> '\n' !in r[k]
    decreases |s|
  {
    if '\n' !in s then [s]
    else
      var i := FirstIndex(s, '\n');
      assert s == s[..i] + [s[i]] + s[i + 1..];
      assert multiset(s)['\n'] == multiset(s[..i])['\n'] + 1 + multiset(s[i + 1..])['\n'];
      [s[..i]] + SplitLines(s[i + 1..])
  }

  /** Joining the lines gives back the content. */
  lemma {:induction false} JoinSplit(s: string)
    ensures JoinLines(SplitLines(s)) == s
    decreases |s|
  {
    if '\n' in s {
      var i := FirstIndex(s, '\n');
      JoinSplit(s[i + 1..]);
      assert s == s[..i] + "\n" + s[i + 1..];
    }
  }

  /** Splitting joined lines (none containing a newline) gives back the lines. */
  lemma {:induction false} SplitJoin(ls: seq<string>)
    requires |ls| >= 1 && forall k :: 0 <= k < |ls| ==> '\n' !in ls[k]
    ensures SplitLines(JoinLines(ls)) == ls
  {
    if |ls| > 1 {
      SplitJoin(ls[1..]);
      SplitLinesCons(ls[0], JoinLines(ls[1..]));
      assert ls == [ls[0]] + ls[1..];
    } else {
      assert JoinLines(ls) == ls[0];
    }
  }

  /** A first line without a newline, then a newline, splits off as the first piece. */
  lemma SplitLinesCons(a: string, t: string)
    requires '\n' !in a
    ensures SplitLines(a + "\n" + t) == [a] + SplitLines(t)
  {
    var s := a + "\n" + t;
    assert s[|a|] == '\n' && s[..|a|] == a;
    FirstIndexUnique(s, '\n', |a|);
    assert s[|a| + 1..] == t;
  }

  // ---------------------------------------------------------------------------
  // Inline parts: text.split(/(\*\*.*?\*\*|\*.*?\*|`.*?`)/g)
  // ---------------------------------------------------------------------------

  /** An inline part as `InlineParser` renders it. */
  datatype Inline = Bold(text: string) | Italic(text: string) | Code(text: string) | Plain(text: string)

  /** The regular-expression alternative that matched a span. */
  datatype SpanKind = DoubleStar | SingleStar | Backtick

  /** The match of the inline pattern at the start of `s`: the alternatives are tried in
      order, bold, then italic, then code. The result is the alternative and the length. */
  function SpanAt(s: string): (r: Option<(SpanKind, nat)>)
    ensures r.Some? ==> 2 <= r.value.1 <= |s|
    ensures r.Some? && r.value.0 == DoubleStar ==>
              r.value.1 >= 4 && s[..2] == "**" && s[r.value.1 - 2..r.value.1] == "**"
    ensures r.Some? && r.value.0 == SingleStar ==>
              (s[0] == '*' && s[r.value.1 - 1] == '*'
               && (s[1] == '*' ==> r.value.1 == 2) && '*' !in s[1..r.value.1 - 1])
    ensures r.Some? && r.value.0 == Backtick ==> s[0] == '`' && s[r.value.1 - 1] == '`'
    ensures r.Some? && r.value.0 == DoubleStar ==> CloseDouble(s, 2) == Some(r.value.1 - 2)
    ensures r.Some? && r.value.0 == SingleStar ==>
              CloseSingle(s, 1, '*') == Some(r.value.1 - 1) && !(|s| >= 2 && s[1] == '*' && CloseDouble(s, 2).Some?)
    ensures r.Some? && r.value.0 == Backtick ==> CloseSingle(s, 1, '`') == Some(r.value.1 - 1)
    ensures r.None? ==> s == [] || (s[0] != '`' && s[0] != '*') || CloseSingle(s, 1, s[0]).None?
  {
    if |s| >= 2 && s[0] == '*' && s[1] == '*' && CloseDouble(s, 2).Some? then
      Some((DoubleStar, CloseDouble(s, 2).value + 2))
    else if |s| >= 1 && s[0] == '*' && CloseSingle(s, 1, '*').Some? then
      Some((SingleStar, CloseSingle(s, 1, '*').value + 1))
    else if |s| >= 1 && s[0] == '`' && CloseSingle(s, 1, '`').Some? then
      Some((Backtick, CloseSingle(s, 1, '`').value + 1))
    else None
  }

  lemma CloseSinglePrefix(s: string, i: nat, c: char, n: nat)
    requires !IsLineTerminator(c) && n <= |s|
    requires CloseSingle(s, i, c).Some? && CloseSingle(s, i, c).value < n
    ensures CloseSingle(s[..n], i, c) == CloseSingle(s, i, c)
    decreases |s| - i
  {
    if s[i] != c { CloseSinglePrefix(s, i + 1, c, n); }
  }

  lemma CloseDoublePrefix(s: string, i: nat, n: nat)
    requires n <= |s|
    requires CloseDouble(s, i).Some? && CloseDouble(s, i).value + 1 < n
    ensures CloseDouble(s[..n], i) == CloseDouble(s, i)
    decreases |s| - i
  {
    if !(s[i] == '*' && s[i + 1] == '*') { CloseDoublePrefix(s, i + 1, n); }
  }

  /** A match does not look past its own end: the span alone matches as a whole. */
  lemma SpanAtPrefix(s: string)
    requires SpanAt(s).Some?
    ensures SpanAt(s[..SpanAt(s).value.1]) == SpanAt(s)
  {
    var n := SpanAt(s).value.1;
    if |s| >= 2 && s[0] == '*' && s[1] == '*' && CloseDouble(s, 2).Some? {
      CloseDoublePrefix(s, 2, n);
    } else if s[0] == '*' {
      CloseSinglePrefix(s, 1, '*', n);
      if |s| >= 2 && s[1] == '*' {
        assert CloseDouble(s[..n], 2).None?;
      }
    } else {
      CloseSinglePrefix(s, 1, '`', n);
    }
  }

  /** The pattern matches at index `j` of `s`. */
  predicate MatchesAt(s: string, j: nat)
    requires j <= |s|
  {
    SpanAt(s[j..]).Some?
  }

  /** The leftmost match starting at or after `q`, as (start, length). */
  function FirstSpan(s: string, q: nat): (r: Option<(nat, nat)>)
    ensures r.Some? ==> q <= r.value.0 && r.value.0 + r.value.1 <= |s| && r.value.1 >= 2
    ensures r.Some? ==> forall j: nat :: q <= j < r.value.0 ==> !MatchesAt(s, j)
    ensures r.None? ==> forall j: nat :: q <= j < |s| ==> !MatchesAt(s, j)
    decreases |s| - q
  {
    if q >= |s| then None
    else if SpanAt(s[q..]).Some? then Some((q, SpanAt(s[q..]).value.1))
    else FirstSpan(s, q + 1)
  }

  function Concat(parts: seq<string>): string {
    if parts == [] then [] else parts[0] + Concat(parts[1..])
  }

  lemma ConcatCons2(a: string, b: string, rest: seq<string>)
    ensures Concat([a, b] + rest) == a + b + Concat(rest)
  {
    var parts := [a, b] + rest;
    assert parts[1..] == [b] + rest;
    assert parts[1..][1..] == rest;
  }

  /** The span `FirstSpan` reports is a match of that length. */
  lemma {:induction false} FirstSpanMatches(s: string, q: nat)
    requires FirstSpan(s, q).Some?
    ensures SpanAt(s[FirstSpan(s, q).value.0..]).Some?
    ensures SpanAt(s[FirstSpan(s, q).value.0..]).value.1 == FirstSpan(s, q).value.1
    decreases |s| - q
  {
    if !MatchesAt(s, q) { FirstSpanMatches(s, q + 1); }
  }

  /** `text.split(regex)` with one capturing group: the text between matches alternates
      with the matches themselves, and the pieces put back together give the text. */
  function SplitInline(s: string): (parts: seq<string>)
    ensures |parts| % 2 == 1
    ensures Concat(parts) == s
    decreases |s|
  {
    match FirstSpan(s, 0)
    case None => [s]
    case Some((i, n)) =>
      var rest := SplitInline(s[i + n..]);
      SplitStep(s, i, n, rest);
      var parts := [s[..i], s[i..i + n]] + rest;
      assert |parts| == |rest| + 2;
      parts
  }

  lemma SplitStep(s: string, i: nat, n: nat, rest: seq<string>)
    requires i + n <= |s| && Concat(rest) == s[i + n..]
    ensures Concat([s[..i], s[i..i + n]] + rest) == s
  {
    ConcatCons2(s[..i], s[i..i + n], rest);
    assert s == s[..i] + s[i..i + n] + s[i + n..];
  }

  /** No match starts in the first `n` positions of `t`. */
  predicate MatchFree(t: string, n: nat) {
    forall j: nat :: j < n && j < |t| ==> !MatchesAt(t, j)
  }

  /** The pieces at odd positions are whole matches of the pattern; no match starts
      inside the first piece; and no match starts inside any piece at an even position,
      read in the text from that piece on. */
  lemma {:induction false} SplitInlineSpans(s: string)
    ensures forall k :: 0 <= k < |SplitInline(s)| && k % 2 == 1 ==>
              SpanAt(SplitInline(s)[k]).Some? && SpanAt(SplitInline(s)[k]).value.1 == |SplitInline(s)[k]|
    ensures forall j: nat :: j < |SplitInline(s)[0]| ==> !MatchesAt(s, j)
    ensures forall k :: 0 <= k < |SplitInline(s)| && k % 2 == 0 ==>
              MatchFree(Concat(SplitInline(s)[k..]), |SplitInline(s)[k]|)
    decreases |s|
  {
    match FirstSpan(s, 0)
    case None =>
      assert SplitInline(s) == [s];
      assert [s][0..] == [s] && Concat([s]) == s + Concat([]);
    case Some((i, n)) =>
      var rest := SplitInline(s[i + n..]);
      assert SplitInline(s) == [s[..i], s[i..i + n]] + rest;
      SplitInlineSpans(s[i + n..]);
      FirstSpanWhole(s, i, n);
      OddPartsSpans(s[..i], s[i..i + n], rest);
      EvenPartsFree(s, s[..i], s[i..i + n], rest);
  }

  lemma EvenPartsFree(s: string, a: string, b: string, rest: seq<string>)
    requires Concat([a, b] + rest) == s && MatchFree(s, |a|)
    requires forall k :: 0 <= k < |rest| && k % 2 == 0 ==> MatchFree(Concat(rest[k..]), |rest[k]|)
    ensures forall k :: 0 <= k < |[a, b] + rest| && k % 2 == 0 ==>
              MatchFree(Concat(([a, b] + rest)[k..]), |([a, b] + rest)[k]|)
  {
    var parts := [a, b] + rest;
    forall k | 0 <= k < |parts| && k % 2 == 0
      ensures MatchFree(Concat(parts[k..]), |parts[k]|)
    {
      if k == 0 {
        assert parts[0..] == parts;
      } else {
        assert parts[k..] == rest[k - 2..] && parts[k] == rest[k - 2];
        assert (k - 2) % 2 == 0;
      }
    }
  }

  /** The span `FirstSpan` reports, cut out of the text, matches as a whole. */
  lemma FirstSpanWhole(s: string, i: nat, n: nat)
    requires FirstSpan(s, 0) == Some((i, n))
    ensures SpanAt(s[i..i + n]).Some? && SpanAt(s[i..i + n]).value.1 == |s[i..i + n]|
  {
    FirstSpanMatches(s, 0);
    SpanAtPrefix(s[i..]);
    assert s[i..][..n] == s[i..i + n];
  }

  lemma OddPartsSpans(a: string, b: string, rest: seq<string>)
    requires SpanAt(b).Some? && SpanAt(b).value.1 == |b|
    requires forall k :: 0 <= k < |rest| && k % 2 == 1 ==> SpanAt(rest[k]).Some? && SpanAt(rest[k]).value.1 == |rest[k]|
    ensures forall k :: 0 <= k < |[a, b] + rest| && k % 2 == 1 ==>
              SpanAt(([a, b] + rest)[k]).Some? && SpanAt(([a, b] + rest)[k]).value.1 == |([a, b] + rest)[k]|
  {
    var parts := [a, b] + rest;
    forall k | 0 <= k < |parts| && k % 2 == 1
      ensures SpanAt(parts[k]).Some? && SpanAt(parts[k]).value.1 == |parts[k]|
    {
      if k >= 2 {
        assert parts[k] == rest[k - 2];
        assert (k - 2) % 2 == 1;
      }
    }
  }

  /** `s.slice(n, -n)`. */
  function SliceInner(s: string, n: nat): (r: string)
    ensures 2 * n <= |s| ==> s == s[..n] + r + s[|s| - n..]
    ensures 2 * n > |s| ==> r == []
  {
    if 2 * n <= |s| then s[n..|s| - n] else []
  }

  /** The classification of one part, in the order bold, italic, code, plain. */
  function ClassifyPart(p: string): Inline {
    if StartsWith(p, "**") && EndsWith(p, "**") then Bold(SliceInner(p, 2))
    else if StartsWith(p, "*") && EndsWith(p, "*") then Italic(SliceInner(p, 1))
    else if StartsWith(p, "`") && EndsWith(p, "`") then Code(SliceInner(p, 1))
    else Plain(p)
  }

  /** `InlineParser`: one inline element per piece of the split. */
  function ParseInline(text: string): (r: seq<Inline>)
    ensures |r| == |SplitInline(text)| && |r| % 2 == 1
    ensures forall k :: 0 <= k < |r| ==> r[k] == ClassifyPart(SplitInline(text)[k])
  {
    var parts := SplitInline(text);
    seq(|parts|, k requires 0 <= k < |parts| => ClassifyPart(parts[k]))
  }

  /** The markup an inline element is written with. */
  function Markup(e: Inline): string {
    match e
    case Bold(t) => "**" + t + "**"
    case Italic(t) => "*" + t + "*"
    case Code(t) => "`" + t + "`"
    case Plain(t) => t
  }

  lemma DoubleStarSpan(p: string)
    requires SpanAt(p).Some? && SpanAt(p).value.1 == |p| && SpanAt(p).value.0 == DoubleStar
    ensures ClassifyPart(p) == Bold(p[2..|p| - 2]) && p == "**" + p[2..|p| - 2] + "**"
  {
    assert p[..|p|] == p;
  }

  lemma SingleStarSpan(p: string)
    requires SpanAt(p).Some? && SpanAt(p).value.1 == |p| && SpanAt(p).value.0 == SingleStar
    requires p != "**"
    ensures ClassifyPart(p) == Italic(p[1..|p| - 1]) && p == "*" + p[1..|p| - 1] + "*"
  {
    var n := |p|;
    assert p[..n] == p;
    assert n > 2;
    assert p[1] != '*' by { assert p[1..n - 1][0] == p[1]; }
    assert !StartsWith(p, "**");
  }

  lemma BacktickSpan(p: string)
    requires SpanAt(p).Some? && SpanAt(p).value.1 == |p| && SpanAt(p).value.0 == Backtick
    ensures ClassifyPart(p) == Code(p[1..|p| - 1]) && p == "`" + p[1..|p| - 1] + "`"
  {
    assert p[..|p|] == p;
  }

  /** A piece the pattern matched is never plain: it is classified by the alternative that
      matched it and its markup gives the piece back. The one exception is a lone pair of
      asterisks (the italic alternative with nothing inside), which is shown as empty bold. */
  lemma SpanClassification(p: string)
    requires SpanAt(p).Some? && SpanAt(p).value.1 == |p|
    ensures !ClassifyPart(p).Plain?
    ensures p == "**" ==> ClassifyPart(p) == Bold("")
    ensures p != "**" ==> Markup(ClassifyPart(p)) == p
    ensures SpanAt(p).value.0 == DoubleStar ==> ClassifyPart(p).Bold?
    ensures SpanAt(p).value.0 == Backtick ==> ClassifyPart(p).Code?
    ensures SpanAt(p).value.0 == SingleStar && p != "**" ==> ClassifyPart(p).Italic?
  {
    match SpanAt(p).value.0
    case DoubleStar => DoubleStarSpan(p);
    case SingleStar =>
      if p != "**" { SingleStarSpan(p); } else { assert ClassifyPart(p) == Bold(""); }
    case Backtick => BacktickSpan(p);
  }

  /** Every matched piece of a line is rendered as bold, italic or code. */
  lemma {:induction false} MatchedPartsNotPlain(text: string, k: nat)
    requires k < |ParseInline(text)| && k % 2 == 1
    ensures !ParseInline(text)[k].Plain?
  {
    SplitInlineSpans(text);
    SpanClassification(SplitInline(text)[k]);
  }

  // ---------------------------------------------------------------------------
  // Line classification
  // ---------------------------------------------------------------------------

  /** What a line is, with the text handed to `InlineParser`. */
  datatype LineKind =
    | Blank
    | BulletLine(text: string)
    | NumberedLine(marker: string, text: string)
    | H3Line(text: string)
    | H2Line(text: string)
    | QuoteLine(text: string)
    | ParagraphLine(text: string)

  /** Number of leading ASCII digits (`\d`). */
  function DigitRun(s: string): (n: nat)
    ensures n <= |s| && (forall k :: 0 <= k < n ==> IsAsciiDigit(s[k])) && (n == |s| || !IsAsciiDigit(s[n]))
  {
    if s != [] && IsAsciiDigit(s[0]) then 1 + DigitRun(s[1..]) else 0
  }

  /** `/^\d+\.\s/.test(t)`. */
  predicate NumberedStart(t: string) {
    var d := DigitRun(t);
    d >= 1 && d + 1 < |t| && t[d] == '.' && IsSpace(t[d + 1])
  }

  /** `(.*)`: the longest prefix without a line terminator. */
  function UntilTerminator(s: string): (r: string)
    ensures StartsWith(s, r) && NoTerminator(r) && (r == s || IsLineTerminator(s[|r|]))
  {
    if s == [] || IsLineTerminator(s[0]) then []
    else
      var r := [s[0]] + UntilTerminator(s[1..]);
      assert forall k :: 1 <= k < |r| ==> r[k] == UntilTerminator(s[1..])[k - 1];
      r
  }

  /** Which test of the chain in `MarkdownRenderer` a trimmed line passes first. */
  datatype Test = BlankTest | BulletTest | NumberedTest | H3Test | H2Test | QuoteTest | ParagraphTest

  function FirstTest(t: string): (r: Test)
    ensures r == BlankTest <==> t == ""
    ensures r == BulletTest <==> t != "" && (StartsWith(t, "* ") || StartsWith(t, "- "))
    ensures r == NumberedTest ==> NumberedStart(t)
    ensures r == H3Test ==> StartsWith(t, "### ")
    ensures r == H2Test ==> StartsWith(t, "## ")
    ensures r == QuoteTest ==> StartsWith(t, "> ")
    ensures r.NumberedTest? || r.H3Test? || r.H2Test? || r.QuoteTest? || r.ParagraphTest? ==>
              t != "" && !StartsWith(t, "* ") && !StartsWith(t, "- ")
    ensures r.H3Test? || r.H2Test? || r.QuoteTest? || r.ParagraphTest? ==> !NumberedStart(t)
    ensures r.H2Test? || r.QuoteTest? || r.ParagraphTest? ==> !StartsWith(t, "### ")
    ensures r.QuoteTest? || r.ParagraphTest? ==> !StartsWith(t, "## ")
    ensures r.ParagraphTest? <==> (&& t != "" && !StartsWith(t, "* ") && !StartsWith(t, "- ")
                                  && !NumberedStart(t) && !StartsWith(t, "### ")
                                  && !StartsWith(t, "## ") && !StartsWith(t, "> "))
  {
    if t == "" then BlankTest
    else if StartsWith(t, "* ") || StartsWith(t, "- ") then BulletTest
    else if NumberedStart(t) then NumberedTest
    else if StartsWith(t, "### ") then H3Test
    else if StartsWith(t, "## ") then H2Test
    else if StartsWith(t, "> ") then QuoteTest
    else ParagraphTest
  }

  /** A numbered item: the marker is the leading digits and the dot, the text is what
      follows the white-space character after the dot, up to a line terminator. */
  function NumberedOf(t: string): (r: LineKind)
    requires NumberedStart(t)
    ensures r.NumberedLine?
    ensures |r.marker| >= 2 && r.marker[|r.marker| - 1] == '.'
    ensures forall k :: 0 <= k < |r.marker| - 1 ==> IsAsciiDigit(r.marker[k])
    ensures |r.marker| + 1 <= |t| && StartsWith(t, r.marker) && IsSpace(t[|r.marker|])
    ensures StartsWith(t[|r.marker| + 1..], r.text) && NoTerminator(r.text)
    ensures r.text == t[|r.marker| + 1..] || IsLineTerminator(t[|r.marker| + 1 + |r.text|])
  {
    var d := DigitRun(t);
    NumberedLine(t[..d + 1], UntilTerminator(t[d + 2..]))
  }

  /** The chain of tests in `MarkdownRenderer`, first match wins: blank, bullet, numbered,
      level-3 heading, level-2 heading, block quote, paragraph. */
  function KindOf(line: string): (r: LineKind)
    ensures r.Blank? <==> AllSpace(line)
    ensures r.BulletLine? <==> !AllSpace(line) && (StartsWith(Trim(line), "* ") || StartsWith(Trim(line), "- "))
    ensures r.BulletLine? ==> Trim(line) == "* " + r.text || Trim(line) == "- " + r.text
  {
    var t := Trim(line);
    match FirstTest(t)
    case BlankTest => Blank
    case BulletTest =>
      assert t == t[..2] + t[2..];
      BulletLine(t[2..])
    case NumberedTest => NumberedOf(t)
    case H3Test => H3Line(line[4..])
    case H2Test => H2Line(line[3..])
    case QuoteTest => QuoteLine(line[2..])
    case ParagraphTest => ParagraphLine(line)
  }

  /** With no leading white space, the trimmed line and the line share their prefixes. */
  lemma UntrimmedPrefix(line: string, n: nat)
    requires Lead(line) == 0 && n <= |Trim(line)|
    ensures n <= |line| && line[..n] == Trim(line)[..n] && line == line[..n] + line[n..]
  {
    var r := Trim(line);
    assert r == line[0..|r|];
    assert line[0..|r|][..n] == line[..n];
  }

  /** Heading and quote markers are looked for on the trimmed line, but the text is cut from
      the line as written: the marker's length is dropped from the untrimmed line. */
  lemma H3Kind(line: string)
    requires KindOf(line).H3Line?
    ensures FirstTest(Trim(line)) == H3Test
    ensures 4 <= |line| && KindOf(line).text == line[4..]
  {
    assert FirstTest(Trim(line)) == H3Test;
  }

  lemma H2Kind(line: string)
    requires KindOf(line).H2Line?
    ensures FirstTest(Trim(line)) == H2Test
    ensures 3 <= |line| && KindOf(line).text == line[3..]
  {
    assert FirstTest(Trim(line)) == H2Test;
  }

  lemma QuoteKind(line: string)
    requires KindOf(line).QuoteLine?
    ensures FirstTest(Trim(line)) == QuoteTest
    ensures 2 <= |line| && KindOf(line).text == line[2..]
  {
    assert FirstTest(Trim(line)) == QuoteTest;
  }

  /** Without leading white space the line is exactly its marker followed by the text. */
  lemma UnindentedMarkers(line: string)
    requires Lead(line) == 0
    ensures KindOf(line).H3Line? ==> line == "### " + KindOf(line).text
    ensures KindOf(line).H2Line? ==> line == "## " + KindOf(line).text
    ensures KindOf(line).QuoteLine? ==> line == "> " + KindOf(line).text
  {
    match KindOf(line)
    case H3Line(_) => H3Kind(line); UntrimmedPrefix(line, 4);
    case H2Line(_) => H2Kind(line); UntrimmedPrefix(line, 3);
    case QuoteLine(_) => QuoteKind(line); UntrimmedPrefix(line, 2);
    case _ =>
  }

  /** A paragraph is a non-blank line that no other test accepts; its text is the whole
      line, untrimmed. */
  lemma ParagraphKind(line: string)
    ensures var t := Trim(line);
      KindOf(line) == ParagraphLine(line) <==>
        (&& !AllSpace(line) && !NumberedStart(t)
         && !StartsWith(t, "* ") && !StartsWith(t, "- ")
         && !StartsWith(t, "### ") && !StartsWith(t, "## ") && !StartsWith(t, "> "))
  {
  }

  /** A heading written with leading white space keeps part of its marker, because
      the text is cut from the untrimmed line. */
  lemma IndentedHeadingKeepsMarker()
    ensures KindOf("  ### T") == H3Line("# T")
  {
    var line := "  ### T";
    assert Trim(line) == "### T" by {
      assert line[..2] == "  " && line[2..] == "### T";
      TrimAfterIndent(line, 2);
    }
    assert FirstTest("### T") == H3Test by {
      assert StartsWith("### T", "### ") && DigitRun("### T") == 0;
    }
    assert line[4..] == "# T";
  }

  /** A line indented by `n` white-space characters, with no white space at its end,
      trims to what follows the indent. */
  lemma TrimAfterIndent(s: string, n: nat)
    requires n < |s| && AllSpace(s[..n]) && !IsSpace(s[n]) && !IsSpace(s[|s| - 1])
    ensures Trim(s) == s[n..]
  {
    LeadOfSpaces(s, n);
    var t := s[n..];
    assert t[|t| - 1] == s[|s| - 1];
    assert Trail(t) == 0 && t[..|t|] == t;
  }

  /** A rendered block: the element `MarkdownRenderer` emits for one line. */
  datatype Block =
    | Spacer
    | Bullet(parts: seq<Inline>)
    | Numbered(marker: string, parts: seq<Inline>)
    | Heading3(parts: seq<Inline>)
    | Heading2(parts: seq<Inline>)
    | Quote(parts: seq<Inline>)
    | Paragraph(parts: seq<Inline>)

  function BlockOf(line: string): Block {
    match KindOf(line)
    case Blank => Spacer
    case BulletLine(t) => Bullet(ParseInline(t))
    case NumberedLine(m, t) => Numbered(m, ParseInline(t))
    case H3Line(t) => Heading3(ParseInline(t))
    case H2Line(t) => Heading2(ParseInline(t))
    case QuoteLine(t) => Quote(ParseInline(t))
    case ParagraphLine(t) => Paragraph(ParseInline(t))
  }

  /** `MarkdownRenderer`: nothing for empty content, otherwise one block per
      newline-separated line, in order. */
  function Render(content: string): (r: seq<Block>)
    ensures content == "" ==> r == []
    ensures content != "" ==> |r| == Count(content, '\n') + 1
    ensures forall k :: 0 <= k < |r| ==> r[k] == BlockOf(SplitLines(content)[k])
  {
    if content == "" then []
    else
      var lines := SplitLines(content);
      seq(|lines|, k requires 0 <= k < |lines| => BlockOf(lines[k]))
  }
}
