/** The "legal research memorandum" export of the chat (`handleDownloadPDF` in
    components/ChatInterface.tsx): every message but the welcome message is cleaned of
    markdown, wrapped, and written as a labelled block, with a page break whenever the
    estimated block height does not fit above the bottom margin. */
module ChatExport {
  import opened Wrappers
  import opened Strings
  import opened Types
  import opened Pdf

  // ---------------------------------------------------------------------------
  // Cleaning: the chain of global regular-expression replacements
  // ---------------------------------------------------------------------------

  /** The replacement text for list bullets; it is the UTF-8 encoding of a bullet read as
      if it were another encoding, and is kept character for character. */
  const BULLET: string := "\U{0E42}\U{0080}\U{0E02}  "

  // The patterns of the cleaning chain, in order:
  //   /\*\*(.*?)\*\*/g   /\*(.*?)\*/g   /###\s?/g and /##\s?/g (as Marker)
  //   /^>\s?/gm   /`/g   /^\s*[\-\*]\s/gm
  datatype Pattern = BoldPair | ItalicPair | Marker(m: string) | QuoteMark | Backtick | BulletMark

  /** `^` in multiline mode. */
  predicate LineStart(s: string, pos: nat)
    requires pos <= |s|
  {
    pos == 0 || IsLineTerminator(s[pos - 1])
  }

  /** One optional white-space character (`\s?`, greedy) at `i`. */
  function OptSpace(s: string, i: nat): (n: nat)
    ensures n <= 1 && (n == 1 <==> i < |s| && IsSpace(s[i]))
  {
    if i < |s| && IsSpace(s[i]) then 1 else 0
  }

  /** `\*\*(.*?)\*\*`: two asterisks, then everything up to the first later pair on the
      same line. */
  function BoldLen(s: string, pos: nat): (r: Option<nat>)
    requires pos < |s|
    ensures r.Some? ==> (&& r.value >= 4 && pos + r.value <= |s| && s[pos] == '*' && s[pos + 1] == '*'
                         && s[pos + r.value - 2] == '*' && s[pos + r.value - 1] == '*')
    ensures r.Some? ==> CloseDouble(s, pos + 2) == Some(pos + r.value - 2)
    ensures r.None? <==> !(pos + 1 < |s| && s[pos] == '*' && s[pos + 1] == '*' && CloseDouble(s, pos + 2).Some?)
  {
    if pos + 1 < |s| && s[pos] == '*' && s[pos + 1] == '*' && CloseDouble(s, pos + 2).Some? then
      Some(CloseDouble(s, pos + 2).value + 2 - pos)
    else None
  }

  /** `\*(.*?)\*`: an asterisk, then everything up to the next one on the same line. */
  function ItalicLen(s: string, pos: nat): (r: Option<nat>)
    requires pos < |s|
    ensures r.Some? ==> r.value >= 2 && pos + r.value <= |s| && s[pos] == '*' && s[pos + r.value - 1] == '*'
    ensures r.Some? ==> CloseSingle(s, pos + 1, '*') == Some(pos + r.value - 1)
    ensures r.None? <==> !(s[pos] == '*' && CloseSingle(s, pos + 1, '*').Some?)
  {
    if s[pos] == '*' && CloseSingle(s, pos + 1, '*').Some? then
      Some(CloseSingle(s, pos + 1, '*').value + 1 - pos)
    else None
  }

  /** `###\s?` and `##\s?`: the marker anywhere, with one following white-space character
      if there is one. */
  function MarkerLen(m: string, s: string, pos: nat): (r: Option<nat>)
    requires pos < |s|
    ensures r.Some? <==> |m| >= 1 && OccursAt(s, m, pos)
    ensures r.Some? ==>
              (|| (r.value == |m| && (pos + |m| == |s| || !IsSpace(s[pos + |m|])))
               || (r.value == |m| + 1 && pos + |m| < |s| && IsSpace(s[pos + |m|])))
  {
    if |m| >= 1 && OccursAt(s, m, pos) then Some(|m| + OptSpace(s, pos + |m|)) else None
  }

  /** `^>\s?` in multiline mode: `>` at the start of a line, with one following white-space
      character if there is one. */
  function QuoteLen(s: string, pos: nat): (r: Option<nat>)
    requires pos < |s|
    ensures r.Some? <==> LineStart(s, pos) && s[pos] == '>'
    ensures r.Some? ==>
              (|| (r.value == 1 && (pos + 1 == |s| || !IsSpace(s[pos + 1])))
               || (r.value == 2 && pos + 1 < |s| && IsSpace(s[pos + 1])))
  {
    if LineStart(s, pos) && s[pos] == '>' then Some(1 + OptSpace(s, pos + 1)) else None
  }

  /** `^\s*[-*]\s` in multiline mode, at a line start: white space, `-` or `*`, and one more
      white-space character (the converse is `BulletMatchAt`). */
  function BulletLen(s: string, pos: nat): (r: Option<nat>)
    requires pos < |s|
    ensures r.Some? ==>
              (&& LineStart(s, pos) && r.value >= 2 && pos + r.value <= |s|
               && AllSpace(s[pos..pos + r.value - 2])
               && (s[pos + r.value - 2] == '-' || s[pos + r.value - 2] == '*') && IsSpace(s[pos + r.value - 1]))
  {
    // `\s*` is greedy and gives back only white space, which is never `-` or `*`,
    // so the only candidate is the whole white-space run.
    var w := Lead(s[pos..]);
    if LineStart(s, pos) && pos + w + 1 < |s| && (s[pos + w] == '-' || s[pos + w] == '*')
       && IsSpace(s[pos + w + 1])
    then
      assert s[pos..][..w] == s[pos..pos + w];
      Some(w + 2)
    else None
  }

  /** The length of the match of `p` at `pos`, if any. None of the patterns matches the
      empty string, so a global replacement always moves on. */
  function MatchLen(p: Pattern, s: string, pos: nat): (r: Option<nat>)
    requires pos < |s|
    ensures r.Some? ==> 1 <= r.value && pos + r.value <= |s|
    ensures r.Some? && p.BoldPair? ==>
              (&& r.value >= 4 && s[pos] == '*' && s[pos + 1] == '*'
               && s[pos + r.value - 2] == '*' && s[pos + r.value - 1] == '*')
    ensures r.Some? && p.ItalicPair? ==> r.value >= 2 && s[pos] == '*' && s[pos + r.value - 1] == '*'
    ensures r.Some? && p.Backtick? ==> r.value == 1
    ensures p.Backtick? ==> (r.Some? <==> s[pos] == '`')
    ensures p.Marker? ==> (r.Some? <==> |p.m| >= 1 && OccursAt(s, p.m, pos))
    ensures r.Some? && p.Marker? ==>
              (|| (r.value == |p.m| && (pos + |p.m| == |s| || !IsSpace(s[pos + |p.m|])))
               || (r.value == |p.m| + 1 && pos + |p.m| < |s| && IsSpace(s[pos + |p.m|])))
    ensures p.QuoteMark? ==> (r.Some? <==> LineStart(s, pos) && s[pos] == '>')
    ensures r.Some? && p.QuoteMark? ==>
              (|| (r.value == 1 && (pos + 1 == |s| || !IsSpace(s[pos + 1])))
               || (r.value == 2 && pos + 1 < |s| && IsSpace(s[pos + 1])))
    ensures r.Some? && p.BulletMark? ==>
              (&& LineStart(s, pos) && r.value >= 2 && AllSpace(s[pos..pos + r.value - 2])
               && (s[pos + r.value - 2] == '-' || s[pos + r.value - 2] == '*') && IsSpace(s[pos + r.value - 1]))
  {
    match p
    case BoldPair => BoldLen(s, pos)
    case ItalicPair => ItalicLen(s, pos)
    case Marker(m) => MarkerLen(m, s, pos)
    case QuoteMark => QuoteLen(s, pos)
    case Backtick => if s[pos] == '`' then Some(1) else None
    case BulletMark => BulletLen(s, pos)
  }

  /** `^\s*[-*]\s` matches at a line start wherever white space, a `-` or `*` and one more
      white-space character follow, and its match is exactly that long. */
  lemma BulletMatchAt(s: string, pos: nat, w: nat)
    requires pos + w + 1 < |s| && LineStart(s, pos) && AllSpace(s[pos..pos + w])
    requires (s[pos + w] == '-' || s[pos + w] == '*') && IsSpace(s[pos + w + 1])
    ensures MatchLen(BulletMark, s, pos) == Some(w + 2) && BulletLen(s, pos) == Some(w + 2)
  {
    assert s[pos..][..w] == s[pos..pos + w] && s[pos..][w] == s[pos + w];
    LeadOfSpaces(s[pos..], w);
  }

  /** The text that replaces a match: the captured group for the emphasis pairs, three
      spaces for a quote marker, the bullet for a list marker, nothing otherwise. */
  function Replacement(p: Pattern, s: string, pos: nat, n: nat): string
    requires pos < |s| && MatchLen(p, s, pos) == Some(n)
  {
    match p
    case BoldPair => s[pos + 2..pos + n - 2]
    case ItalicPair => s[pos + 1..pos + n - 1]
    case Marker(_) => ""
    case QuoteMark => "   "
    case Backtick => ""
    case BulletMark => BULLET
  }

  /** The fixed text a pattern inserts. */
  function Inserted(p: Pattern): string {
    match p
    case QuoteMark => "   "
    case BulletMark => BULLET
    case _ => ""
  }

  /** `s.replace(p, ...)` with the global flag, from index `pos` on: matches are found left
      to right and do not overlap; `^` is judged on the string being scanned. */
  function ReplaceFrom(p: Pattern, s: string, pos: nat): string
    requires pos <= |s|
    decreases |s| - pos
  {
    if pos == |s| then []
    else
      var (piece, next) := Scan(p, s, pos);
      piece + ReplaceFrom(p, s, next)
  }

  /** One step of the scan: the replacement of the match at `pos` and the index after it,
      or the character at `pos` and the next index. */
  function Scan(p: Pattern, s: string, pos: nat): (r: (string, nat))
    requires pos < |s|
    ensures pos < r.1 <= |s|
  {
    match MatchLen(p, s, pos)
    case None => ([s[pos]], pos + 1)
    case Some(n) => (Replacement(p, s, pos, n), pos + n)
  }

  function ReplaceAll(p: Pattern, s: string): string {
    ReplaceFrom(p, s, 0)
  }

  /** The replacements made before the message is trimmed. */
  function Scrub(text: string): string {
    var bold := ReplaceAll(BoldPair, text);
    var italic := ReplaceAll(ItalicPair, bold);
    var h3 := ReplaceAll(Marker("###"), italic);
    var h2 := ReplaceAll(Marker("##"), h3);
    var quote := ReplaceAll(QuoteMark, h2);
    ReplaceAll(Backtick, quote)
  }

  /** The cleaning of a message before it is wrapped. */
  function Clean(text: string): string {
    ReplaceAll(BulletMark, Trim(Scrub(text)))
  }

  /** Where the pattern never matches, the replacement leaves the text as it is. */
  lemma {:induction false} NoMatchUnchanged(p: Pattern, s: string, pos: nat)
    requires pos <= |s|
    requires forall j: nat :: pos <= j < |s| ==> MatchLen(p, s, j).None?
    ensures ReplaceFrom(p, s, pos) == s[pos..]
    decreases |s| - pos
  {
    if pos < |s| {
      assert MatchLen(p, s, pos).None?;
      NoMatchUnchanged(p, s, pos + 1);
      assert s[pos..] == [s[pos]] + s[pos + 1..];
    }
  }

  /** Every character of the result comes from the text or from the fixed replacement. */
  lemma {:induction false} Provenance(p: Pattern, s: string, pos: nat)
    requires pos <= |s|
    ensures forall c :: c in ReplaceFrom(p, s, pos) ==> c in s[pos..] || c in Inserted(p)
    decreases |s| - pos
  {
    if pos < |s| {
      var (piece, next) := Scan(p, s, pos);
      Provenance(p, s, next);
      ScanProvenance(p, s, pos);
      assert s[pos..] == s[pos..next] + s[next..];
    }
  }

  lemma ScanProvenance(p: Pattern, s: string, pos: nat)
    requires pos < |s|
    ensures forall c :: c in Scan(p, s, pos).0 ==> c in s[pos..Scan(p, s, pos).1] || c in Inserted(p)
  {
    match MatchLen(p, s, pos)
    case None =>
    case Some(n) =>
      if p.BoldPair? || p.ItalicPair? {
        var d := if p.BoldPair? then 2 else 1;
        assert Replacement(p, s, pos, n) == s[pos + d..pos + n - d];
        SliceWithin(s, pos, pos + n, d);
      }
  }

  lemma SliceWithin(s: string, i: nat, j: nat, d: nat)
    requires i + 2 * d <= j <= |s|
    ensures forall c :: c in s[i + d..j - d] ==> c in s[i..j]
  {
    assert s[i..j] == s[i..i + d] + s[i + d..j - d] + s[j - d..j];
  }

  /** The patterns replaced by (part of) their own match only delete characters. */
  lemma {:induction false} DeletionShrinks(p: Pattern, s: string, pos: nat)
    requires pos <= |s| && Inserted(p) == ""
    ensures multiset(ReplaceFrom(p, s, pos)) <= multiset(s[pos..])
    decreases |s| - pos
  {
    if pos < |s| {
      var (piece, next) := Scan(p, s, pos);
      DeletionShrinks(p, s, next);
      ScanShrinks(p, s, pos);
      assert s[pos..] == s[pos..next] + s[next..];
    }
  }

  lemma ScanShrinks(p: Pattern, s: string, pos: nat)
    requires pos < |s| && Inserted(p) == ""
    ensures multiset(Scan(p, s, pos).0) <= multiset(s[pos..Scan(p, s, pos).1])
  {
    match p
    case BoldPair => BoldScanShrinks(s, pos);
    case ItalicPair => ItalicScanShrinks(s, pos);
    case Marker(_) => DropScanShrinks(p, s, pos);
    case Backtick => DropScanShrinks(p, s, pos);
  }

  /** A bold pair is replaced by the text between its delimiters. */
  lemma BoldScanShrinks(s: string, pos: nat)
    requires pos < |s|
    ensures multiset(Scan(BoldPair, s, pos).0) <= multiset(s[pos..Scan(BoldPair, s, pos).1])
  {
    var m := MatchLen(BoldPair, s, pos);
    if m.None? {
      assert s[pos..pos + 1] == [s[pos]];
    } else {
      SliceShrinks(s, pos, pos + m.value, 2);
    }
  }

  /** An italic pair is replaced by the text between its delimiters. */
  lemma ItalicScanShrinks(s: string, pos: nat)
    requires pos < |s|
    ensures multiset(Scan(ItalicPair, s, pos).0) <= multiset(s[pos..Scan(ItalicPair, s, pos).1])
  {
    var m := MatchLen(ItalicPair, s, pos);
    if m.None? {
      assert s[pos..pos + 1] == [s[pos]];
    } else {
      SliceShrinks(s, pos, pos + m.value, 1);
    }
  }

  /** A marker or a backtick is deleted. */
  lemma DropScanShrinks(p: Pattern, s: string, pos: nat)
    requires pos < |s| && (p.Marker? || p.Backtick?)
    ensures multiset(Scan(p, s, pos).0) <= multiset(s[pos..Scan(p, s, pos).1])
  {
    if MatchLen(p, s, pos).None? {
      assert s[pos..pos + 1] == [s[pos]];
    }
  }

  lemma SliceShrinks(s: string, i: nat, j: nat, d: nat)
    requires i + 2 * d <= j <= |s|
    ensures multiset(s[i + d..j - d]) <= multiset(s[i..j])
  {
    assert s[i..j] == s[i..i + d] + s[i + d..j - d] + s[j - d..j];
  }

  /** Deleting every backtick leaves none. */
  lemma {:induction false} BackticksGone(s: string, pos: nat)
    requires pos <= |s|
    ensures '`' !in ReplaceFrom(Backtick, s, pos)
    decreases |s| - pos
  {
    if pos < |s| {
      BackticksGone(s, Scan(Backtick, s, pos).1);
    }
  }

  /** A cleaned message holds no backtick: the bullet and trimming add none. */
  lemma CleanHasNoBackticks(text: string)
    ensures '`' !in Clean(text)
  {
    var quote := ReplaceAll(QuoteMark, ReplaceAll(Marker("##"), ReplaceAll(Marker("###"),
                   ReplaceAll(ItalicPair, ReplaceAll(BoldPair, text)))));
    var code := ReplaceAll(Backtick, quote);
    BackticksGone(quote, 0);
    var t := Trim(code);
    assert forall c :: c in t ==> c in code;
    Provenance(BulletMark, t, 0);
  }

  /** Text on one line without markdown characters and without surrounding white space
      comes through the cleaning unchanged. */
  lemma CleanLeavesPlainText(text: string)
    requires NoTerminator(text)
    requires '*' !in text && '#' !in text && '`' !in text && '>' !in text
    requires text == [] || (text[0] != '-' && !IsSpace(text[0]) && !IsSpace(text[|text| - 1]))
    ensures Clean(text) == text
  {
    EmphasisUntouched(text);
    HeadingsUntouched(text);
    QuoteAndCodeUntouched(text);
    TrimUntouched(text);
    BulletUntouched(text);
  }

  lemma EmphasisUntouched(text: string)
    requires '*' !in text
    ensures ReplaceAll(BoldPair, text) == text && ReplaceAll(ItalicPair, text) == text
  {
    forall j: nat | j < |text| ensures MatchLen(BoldPair, text, j).None? && MatchLen(ItalicPair, text, j).None? {
      assert text[j] != '*';
    }
    NoMatchUnchanged(BoldPair, text, 0);
    NoMatchUnchanged(ItalicPair, text, 0);
    assert text[0..] == text;
  }

  lemma HeadingsUntouched(text: string)
    requires '#' !in text
    ensures ReplaceAll(Marker("###"), text) == text && ReplaceAll(Marker("##"), text) == text
  {
    forall j: nat | j < |text| ensures MatchLen(Marker("###"), text, j).None? && MatchLen(Marker("##"), text, j).None? {
      assert text[j] != '#';
      assert !OccursAt(text, "###", j) by {
        if j + 3 <= |text| { assert text[j..j + 3][0] == text[j]; }
      }
      assert !OccursAt(text, "##", j) by {
        if j + 2 <= |text| { assert text[j..j + 2][0] == text[j]; }
      }
    }
    NoMatchUnchanged(Marker("###"), text, 0);
    NoMatchUnchanged(Marker("##"), text, 0);
    assert text[0..] == text;
  }

  lemma QuoteAndCodeUntouched(text: string)
    requires '>' !in text && '`' !in text
    ensures ReplaceAll(QuoteMark, text) == text && ReplaceAll(Backtick, text) == text
  {
    forall j: nat | j < |text| ensures MatchLen(QuoteMark, text, j).None? && MatchLen(Backtick, text, j).None? {
      assert text[j] != '>' && text[j] != '`';
    }
    NoMatchUnchanged(QuoteMark, text, 0);
    NoMatchUnchanged(Backtick, text, 0);
    assert text[0..] == text;
  }

  lemma BulletUntouched(text: string)
    requires NoTerminator(text) && '*' !in text
    requires text == [] || (text[0] != '-' && !IsSpace(text[0]))
    ensures ReplaceAll(BulletMark, text) == text
  {
    forall j: nat | j < |text| ensures MatchLen(BulletMark, text, j).None? {
      if j == 0 {
        assert Lead(text[0..]) == 0 by { assert text[0..] == text; }
      } else {
        assert !IsLineTerminator(text[j - 1]);
      }
    }
    NoMatchUnchanged(BulletMark, text, 0);
    assert text[0..] == text;
  }

  /** `trim` leaves a string without surrounding white space as it is. */
  lemma TrimUntouched(s: string)
    requires s == [] || (!IsSpace(s[0]) && !IsSpace(s[|s| - 1]))
    ensures Trim(s) == s
  {
    if s != [] {
      assert Lead(s) == 0;
      forall t: string | t != [] && AllSpace(t) ensures IsSpace(t[|t| - 1]) {
        LastIsSpace(t);
      }
    }
  }

  lemma LastIsSpace(t: string)
    requires t != [] && AllSpace(t)
    ensures IsSpace(t[|t| - 1])
  {
  }

  /** A bold pair on one line is replaced by its inner text. */
  lemma BoldPairKeepsInner(t: string)
    requires '*' !in t && NoTerminator(t)
    ensures ReplaceAll(BoldPair, "**" + t + "**") == t
  {
    var s := "**" + t + "**";
    CloseDoubleFirst(s, 2, |t| + 2);
    assert MatchLen(BoldPair, s, 0) == Some(|s|);
    assert ReplaceFrom(BoldPair, s, |s|) == [];
    assert Replacement(BoldPair, s, 0, |s|) == t;
  }

  /** An italic pair on one line is replaced by its inner text. */
  lemma ItalicPairKeepsInner(t: string)
    requires '*' !in t && NoTerminator(t)
    ensures ReplaceAll(ItalicPair, "*" + t + "*") == t
  {
    var s := "*" + t + "*";
    CloseSingleFirst(s, 1, '*', |t| + 1);
    assert MatchLen(ItalicPair, s, 0) == Some(|s|);
    assert ReplaceFrom(ItalicPair, s, |s|) == [];
    assert Replacement(ItalicPair, s, 0, |s|) == t;
  }

  /** `CloseDouble` finds the first pair of asterisks when none comes earlier. */
  lemma {:induction false} CloseDoubleFirst(s: string, i: nat, j: nat)
    requires i <= j && j + 1 < |s| && s[j] == '*' && s[j + 1] == '*'
    requires forall k :: i <= k < j ==> s[k] != '*' && !IsLineTerminator(s[k])
    ensures CloseDouble(s, i) == Some(j)
    decreases j - i
  {
    if i < j { CloseDoubleFirst(s, i + 1, j); }
  }

  /** `CloseSingle` finds the first `c` when no line terminator comes earlier. */
  lemma {:induction false} CloseSingleFirst(s: string, i: nat, c: char, j: nat)
    requires !IsLineTerminator(c)
    requires i <= j < |s| && s[j] == c
    requires forall k :: i <= k < j ==> s[k] != c && !IsLineTerminator(s[k])
    ensures CloseSingle(s, i, c) == Some(j)
    decreases j - i
  {
    if i < j { CloseSingleFirst(s, i + 1, c, j); }
  }

  /** A heading marker and the space after it are deleted. */
  lemma HeadingMarkerDeleted(t: string)
    requires '#' !in t
    ensures ReplaceAll(Marker("###"), "### " + t) == t
  {
    var s := "### " + t;
    assert OccursAt(s, "###", 0);
    assert MatchLen(Marker("###"), s, 0) == Some(4);
    forall j: nat | 4 <= j < |s| ensures MatchLen(Marker("###"), s, j).None? {
      assert s[j] in t;
    }
    NoMatchUnchanged(Marker("###"), s, 4);
    assert s[4..] == t;
  }

  /** A quote marker at the start of a line becomes an indentation of three spaces. */
  lemma QuoteMarkIndents(t: string)
    requires NoTerminator(t)
    ensures ReplaceAll(QuoteMark, "> " + t) == "   " + t
  {
    var s := "> " + t;
    assert MatchLen(QuoteMark, s, 0) == Some(2);
    forall j: nat | 2 <= j < |s| ensures MatchLen(QuoteMark, s, j).None? {
      assert !IsLineTerminator(s[j - 1]);
    }
    NoMatchUnchanged(QuoteMark, s, 2);
    assert s[2..] == t;
  }

  // ---------------------------------------------------------------------------
  // Layout
  // ---------------------------------------------------------------------------

  const HEADER: string := "NYAYA AI - INDIAN LEGAL INTELLIGENCE"
  const TITLE: string := "LEGAL RESEARCH MEMORANDUM"
  const WELCOME: string := "welcome"

  /** What `addHeaderFooter(n)` draws: the bold running header and its rule, then, in
      normal weight, the generation stamp and the page number at `pageHeight - 10`. */
  function FurnitureItems(pageNo: nat, pageHeight: int, date: string, time: string): seq<Item> {
    [ Text(HEADER, 15, true), Rule(18),
      Text("Generated: " + date + " | " + time, pageHeight - 10, false),
      Text("Page " + NatToString(pageNo), pageHeight - 10, false) ]
  }

  /** `addHeaderFooter(n)` on the current page. */
  function Furniture(st: State, pageNo: nat, pageHeight: int, date: string, time: string): (r: State)
    requires st.Valid()
    ensures r.Valid() && |r.pages| == |st.pages| && r.current == st.current && !r.bold
    ensures r.pages[st.current] == st.pages[st.current] + FurnitureItems(pageNo, pageHeight, date, time)
    ensures forall k :: 0 <= k < |st.pages| && k != st.current ==> r.pages[k] == st.pages[k]
  {
    var a := PutText(WithFont(st, true), HEADER, 15);
    var b := Put(a, Rule(18));
    var c := PutText(WithFont(b, false), "Generated: " + date + " | " + time, pageHeight - 10);
    PutText(c, "Page " + NatToString(pageNo), pageHeight - 10)
  }

  /** The export in progress: the document, `currentPage` and `yPosition`. */
  datatype Cursor = Cursor(doc: State, page: nat, y: int)

  /** The first page: furniture for page 1, then the bold title at 30 and its rule at 37;
      the first block starts at 50. */
  function Start(pageHeight: int, date: string, time: string): (c: Cursor)
    ensures c.doc.Valid() && c.doc.current == 0 && c.page == 1 && c.y == 50
    ensures c.doc.pages == [FurnitureItems(1, pageHeight, date, time) + [Text(TITLE, 30, true), Rule(37)]]
  {
    var d := Furniture(Blank(), 1, pageHeight, date, time);
    assert |d.pages| == 1 && d.pages[0] == [] + FurnitureItems(1, pageHeight, date, time);
    var e := PutText(WithFont(d, true), TITLE, 30);
    assert |e.pages| == 1 && e.pages[0] == FurnitureItems(1, pageHeight, date, time) + [Text(TITLE, 30, true)];
    var f := Put(e, Rule(37));
    assert |f.pages| == 1 && f.pages[0] == FurnitureItems(1, pageHeight, date, time) + [Text(TITLE, 30, true), Rule(37)];
    Cursor(f, 1, 50)
  }

  function Label(role: Role): string {
    if role == User then "QUERY:" else "OPINION:"
  }

  /** The estimated height of a block of `n` wrapped lines: lines, label and spacing. */
  function BlockHeight(n: nat): int {
    5 * n + 7 + 10
  }

  /** The page-break test made before a block. */
  predicate Breaks(y: int, n: nat, pageHeight: int) {
    y + BlockHeight(n) > pageHeight - 20
  }

  /** The lines a message is written as. */
  function BodyOf(m: Message, wrap: string -> seq<string>): seq<string> {
    wrap(Clean(m.text))
  }

  /** The page-break rule: when the estimated height of a block of `n` lines does not fit
      above the bottom margin, a page is added, its number goes up by one, its header and
      footer are drawn and the cursor goes back to 30. */
  function BreakIfNeeded(c: Cursor, n: nat, pageHeight: int, date: string, time: string): Cursor
    requires c.doc.Valid()
  {
    if Breaks(c.y, n, pageHeight)
    then Cursor(Furniture(NewPage(c.doc), c.page + 1, pageHeight, date, time), c.page + 1, 30)
    else c
  }

  /** A block at the cursor: the bold label, the lines five below in normal weight, the
      cursor moved past the lines and ten of spacing, and, after a block that is not the
      advocate's, a rule five above the new cursor. */
  function Block(c: Cursor, role: Role, lines: seq<string>): Cursor
    requires c.doc.Valid()
  {
    var d1 := PutText(WithFont(c.doc, true), Label(role), c.y);
    var d2 := Put(WithFont(d1, false), Lines(lines, c.y + 5, false));
    var y := c.y + 5 + 5 * |lines| + 10;
    var d3 := if role != User then Put(d2, Rule(y - 5)) else d2;
    Cursor(d3, c.page, y)
  }

  /** One turn of the `forEach`: the welcome message is skipped; any other message gets a
      block, after a page break if needed. */
  function Place(c: Cursor, m: Message, pageHeight: int, date: string, time: string,
                 wrap: string -> seq<string>): Cursor
    requires c.doc.Valid()
  {
    if m.id == WELCOME then c
    else
      var lines := BodyOf(m, wrap);
      Block(BreakIfNeeded(c, |lines|, pageHeight, date, time), m.role, lines)
  }

  /** Every page opens with the header and footer carrying its own number. */
  predicate Furnished(pages: seq<seq<Item>>, pageHeight: int, date: string, time: string) {
    forall k :: 0 <= k < |pages| ==>
      |pages[k]| >= 4 && pages[k][..4] == FurnitureItems(k + 1, pageHeight, date, time)
  }

  /** Drawing happens on the last page, and `currentPage` is the number of pages. */
  predicate OnLastPage(c: Cursor) {
    c.doc.Valid() && c.doc.current == |c.doc.pages| - 1 && c.page == |c.doc.pages|
  }

  /** The export after the messages `ms`, in order. Pages are only ever added at the end
      and drawing happens on the last one, whose number `currentPage` holds; every page
      opens with its header and footer. */
  function Export(ms: seq<Message>, pageHeight: int, date: string, time: string,
                  wrap: string -> seq<string>): (c: Cursor)
    ensures OnLastPage(c) && Furnished(c.doc.pages, pageHeight, date, time)
  {
    if ms == [] then Start(pageHeight, date, time)
    else
      var prev := Export(ms[..|ms| - 1], pageHeight, date, time, wrap);
      var next := Place(prev, ms[|ms| - 1], pageHeight, date, time, wrap);
      PlaceKeepsPages(prev, ms[|ms| - 1], pageHeight, date, time, wrap);
      next
  }

  /** A turn only draws on the last page or opens a new last page with its furniture. */
  lemma PlaceKeepsPages(c: Cursor, m: Message, pageHeight: int, date: string, time: string,
                        wrap: string -> seq<string>)
    requires OnLastPage(c) && Furnished(c.doc.pages, pageHeight, date, time)
    ensures var r := Place(c, m, pageHeight, date, time, wrap);
      OnLastPage(r) && Furnished(r.doc.pages, pageHeight, date, time)
  {
    if m.id != WELCOME {
      var lines := BodyOf(m, wrap);
      var c1 := BreakIfNeeded(c, |lines|, pageHeight, date, time);
      if Breaks(c.y, |lines|, pageHeight) {
        FurnishedNewPage(c.doc, pageHeight, date, time);
      }
      BlockKeepsPages(c1, m.role, lines, pageHeight, date, time);
    }
  }

  lemma BlockKeepsPages(c: Cursor, role: Role, lines: seq<string>, pageHeight: int, date: string, time: string)
    requires OnLastPage(c) && Furnished(c.doc.pages, pageHeight, date, time)
    ensures OnLastPage(Block(c, role, lines)) && Furnished(Block(c, role, lines).doc.pages, pageHeight, date, time)
  {
    var d1 := PutText(WithFont(c.doc, true), Label(role), c.y);
    FurnishedPut(WithFont(c.doc, true), Text(Label(role), c.y, true), pageHeight, date, time);
    var d2 := Put(WithFont(d1, false), Lines(lines, c.y + 5, false));
    FurnishedPut(WithFont(d1, false), Lines(lines, c.y + 5, false), pageHeight, date, time);
    var y := c.y + 5 + 5 * |lines| + 10;
    if role != User {
      FurnishedPut(d2, Rule(y - 5), pageHeight, date, time);
    }
  }

  lemma FurnishedPut(st: State, it: Item, pageHeight: int, date: string, time: string)
    requires st.Valid() && Furnished(st.pages, pageHeight, date, time)
    ensures Furnished(Put(st, it).pages, pageHeight, date, time)
  {
    var r := Put(st, it);
    forall k | 0 <= k < |r.pages|
      ensures |r.pages[k]| >= 4 && r.pages[k][..4] == FurnitureItems(k + 1, pageHeight, date, time)
    {
      if k == st.current {
        assert r.pages[k][..4] == st.pages[k][..4];
      }
    }
  }

  lemma FurnishedNewPage(st: State, pageHeight: int, date: string, time: string)
    requires Furnished(st.pages, pageHeight, date, time)
    ensures var r := Furniture(NewPage(st), |st.pages| + 1, pageHeight, date, time);
      r.current == |r.pages| - 1 && |r.pages| == |st.pages| + 1 && Furnished(r.pages, pageHeight, date, time)
  {
    var n := NewPage(st);
    var r := Furniture(n, |st.pages| + 1, pageHeight, date, time);
    assert r.pages[|st.pages|] == FurnitureItems(|st.pages| + 1, pageHeight, date, time);
    forall k | 0 <= k < |r.pages|
      ensures |r.pages[k]| >= 4 && r.pages[k][..4] == FurnitureItems(k + 1, pageHeight, date, time)
    {
      if k < |st.pages| { assert r.pages[k] == st.pages[k]; }
    }
  }

  // ---------------------------------------------------------------------------
  // What the export writes
  // ---------------------------------------------------------------------------

  /** The items a block adds, starting at `y`. */
  function BlockItems(y: int, role: Role, lines: seq<string>): seq<Item> {
    [Text(Label(role), y, true), Lines(lines, y + 5, false)]
      + (if role != User then [Rule(y + 5 * |lines| + 10)] else [])
  }

  /** One turn of the export, item by item and for the cursor: a block of `n` lines starts
      a new page exactly when `y + 5n + 17 > pageHeight - 20`; the page number then goes up
      by one and the block starts at 30; the cursor ends `5 + 5n + 10` below where the
      block started, so a block placed without a break ends at most at `pageHeight - 22`. */
  lemma PlaceStep(c: Cursor, m: Message, pageHeight: int, date: string, time: string,
                  wrap: string -> seq<string>)
    requires OnLastPage(c) && m.id != WELCOME
    ensures var r, n := Place(c, m, pageHeight, date, time, wrap), |BodyOf(m, wrap)|;
      var brk := c.y + 5 * n + 7 + 10 > pageHeight - 20;
      var y0 := if brk then 30 else c.y;
      && r.y == y0 + 5 * n + 15
      && r.page == (if brk then c.page + 1 else c.page)
      && (!brk ==> r.y <= pageHeight - 22)
      && Flatten(r.doc.pages) == Flatten(c.doc.pages)
           + (if brk then FurnitureItems(c.page + 1, pageHeight, date, time) else [])
           + BlockItems(y0, m.role, BodyOf(m, wrap))
  {
    var lines := BodyOf(m, wrap);
    var c1 := BreakIfNeeded(c, |lines|, pageHeight, date, time);
    if Breaks(c.y, |lines|, pageHeight) {
      FlattenNewPage(c.doc);
      FlattenFurniture(NewPage(c.doc), c.page + 1, pageHeight, date, time);
    }
    assert OnLastPage(c1);
    FlattenBlock(c1, m.role, lines);
  }

  lemma FlattenFurniture(st: State, pageNo: nat, pageHeight: int, date: string, time: string)
    requires st.Valid() && st.current == |st.pages| - 1
    ensures Flatten(Furniture(st, pageNo, pageHeight, date, time).pages)
              == Flatten(st.pages) + FurnitureItems(pageNo, pageHeight, date, time)
  {
    var a := PutText(WithFont(st, true), HEADER, 15);
    FlattenPut(WithFont(st, true), Text(HEADER, 15, true));
    var b := Put(a, Rule(18));
    FlattenPut(a, Rule(18));
    var c := PutText(WithFont(b, false), "Generated: " + date + " | " + time, pageHeight - 10);
    FlattenPut(WithFont(b, false), Text("Generated: " + date + " | " + time, pageHeight - 10, false));
    FlattenPut(c, Text("Page " + NatToString(pageNo), pageHeight - 10, false));
  }

  lemma FlattenBlock(c: Cursor, role: Role, lines: seq<string>)
    requires OnLastPage(c)
    ensures Flatten(Block(c, role, lines).doc.pages) == Flatten(c.doc.pages) + BlockItems(c.y, role, lines)
  {
    var d1 := PutText(WithFont(c.doc, true), Label(role), c.y);
    FlattenPut(WithFont(c.doc, true), Text(Label(role), c.y, true));
    var d2 := Put(WithFont(d1, false), Lines(lines, c.y + 5, false));
    FlattenPut(WithFont(d1, false), Lines(lines, c.y + 5, false));
    var y := c.y + 5 + 5 * |lines| + 10;
    if role != User {
      FlattenPut(d2, Rule(y - 5));
    }
  }

  /** The labels written, in order: the bold texts `QUERY:` and `OPINION:`. */
  function Labels(items: seq<Item>): seq<string> {
    if items == [] then []
    else
      var it := items[|items| - 1];
      Labels(items[..|items| - 1])
        + (if it.Text? && (it.s == "QUERY:" || it.s == "OPINION:") then [it.s] else [])
  }

  /** The wrapped bodies written, in order. */
  function Bodies(items: seq<Item>): seq<seq<string>> {
    if items == [] then []
    else
      var it := items[|items| - 1];
      Bodies(items[..|items| - 1]) + (if it.Lines? then [it.ls] else [])
  }

  lemma {:induction false} LabelsAppend(a: seq<Item>, b: seq<Item>)
    ensures Labels(a + b) == Labels(a) + Labels(b)
    decreases |b|
  {
    if b != [] {
      var b' := b[..|b| - 1];
      assert (a + b)[..|a + b| - 1] == a + b';
      assert (a + b)[|a + b| - 1] == b[|b| - 1];
      LabelsAppend(a, b');
    } else {
      assert a + b == a;
    }
  }

  lemma {:induction false} BodiesAppend(a: seq<Item>, b: seq<Item>)
    ensures Bodies(a + b) == Bodies(a) + Bodies(b)
    decreases |b|
  {
    if b != [] {
      var b' := b[..|b| - 1];
      assert (a + b)[..|a + b| - 1] == a + b';
      assert (a + b)[|a + b| - 1] == b[|b| - 1];
      BodiesAppend(a, b');
    } else {
      assert a + b == a;
    }
  }

  /** An item that is neither a label nor a body. */
  predicate Decoration(it: Item) {
    !it.Lines? && !(it.Text? && (it.s == "QUERY:" || it.s == "OPINION:"))
  }

  lemma {:induction false} DecorationsOnly(items: seq<Item>)
    requires forall k :: 0 <= k < |items| ==> Decoration(items[k])
    ensures Labels(items) == [] && Bodies(items) == []
  {
    if items != [] {
      DecorationsOnly(items[..|items| - 1]);
    }
  }

  /** The header, footer and title are not labels and hold no body. */
  lemma FurnitureHasNoBlocks(pageNo: nat, pageHeight: int, date: string, time: string)
    ensures Labels(FurnitureItems(pageNo, pageHeight, date, time)) == []
    ensures Bodies(FurnitureItems(pageNo, pageHeight, date, time)) == []
    ensures Labels(FurnitureItems(pageNo, pageHeight, date, time) + [Text(TITLE, 30, true), Rule(37)]) == []
    ensures Bodies(FurnitureItems(pageNo, pageHeight, date, time) + [Text(TITLE, 30, true), Rule(37)]) == []
  {
    var f := FurnitureItems(pageNo, pageHeight, date, time);
    var g := "Generated: " + date + " | " + time;
    var p := "Page " + NatToString(pageNo);
    assert g[0] == 'G' && p[0] == 'P';
    assert g != "QUERY:" && g != "OPINION:" && p != "QUERY:" && p != "OPINION:";
    DecorationsOnly(f);
    DecorationsOnly(f + [Text(TITLE, 30, true), Rule(37)]);
  }

  lemma BlockItemsBlocks(y: int, role: Role, lines: seq<string>)
    ensures Labels(BlockItems(y, role, lines)) == [Label(role)]
    ensures Bodies(BlockItems(y, role, lines)) == [lines]
  {
    var one := [Text(Label(role), y, true)];
    var two := one + [Lines(lines, y + 5, false)];
    assert one[..0] == [] && two[..1] == one;
    assert Label(role) == "QUERY:" || Label(role) == "OPINION:";
    assert Labels(one) == Labels([]) + [Label(role)];
    assert Bodies(one) == Bodies([]);
    assert two[1] == Lines(lines, y + 5, false);
    assert Labels(two) == Labels(one) && Bodies(two) == Bodies(one) + [lines];
    var rest := if role != User then [Rule(y + 5 * |lines| + 10)] else [];
    assert BlockItems(y, role, lines) == two + rest;
    DecorationsOnly(rest);
    LabelsAppend(two, rest);
    BodiesAppend(two, rest);
  }

  /** The messages that are exported: all but the welcome message, in order. */
  function Exported(ms: seq<Message>): seq<Message> {
    if ms == [] then []
    else Exported(ms[..|ms| - 1]) + (if ms[|ms| - 1].id == WELCOME then [] else [ms[|ms| - 1]])
  }

  function LabelsOf(ms: seq<Message>): seq<string> {
    seq(|ms|, k requires 0 <= k < |ms| => Label(ms[k].role))
  }

  function BodiesOf(ms: seq<Message>, wrap: string -> seq<string>): seq<seq<string>> {
    seq(|ms|, k requires 0 <= k < |ms| => BodyOf(ms[k], wrap))
  }

  lemma OfAppend(ms: seq<Message>, m: Message, wrap: string -> seq<string>)
    ensures LabelsOf(ms + [m]) == LabelsOf(ms) + [Label(m.role)]
    ensures BodiesOf(ms + [m], wrap) == BodiesOf(ms, wrap) + [BodyOf(m, wrap)]
  {
  }

  /** The memorandum holds one labelled block per exported message, in input order:
      `QUERY:` for the advocate's messages, `OPINION:` for all others, each with that
      message's cleaned and wrapped text; the welcome message is left out. */
  lemma {:induction false} ExportWritesBlocks(ms: seq<Message>, pageHeight: int, date: string, time: string,
                                              wrap: string -> seq<string>)
    ensures var pages := Export(ms, pageHeight, date, time, wrap).doc.pages;
      && Labels(Flatten(pages)) == LabelsOf(Exported(ms))
      && Bodies(Flatten(pages)) == BodiesOf(Exported(ms), wrap)
  {
    if ms == [] {
      StartWritesNoBlocks(pageHeight, date, time);
    } else {
      var init, m := ms[..|ms| - 1], ms[|ms| - 1];
      ExportWritesBlocks(init, pageHeight, date, time, wrap);
      ExportLastStep(ms, pageHeight, date, time, wrap);
    }
  }

  lemma StartWritesNoBlocks(pageHeight: int, date: string, time: string)
    ensures Labels(Flatten(Start(pageHeight, date, time).doc.pages)) == []
    ensures Bodies(Flatten(Start(pageHeight, date, time).doc.pages)) == []
  {
    FurnitureHasNoBlocks(1, pageHeight, date, time);
    assert Flatten(Start(pageHeight, date, time).doc.pages)
      == FurnitureItems(1, pageHeight, date, time) + [Text(TITLE, 30, true), Rule(37)];
  }

  lemma ExportLastStep(ms: seq<Message>, pageHeight: int, date: string, time: string,
                       wrap: string -> seq<string>)
    requires ms != []
    requires var pages := Export(ms[..|ms| - 1], pageHeight, date, time, wrap).doc.pages;
      && Labels(Flatten(pages)) == LabelsOf(Exported(ms[..|ms| - 1]))
      && Bodies(Flatten(pages)) == BodiesOf(Exported(ms[..|ms| - 1]), wrap)
    ensures var pages := Export(ms, pageHeight, date, time, wrap).doc.pages;
      && Labels(Flatten(pages)) == LabelsOf(Exported(ms))
      && Bodies(Flatten(pages)) == BodiesOf(Exported(ms), wrap)
  {
    var init, m := ms[..|ms| - 1], ms[|ms| - 1];
    var prev := Export(init, pageHeight, date, time, wrap);
    assert Export(ms, pageHeight, date, time, wrap) == Place(prev, m, pageHeight, date, time, wrap);
    if m.id != WELCOME {
      assert Exported(ms) == Exported(init) + [m];
      OfAppend(Exported(init), m, wrap);
      PlaceWritesBlock(prev, m, pageHeight, date, time, wrap);
    } else {
      assert Exported(ms) == Exported(init);
    }
  }

  /** A turn for a message other than the welcome message adds exactly its label and its
      body. */
  lemma PlaceWritesBlock(c: Cursor, m: Message, pageHeight: int, date: string, time: string,
                         wrap: string -> seq<string>)
    requires OnLastPage(c) && m.id != WELCOME
    ensures var r := Place(c, m, pageHeight, date, time, wrap);
      && Labels(Flatten(r.doc.pages)) == Labels(Flatten(c.doc.pages)) + [Label(m.role)]
      && Bodies(Flatten(r.doc.pages)) == Bodies(Flatten(c.doc.pages)) + [BodyOf(m, wrap)]
  {
    PlaceStep(c, m, pageHeight, date, time, wrap);
    var lines := BodyOf(m, wrap);
    var brk := c.y + 5 * |lines| + 7 + 10 > pageHeight - 20;
    var y0 := if brk then 30 else c.y;
    var fur := if brk then FurnitureItems(c.page + 1, pageHeight, date, time) else [];
    FurnitureHasNoBlocks(c.page + 1, pageHeight, date, time);
    StepBlocks(Flatten(c.doc.pages), fur, y0, m.role, lines);
  }

  lemma StepBlocks(before: seq<Item>, fur: seq<Item>, y: int, role: Role, lines: seq<string>)
    requires Labels(fur) == [] && Bodies(fur) == []
    ensures Labels(before + fur + BlockItems(y, role, lines)) == Labels(before) + [Label(role)]
    ensures Bodies(before + fur + BlockItems(y, role, lines)) == Bodies(before) + [lines]
  {
    BlockItemsBlocks(y, role, lines);
    LabelsAppend(before, fur);
    LabelsAppend(before + fur, BlockItems(y, role, lines));
    BodiesAppend(before, fur);
    BodiesAppend(before + fur, BlockItems(y, role, lines));
  }

  // ---------------------------------------------------------------------------
  // handleDownloadPDF
  // ---------------------------------------------------------------------------

  /** `addHeaderFooter(pageNo)`. */
  method AddHeaderFooter(doc: Doc, pageNo: nat, pageHeight: int, date: string, time: string)
    requires doc.Snapshot().Valid()
    modifies doc
    ensures doc.Snapshot() == Furniture(old(doc.Snapshot()), pageNo, pageHeight, date, time)
  {
    doc.SetBold(true);
    doc.Text(HEADER, 15);
    doc.Line(18);
    doc.SetBold(false);
    doc.Text("Generated: " + date + " | " + time, pageHeight - 10);
    doc.Text("Page " + NatToString(pageNo), pageHeight - 10);
  }

  /** `slice(0, n)` of a string. */
  function Prefix(s: string, n: nat): (r: string)
    ensures |r| == if |s| < n then |s| else n
    ensures StartsWith(s, r)
  {
    if |s| < n then s else s[..n]
  }

  /** The memorandum export: the document drawn is the one `Export` describes, and the file
      is named after the date part of the ISO timestamp. `wrap` stands for
      `doc.splitTextToSize(text, pageWidth - 40)`. */
  method ExportMemorandum(messages: seq<Message>, pageHeight: int, date: string, time: string,
                          isoTimestamp: string, wrap: string -> seq<string>)
    returns (doc: Doc, fileName: string)
    ensures fresh(doc)
    ensures doc.Snapshot() == Export(messages, pageHeight, date, time, wrap).doc
    ensures fileName == "NyayaAI_Memorandum_" + Prefix(isoTimestamp, 10) + ".pdf"
  {
    doc := new Doc();
    var currentPage := 1;
    AddHeaderFooter(doc, currentPage, pageHeight, date, time);
    var y := 30;
    doc.SetBold(true);
    doc.Text(TITLE, y);
    y := y + 10;
    doc.Line(y - 3);
    y := y + 10;
    for i := 0 to |messages|
      invariant var c := Export(messages[..i], pageHeight, date, time, wrap);
        doc.Snapshot() == c.doc && currentPage == c.page && y == c.y
    {
      assert messages[..i + 1][..i] == messages[..i];
      var msg := messages[i];
      ghost var before := Cursor(doc.Snapshot(), currentPage, y);
      if msg.id != WELCOME {
        var splitText := wrap(Clean(msg.text));
        currentPage, y := BreakIfNeededOn(doc, currentPage, y, |splitText|, pageHeight, date, time);
        y := WriteBlock(doc, currentPage, y, msg.role, splitText);
      }
      assert Cursor(doc.Snapshot(), currentPage, y) == Place(before, msg, pageHeight, date, time, wrap);
    }
    assert messages[..|messages|] == messages;
    fileName := "NyayaAI_Memorandum_" + Prefix(isoTimestamp, 10) + ".pdf";
  }

  /** The page-break check before a block of `n` lines. */
  method BreakIfNeededOn(doc: Doc, currentPage: nat, y: int, n: nat, pageHeight: int, date: string, time: string)
    returns (page': nat, y': int)
    requires doc.Snapshot().Valid()
    modifies doc
    ensures Cursor(doc.Snapshot(), page', y')
              == BreakIfNeeded(Cursor(old(doc.Snapshot()), currentPage, y), n, pageHeight, date, time)
  {
    page', y' := currentPage, y;
    var textHeight := n * 5;
    var headerHeight := 7;
    var spacing := 10;
    var totalBlockHeight := textHeight + headerHeight + spacing;
    if y + totalBlockHeight > pageHeight - 20 {
      doc.AddPage();
      page' := page' + 1;
      AddHeaderFooter(doc, page', pageHeight, date, time);
      y' := 30;
    }
  }

  /** The label, the body and, after an opinion, the separator. */
  method WriteBlock(doc: Doc, currentPage: nat, y: int, role: Role, splitText: seq<string>) returns (y': int)
    requires doc.Snapshot().Valid()
    modifies doc
    ensures Cursor(doc.Snapshot(), currentPage, y') == Block(Cursor(old(doc.Snapshot()), currentPage, y), role, splitText)
  {
    var isUser := role == User;
    y' := y;
    doc.SetBold(true);
    doc.Text(if isUser then "QUERY:" else "OPINION:", y');
    y' := y' + 5;
    doc.SetBold(false);
    doc.TextLines(splitText, y');
    y' := y' + |splitText| * 5 + 10;
    if !isUser {
      doc.Line(y' - 5);
    }
  }
}
