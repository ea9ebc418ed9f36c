/** The exam-paper repository (components/ExamRepository.tsx): the two lists of past
    papers and their search filter, the progress estimate while a paper is generated, and
    the PDF the paper is laid out in. */
module ExamRepository {
  import opened Wrappers
  import opened Strings
  import opened Pdf

  // ---------------------------------------------------------------------------
  // The catalogue and its search
  // ---------------------------------------------------------------------------

  datatype ExamType = AIBE | QUALIFYING

  datatype Exam = Exam(id: string, name: string, year: string, kind: ExamType)

  /** The All India Bar Examinations, newest first. */
  const AIBE_EXAMS: seq<Exam> := [
    Exam("18", "AIBE XVIII", "2023 (Dec)", AIBE),
    Exam("17", "AIBE XVII", "2023 (Feb)", AIBE),
    Exam("16", "AIBE XVI", "2021", AIBE),
    Exam("15", "AIBE XV", "2020", AIBE),
    Exam("14", "AIBE XIV", "2019", AIBE),
    Exam("13", "AIBE XIII", "2018", AIBE),
    Exam("12", "AIBE XII", "2018 (Jan)", AIBE),
    Exam("11", "AIBE XI", "2017", AIBE),
    Exam("10", "AIBE X", "2017 (Mar)", AIBE)
  ]

  const Q18: string := "18th Qualifying Exam"
  const Q15: string := "15th Qualifying Exam (Sept 2019)"
  const Q14: string := "14th Qualifying Exam (Nov 2018)"
  const Q2014: string := "Qualifying Exam (March 2014)"

  /** The Bar Council qualifying examinations for foreign law degrees, six papers each. */
  const QUALIFYING_EXAMS: seq<Exam> := [
    Exam("18-p1", "Paper 1: Constitutional Law", Q18, QUALIFYING),
    Exam("18-p2", "Paper 2: Contract Law & Negotiable Instruments", Q18, QUALIFYING),
    Exam("18-p3", "Paper 3: Company Law", Q18, QUALIFYING),
    Exam("18-p4", "Paper 4: Civil Procedure Code", Q18, QUALIFYING),
    Exam("18-p5", "Paper 5: Criminal Procedure Code", Q18, QUALIFYING),
    Exam("18-p6", "Paper 6: Legal Profession & Ethics", Q18, QUALIFYING),
    Exam("15-p1", "Paper 1: Constitutional Law", Q15, QUALIFYING),
    Exam("15-p2", "Paper 2: Contract Law & Negotiable Instruments", Q15, QUALIFYING),
    Exam("15-p3", "Paper 3: Company Law", Q15, QUALIFYING),
    Exam("15-p4", "Paper 4: Civil Procedure Code", Q15, QUALIFYING),
    Exam("15-p5", "Paper 5: Criminal Procedure Code", Q15, QUALIFYING),
    Exam("15-p6", "Paper 6: Legal Profession & Ethics", Q15, QUALIFYING),
    Exam("14-p1", "Paper 1: Constitutional Law", Q14, QUALIFYING),
    Exam("14-p2", "Paper 2: Contract Law & Negotiable Instruments", Q14, QUALIFYING),
    Exam("14-p3", "Paper 3: Company Law", Q14, QUALIFYING),
    Exam("14-p4", "Paper 4: Civil Procedure Code", Q14, QUALIFYING),
    Exam("14-p5", "Paper 5: Criminal Procedure Code", Q14, QUALIFYING),
    Exam("14-p6", "Paper 6: Legal Profession & Ethics", Q14, QUALIFYING),
    Exam("2014-p1", "Paper 1: Constitutional Law", Q2014, QUALIFYING),
    Exam("2014-p2", "Paper 2: Contract Law", Q2014, QUALIFYING),
    Exam("2014-p3", "Paper 3: Company Law", Q2014, QUALIFYING),
    Exam("2014-p4", "Paper 4: Civil Procedure Code", Q2014, QUALIFYING),
    Exam("2014-p5", "Paper 5: Criminal Procedure Code", Q2014, QUALIFYING),
    Exam("2014-p6", "Paper 6: Legal Profession", Q2014, QUALIFYING)
  ]

  datatype Tab = AibeTab | QualifyingTab | SyllabusTab

  /** The list behind the active tab: the syllabus tab keeps the qualifying list. */
  function CurrentList(tab: Tab): (r: seq<Exam>)
    ensures tab == AibeTab ==> r == AIBE_EXAMS
    ensures tab != AibeTab ==> r == QUALIFYING_EXAMS
  {
    if tab == AibeTab then AIBE_EXAMS else QUALIFYING_EXAMS
  }

  /** Case-insensitive search on the name or the year. */
  predicate Matches(e: Exam, term: string) {
    Contains(ToLower(e.name), ToLower(term)) || Contains(ToLower(e.year), ToLower(term))
  }

  /** The exams of a list that match the search term, in list order. */
  function Filter(es: seq<Exam>, term: string): seq<Exam> {
    if es == [] then []
    else Filter(es[..|es| - 1], term) + (if Matches(es[|es| - 1], term) then [es[|es| - 1]] else [])
  }

  /** The filtered list. */
  function FilteredExams(tab: Tab, term: string): seq<Exam> {
    Filter(CurrentList(tab), term)
  }

  /** Filtering a concatenation filters each part in turn: the order of the list is kept. */
  lemma {:induction false} FilterAppend(a: seq<Exam>, b: seq<Exam>, term: string)
    ensures Filter(a + b, term) == Filter(a, term) + Filter(b, term)
    decreases |b|
  {
    if b == [] {
      assert a + b == a;
    } else {
      assert (a + b)[..|a + b| - 1] == a + b[..|b| - 1];
      FilterAppend(a, b[..|b| - 1], term);
    }
  }

  /** An exam is listed exactly when it is in the list and matches. */
  lemma {:induction false} FilterMembers(es: seq<Exam>, term: string)
    ensures forall e :: e in Filter(es, term) <==> e in es && Matches(e, term)
  {
    if es != [] {
      FilterMembers(es[..|es| - 1], term);
      assert es == es[..|es| - 1] + [es[|es| - 1]];
    }
  }

  /** With no search term every exam is listed. */
  lemma {:induction false} EmptyTermKeepsAll(es: seq<Exam>)
    ensures Filter(es, "") == es
  {
    if es != [] {
      EmptyTermKeepsAll(es[..|es| - 1]);
      ContainsEmpty(ToLower(es[|es| - 1].name));
      assert ToLower("") == "";
    }
  }

  // ---------------------------------------------------------------------------
  // Progress while a paper is generated
  // ---------------------------------------------------------------------------

  /** The assumed length of a whole paper, in characters. */
  const ESTIMATED_SIZE: nat := 60000

  /** The progress bar while the paper is generated, in exact arithmetic: `len / 600`
      rounded to the nearest integer, halves up, and capped at 95. */
  function Progress(len: nat): (p: nat)
    ensures p <= 95
    ensures p < 95 ==> 600 * p <= len + 300 < 600 * p + 600
    ensures p == 95 <==> len + 300 >= 600 * 95
  {
    var r := (len + 300) / 600;
    if r < 95 then r else 95
  }

  /** More text never lowers the estimate. */
  lemma ProgressMonotone(a: nat, b: nat)
    requires a <= b
    ensures Progress(a) <= Progress(b)
  {
  }

  // ---------------------------------------------------------------------------
  // Sanitising the paper
  // ---------------------------------------------------------------------------

  /** The number of UTF-16 code units of one character. */
  function Units(c: char): nat {
    if c as int > 0xFFFF then 2 else 1
  }

  /** The length of a string in UTF-16 code units, JavaScript's `length`. */
  function Utf16Len(s: string): nat {
    if s == [] then 0 else Units(s[0]) + Utf16Len(s[1..])
  }

  predicate IsAscii(c: char) { c as int < 0x80 }

  predicate AllAscii(s: string) {
    forall k :: 0 <= k < |s| ==> IsAscii(s[k])
  }

  /** The replacement of one character of the paper. `[^\x00-\x7F]` without the `u` flag
      matches single code units, so a character outside the Basic Multilingual Plane is two
      matches, each of which becomes a space. */
  function Sanitise(c: char): (r: string)
    ensures |r| == Units(c) && AllAscii(r)
    ensures IsAscii(c) ==> r == [c]
    ensures c == '\U{201C}' || c == '\U{201D}' ==> r == "\""
    ensures c == '\U{2018}' || c == '\U{2019}' ==> r == "'"
    ensures c == '\U{2013}' || c == '\U{2014}' ==> r == "-"
    ensures !IsAscii(c) && c !in {'\U{201C}', '\U{201D}', '\U{2018}', '\U{2019}', '\U{2013}', '\U{2014}'} ==>
              r == if Units(c) == 2 then "  " else " "
  {
    if IsAscii(c) then [c]
    else if c == '\U{201C}' || c == '\U{201D}' then "\""
    else if c == '\U{2018}' || c == '\U{2019}' then "'"
    else if c == '\U{2013}' || c == '\U{2014}' then "-"
    else if Units(c) == 2 then "  "
    else " "
  }

  /** `cleanContent`: every character replaced by its sanitised form. */
  function CleanContent(s: string): string {
    if s == [] then [] else Sanitise(s[0]) + CleanContent(s[1..])
  }

  /** The sanitised paper is pure ASCII and has exactly as many code units as the paper. */
  lemma {:induction false} CleanContentAscii(s: string)
    ensures AllAscii(CleanContent(s))
    ensures |CleanContent(s)| == Utf16Len(s)
  {
    if s != [] {
      CleanContentAscii(s[1..]);
      var a, b := Sanitise(s[0]), CleanContent(s[1..]);
      assert forall k :: 0 <= k < |a + b| ==> (a + b)[k] == if k < |a| then a[k] else b[k - |a|];
    }
  }

  /** An ASCII paper is left as it is. */
  lemma {:induction false} CleanContentKeepsAscii(s: string)
    requires AllAscii(s)
    ensures CleanContent(s) == s
  {
    if s != [] {
      CleanContentKeepsAscii(s[1..]);
      assert s == [s[0]] + s[1..];
    }
  }

  /** Sanitising works character by character. */
  lemma {:induction false} CleanContentAppend(a: string, b: string)
    ensures CleanContent(a + b) == CleanContent(a) + CleanContent(b)
  {
    if a != [] {
      assert (a + b)[1..] == a[1..] + b;
      CleanContentAppend(a[1..], b);
    } else {
      assert a + b == b;
    }
  }

  // ---------------------------------------------------------------------------
  // Layout of the paper
  // ---------------------------------------------------------------------------

  /** A line set in bold: its trimmed form starts with `**`, `Question` or `PART -`, or it
      contains `Marks)`. */
  predicate IsBoldLine(line: string) {
    var t := Trim(line);
    StartsWith(t, "**") || StartsWith(t, "Question") || StartsWith(t, "PART -") || Contains(t, "Marks)")
  }

  function YearLine(exam: Exam): string {
    "Year: " + exam.year + " | Source: Bar Council of India Records (AI Retrieved)"
  }

  /** The heading: the upper-cased name at 20, the year line at 28, a rule at 35, all of it
      drawn in bold. */
  function HeaderItems(exam: Exam): seq<Item> {
    [Text(ToUpper(exam.name), 20, true), Text(YearLine(exam), 28, true), Rule(35)]
  }

  /** The document and the vertical position where the next line goes. */
  datatype Cursor = Cursor(doc: State, y: int)

  /** The document after the heading, and the cursor at 45. */
  function Header(exam: Exam): (c: Cursor)
    ensures c.doc.Valid() && c.doc.pages == [HeaderItems(exam)] && c.doc.current == 0
    ensures !c.doc.bold && c.y == 45
  {
    var d := WithFont(Blank(), true);
    var e := PutText(d, ToUpper(exam.name), 20);
    var f := PutText(e, YearLine(exam), 28);
    var g := Put(f, Rule(35));
    assert |e.pages| == 1 && e.pages[0] == [] + [Text(ToUpper(exam.name), 20, true)];
    assert |f.pages| == 1 && f.pages[0] == [Text(ToUpper(exam.name), 20, true), Text(YearLine(exam), 28, true)];
    assert |g.pages| == 1 && g.pages[0] == HeaderItems(exam);
    Cursor(WithFont(g, false), 45)
  }

  /** A new page, with the cursor at 20, once the cursor is below `pageHeight - 20`. */
  function BreakIfFull(c: Cursor, pageHeight: int): (r: Cursor)
    requires c.doc.Valid()
    ensures r.doc.Valid()
  {
    if c.y > pageHeight - 20 then Cursor(NewPage(c.doc), 20) else c
  }

  /** One line: the font chosen by `IsBoldLine`, the line drawn without its `**` pairs,
      and the cursor moved down by 6. */
  function DrawLine(c: Cursor, line: string): (r: Cursor)
    requires c.doc.Valid()
    ensures r.doc.Valid()
  {
    Cursor(PutText(WithFont(c.doc, IsBoldLine(line)), RemoveDoubleStars(line), c.y), c.y + 6)
  }

  function LayoutStep(c: Cursor, line: string, pageHeight: int): (r: Cursor)
    requires c.doc.Valid()
    ensures r.doc.Valid()
  {
    DrawLine(BreakIfFull(c, pageHeight), line)
  }

  /** The lines laid out one after the other from `c`. */
  function Layout(c: Cursor, lines: seq<string>, pageHeight: int): (r: Cursor)
    requires c.doc.Valid()
    ensures r.doc.Valid()
  {
    if lines == [] then c
    else LayoutStep(Layout(c, lines[..|lines| - 1], pageHeight), lines[|lines| - 1], pageHeight)
  }

  const FOOTER: string := "NyayaAI - Legal Repository | Compiled from official records"

  /** The footer of page `i` of `n`. */
  function FooterItems(i: nat, n: nat, pageHeight: int, bold: bool): seq<Item> {
    [Text(FOOTER, pageHeight - 10, bold), Text("Page " + NatToString(i) + " of " + NatToString(n), pageHeight - 10, bold)]
  }

  /** One turn of the footer loop: go to page `i` and draw its footer. */
  function FooterOn(st: State, i: nat, pageHeight: int): (r: State)
    requires 1 <= i <= |st.pages|
    ensures r.Valid() && |r.pages| == |st.pages| && r.current == i - 1 && r.bold == st.bold
    ensures r.pages[i - 1] == st.pages[i - 1] + FooterItems(i, |st.pages|, pageHeight, st.bold)
    ensures forall k :: 0 <= k < |st.pages| && k != i - 1 ==> r.pages[k] == st.pages[k]
  {
    var a := GoToPage(st, i);
    var b := PutText(a, FOOTER, pageHeight - 10);
    PutText(b, "Page " + NatToString(i) + " of " + NatToString(|st.pages|), pageHeight - 10)
  }

  /** The footer loop after pages `1..i`. */
  function Footers(st: State, i: nat, pageHeight: int): (r: State)
    requires i <= |st.pages|
    ensures |r.pages| == |st.pages| && r.bold == st.bold
    ensures i > 0 ==> r.Valid() && r.current == i - 1
    ensures i == 0 ==> r == st
  {
    if i == 0 then st else FooterOn(Footers(st, i - 1, pageHeight), i, pageHeight)
  }

  /** The whole paper: heading, the sanitised and wrapped lines, footers on every page.
      `wrap` stands for `doc.splitTextToSize(text, pageWidth - 40)`. */
  function Paper(exam: Exam, content: string, pageHeight: int, wrap: string -> seq<string>): State {
    var laid := Layout(Header(exam), wrap(CleanContent(content)), pageHeight).doc;
    Footers(laid, |laid.pages|, pageHeight)
  }

  // ---------------------------------------------------------------------------
  // What the layout guarantees
  // ---------------------------------------------------------------------------

  /** The cursor is on the last page and never above 20. */
  predicate OnLastPage(c: Cursor) {
    c.doc.Valid() && c.doc.current == |c.doc.pages| - 1 && c.y >= 20
  }

  /** One line: a break happens exactly when the cursor is below `pageHeight - 20`; the
      line is drawn once, at 20 after a break and at the cursor otherwise, in the weight
      `IsBoldLine` chooses and without `**`; the cursor then moves down by 6. */
  lemma LineStep(c: Cursor, line: string, pageHeight: int)
    requires OnLastPage(c)
    ensures var r := LayoutStep(c, line, pageHeight);
      var brk := c.y > pageHeight - 20;
      var y0 := if brk then 20 else c.y;
      && OnLastPage(r)
      && r.y == y0 + 6
      && |r.doc.pages| == |c.doc.pages| + (if brk then 1 else 0)
      && Flatten(r.doc.pages) == Flatten(c.doc.pages) + [Text(RemoveDoubleStars(line), y0, IsBoldLine(line))]
  {
    var b := BreakIfFull(c, pageHeight);
    if c.y > pageHeight - 20 {
      FlattenNewPage(c.doc);
    }
    FlattenPut(WithFont(b.doc, IsBoldLine(line)), Text(RemoveDoubleStars(line), b.y, IsBoldLine(line)));
  }

  /** How line `line` of the paper is drawn: once, without `**`, in the weight
      `IsBoldLine` chooses, never above 20, and, on a page at least 40 tall, never below
      `pageHeight - 20`. */
  predicate DrawnAs(it: Item, line: string, pageHeight: int) {
    && it.Text? && it.s == RemoveDoubleStars(line) && it.bold == IsBoldLine(line)
    && it.y >= 20 && (pageHeight >= 40 ==> it.y <= pageHeight - 20)
  }

  /** After the heading every wrapped line is drawn exactly once, in order, as `DrawnAs`
      says, and nothing else is drawn. */
  lemma {:induction false} LayoutDrawsEveryLine(exam: Exam, lines: seq<string>, pageHeight: int)
    ensures var r := Layout(Header(exam), lines, pageHeight);
      var items := Flatten(r.doc.pages);
      && OnLastPage(r)
      && |items| == 3 + |lines|
      && items[..3] == HeaderItems(exam)
      && forall k :: 0 <= k < |lines| ==> DrawnAs(items[3 + k], lines[k], pageHeight)
  {
    var c := Header(exam);
    if lines == [] {
      assert Flatten(c.doc.pages) == Flatten([]) + HeaderItems(exam);
    } else {
      var init := lines[..|lines| - 1];
      LayoutDrawsEveryLine(exam, init, pageHeight);
      LastLineDrawn(Layout(c, init, pageHeight), lines, pageHeight);
      DrawnExtend(exam, Flatten(Layout(c, init, pageHeight).doc.pages),
                  Flatten(Layout(c, lines, pageHeight).doc.pages), init, lines, pageHeight);
    }
  }

  lemma LastLineDrawn(c: Cursor, lines: seq<string>, pageHeight: int)
    requires OnLastPage(c) && lines != []
    ensures var r := LayoutStep(c, lines[|lines| - 1], pageHeight);
      && OnLastPage(r)
      && |Flatten(r.doc.pages)| == |Flatten(c.doc.pages)| + 1
      && Flatten(r.doc.pages)[..|Flatten(c.doc.pages)|] == Flatten(c.doc.pages)
      && DrawnAs(Flatten(r.doc.pages)[|Flatten(c.doc.pages)|], lines[|lines| - 1], pageHeight)
  {
    LineStep(c, lines[|lines| - 1], pageHeight);
  }

  lemma DrawnExtend(exam: Exam, before: seq<Item>, after: seq<Item>, init: seq<string>, lines: seq<string>, pageHeight: int)
    requires lines != [] && init == lines[..|lines| - 1]
    requires |before| == 3 + |init| && before[..3] == HeaderItems(exam)
    requires forall k :: 0 <= k < |init| ==> DrawnAs(before[3 + k], init[k], pageHeight)
    requires |after| == |before| + 1 && after[..|before|] == before
    requires DrawnAs(after[|before|], lines[|lines| - 1], pageHeight)
    ensures |after| == 3 + |lines| && after[..3] == HeaderItems(exam)
    ensures forall k :: 0 <= k < |lines| ==> DrawnAs(after[3 + k], lines[k], pageHeight)
  {
    assert after[..3] == before[..3];
    forall k | 0 <= k < |lines| ensures DrawnAs(after[3 + k], lines[k], pageHeight) {
      if k < |lines| - 1 {
        assert after[3 + k] == after[..|before|][3 + k] == before[3 + k];
        assert lines[k] == init[k];
      } else {
        assert 3 + k == |before|;
      }
    }
  }

  /** After the footer loop page `k` holds what it held, followed by the footer
      "Page k of n", for every page, and nothing else changed. */
  lemma FootersOnEveryPage(st: State, i: nat, pageHeight: int)
    requires i <= |st.pages|
    ensures forall k :: 0 <= k < |st.pages| ==>
              Footers(st, i, pageHeight).pages[k]
                == st.pages[k] + (if k < i then FooterItems(k + 1, |st.pages|, pageHeight, st.bold) else [])
  {
    forall k | 0 <= k < |st.pages|
      ensures Footers(st, i, pageHeight).pages[k]
                == st.pages[k] + (if k < i then FooterItems(k + 1, |st.pages|, pageHeight, st.bold) else [])
    {
      FooterOnPage(st, i, pageHeight, k);
      assert st.pages[k] + [] == st.pages[k];
    }
  }

  lemma {:induction false} FooterOnPage(st: State, i: nat, pageHeight: int, k: nat)
    requires i <= |st.pages| && k < |st.pages|
    ensures k < i ==> Footers(st, i, pageHeight).pages[k] == st.pages[k] + FooterItems(k + 1, |st.pages|, pageHeight, st.bold)
    ensures i <= k ==> Footers(st, i, pageHeight).pages[k] == st.pages[k]
  {
    if i > 0 {
      FooterOnPage(st, i - 1, pageHeight, k);
    }
  }

  /** File names: every character that is not an ASCII letter or digit becomes `_`
      (each code unit of a character outside the Basic Multilingual Plane does). */
  function SafeChar(c: char): (r: string)
    ensures |r| == Units(c)
    ensures IsAsciiUpper(c) || IsAsciiLower(c) || IsAsciiDigit(c) ==> r == [c]
    ensures !(IsAsciiUpper(c) || IsAsciiLower(c) || IsAsciiDigit(c)) ==> forall k :: 0 <= k < |r| ==> r[k] == '_'
  {
    if IsAsciiUpper(c) || IsAsciiLower(c) || IsAsciiDigit(c) then [c]
    else if Units(c) == 2 then "__" else "_"
  }

  function SafeName(s: string): string {
    if s == [] then [] else SafeChar(s[0]) + SafeName(s[1..])
  }

  /** The download name: the exam name with every character other than an ASCII letter or
      digit replaced by `_`, then `.pdf`. */
  function FileName(name: string): string {
    SafeName(name) + ".pdf"
  }

  predicate Safe(c: char) {
    IsAsciiUpper(c) || IsAsciiLower(c) || IsAsciiDigit(c) || c == '_'
  }

  /** The file name keeps the name's length in code units, uses only letters, digits and
      `_` before `.pdf`, and a name made of letters and digits is kept. */
  lemma FileNameSafe(name: string)
    ensures var r := SafeName(name);
      && FileName(name) == r + ".pdf"
      && |r| == Utf16Len(name)
      && (forall k :: 0 <= k < |r| ==> Safe(r[k]))
      && ((forall k :: 0 <= k < |name| ==> IsAsciiUpper(name[k]) || IsAsciiLower(name[k]) || IsAsciiDigit(name[k]))
            ==> r == name)
  {
    SafeNameLength(name);
    SafeNameSafe(name);
    if forall k :: 0 <= k < |name| ==> IsAsciiUpper(name[k]) || IsAsciiLower(name[k]) || IsAsciiDigit(name[k]) {
      SafeNameKeeps(name);
    }
  }

  lemma {:induction false} SafeNameLength(name: string)
    ensures |SafeName(name)| == Utf16Len(name)
  {
    if name != [] {
      SafeNameLength(name[1..]);
      assert name == [name[0]] + name[1..];
    }
  }

  lemma {:induction false} SafeNameSafe(name: string)
    ensures forall k :: 0 <= k < |SafeName(name)| ==> Safe(SafeName(name)[k])
  {
    if name != [] {
      SafeNameSafe(name[1..]);
      var a, b := SafeChar(name[0]), SafeName(name[1..]);
      assert forall k :: 0 <= k < |a + b| ==> (a + b)[k] == if k < |a| then a[k] else b[k - |a|];
    }
  }

  lemma {:induction false} SafeNameKeeps(name: string)
    requires forall k :: 0 <= k < |name| ==> IsAsciiUpper(name[k]) || IsAsciiLower(name[k]) || IsAsciiDigit(name[k])
    ensures SafeName(name) == name
  {
    if name != [] {
      assert forall k :: 0 <= k < |name[1..]| ==> name[1..][k] == name[k + 1];
      SafeNameKeeps(name[1..]);
      assert name == [name[0]] + name[1..];
    }
  }

  // ---------------------------------------------------------------------------
  // generatePDF
  // ---------------------------------------------------------------------------

  /** `generatePDF(exam, content)`: the document drawn is `Paper`, the file name is
      `FileName`. */
  method GeneratePdf(exam: Exam, content: string, pageHeight: int, wrap: string -> seq<string>)
    returns (doc: Doc, fileName: string)
    ensures fresh(doc)
    ensures doc.Snapshot() == Paper(exam, content, pageHeight, wrap)
    ensures fileName == FileName(exam.name)
  {
    doc := new Doc();
    DrawHeader(doc, exam);
    var cleanContent := CleanContent(content);
    var lines := wrap(cleanContent);
    DrawBody(doc, exam, lines, pageHeight);
    DrawFooters(doc, pageHeight);
    fileName := SafeName(exam.name) + ".pdf";
  }

  /** The line loop: each wrapped line in turn, below the heading. */
  method DrawBody(doc: Doc, exam: Exam, lines: seq<string>, pageHeight: int)
    requires doc.Snapshot() == Header(exam).doc
    modifies doc
    ensures doc.Snapshot() == Layout(Header(exam), lines, pageHeight).doc
  {
    var yPosition := 45;
    for i := 0 to |lines|
      invariant Cursor(doc.Snapshot(), yPosition) == Layout(Header(exam), lines[..i], pageHeight)
    {
      assert lines[..i + 1][..i] == lines[..i];
      yPosition := DrawLineOn(doc, yPosition, lines[i], pageHeight);
    }
    assert lines[..|lines|] == lines;
  }

  /** The footer loop over every page. */
  method DrawFooters(doc: Doc, pageHeight: int)
    modifies doc
    ensures doc.Snapshot() == Footers(old(doc.Snapshot()), |old(doc.Snapshot()).pages|, pageHeight)
  {
    ghost var laid := doc.Snapshot();
    var pageCount := |doc.pages|;
    for i := 1 to pageCount + 1
      invariant doc.Snapshot() == Footers(laid, i - 1, pageHeight)
    {
      DrawFooter(doc, i, pageCount, pageHeight);
    }
  }

  /** The heading of the paper. */
  method DrawHeader(doc: Doc, exam: Exam)
    requires doc.Snapshot() == Blank()
    modifies doc
    ensures doc.Snapshot() == Header(exam).doc
  {
    doc.SetBold(true);
    doc.Text(ToUpper(exam.name), 20);
    doc.Text(YearLine(exam), 28);
    doc.Line(35);
    doc.SetBold(false);
  }

  /** One turn of the line loop. */
  method DrawLineOn(doc: Doc, yPosition: int, line: string, pageHeight: int) returns (y': int)
    requires doc.Snapshot().Valid()
    modifies doc
    ensures Cursor(doc.Snapshot(), y') == LayoutStep(Cursor(old(doc.Snapshot()), yPosition), line, pageHeight)
  {
    y' := yPosition;
    if y' > pageHeight - 20 {
      doc.AddPage();
      y' := 20;
    }
    if IsBoldLine(line) {
      doc.SetBold(true);
    } else {
      doc.SetBold(false);
    }
    doc.Text(RemoveDoubleStars(line), y');
    y' := y' + 6;
  }

  /** One turn of the footer loop. */
  method DrawFooter(doc: Doc, i: nat, pageCount: nat, pageHeight: int)
    requires 1 <= i <= |doc.pages| == pageCount
    modifies doc
    ensures doc.Snapshot() == FooterOn(old(doc.Snapshot()), i, pageHeight)
  {
    doc.SetPage(i);
    doc.Text(FOOTER, pageHeight - 10);
    doc.Text("Page " + NatToString(i) + " of " + NatToString(pageCount), pageHeight - 10);
  }

  // ---------------------------------------------------------------------------
  // handleDownload
  // ---------------------------------------------------------------------------

  const UNABLE: string := "Unable to generate the exam paper at this time. Please try again later.\n\n"
  const FAILED: string := "Failed to generate exam paper. Please try again."

  /** A generated text that is not laid out: empty, or an error report. */
  predicate Unusable(content: string) {
    content == "" || StartsWith(content, "AI_ERROR")
  }

  /** The progress shown for each length the generator reports. */
  function ProgressTrace(lengths: seq<nat>): (r: seq<nat>)
    ensures |r| == |lengths| && forall k :: 0 <= k < |r| ==> r[k] == Progress(lengths[k]) && r[k] <= 95
  {
    seq(|lengths|, k requires 0 <= k < |lengths| => Progress(lengths[k]))
  }

  /** The panel's download state. */
  class Repository {
    var loadingId: Option<string>
    var downloadProgress: nat

    constructor ()
      ensures loadingId == None && downloadProgress == 0
    {
      loadingId := None;
      downloadProgress := 0;
    }

    /** The start of `handleDownload(exam)`: the exam is loading at 5%. Only that exam's
        button is disabled, so another exam's download can start while one runs. */
    method StartDownload(exam: Exam)
      modifies this
      ensures loadingId == Some(exam.id) && downloadProgress == 5
    {
      loadingId := Some(exam.id);
      downloadProgress := 5;
    }

    /** The generator's progress callback: the estimate for the length reported so far. */
    method ReportProgress(currentLength: nat) returns (percentage: nat)
      modifies this
      ensures percentage == Progress(currentLength) && percentage <= 95
      ensures downloadProgress == percentage && loadingId == old(loadingId)
    {
      percentage := Progress(currentLength);
      downloadProgress := percentage;
    }

    /** The generator has settled: with `None` it threw, and the `catch` alerts and the
        `finally` leaves the panel idle. With a text the progress is set to 100; an empty or
        error text is alerted with the text and the panel goes idle, while a usable text
        (`ready`) leaves the panel at 100 until the paper is drawn. */
    method ContentArrived(content: Option<string>) returns (alert: Option<string>, ready: bool)
      modifies this
      ensures ready <==> content.Some? && !Unusable(content.value)
      ensures content.None? ==> alert == Some(FAILED)
      ensures content.Some? && Unusable(content.value) ==> alert == Some(UNABLE + content.value)
      ensures ready ==> alert.None? && downloadProgress == 100 && loadingId == old(loadingId)
      ensures !ready ==> loadingId == None && downloadProgress == 0
    {
      alert, ready := None, false;
      if content.None? {
        alert := Some(FAILED);
      } else {
        downloadProgress := 100;
        var text := content.value;
        if text == "" || StartsWith(text, "AI_ERROR") {
          alert := Some(UNABLE + text);
        } else {
          ready := true;
          return;
        }
      }
      loadingId := None;
      downloadProgress := 0;
    }

    /** After the half-second pause: the paper is drawn and named, and the `finally` leaves
        the panel idle, whichever exam it was showing. */
    method FinishDownload(exam: Exam, text: string, pageHeight: int, wrap: string -> seq<string>)
      returns (pdf: Doc, fileName: string)
      modifies this
      ensures fresh(pdf) && pdf.Snapshot() == Paper(exam, text, pageHeight, wrap)
      ensures fileName == FileName(exam.name)
      ensures loadingId == None && downloadProgress == 0
    {
      pdf, fileName := GeneratePdf(exam, text, pageHeight, wrap);
      loadingId := None;
      downloadProgress := 0;
    }

    /** `handleDownload(exam)` run to the end with no other download in between:
        `StartDownload`, one `ReportProgress` per reported length, `ContentArrived`, and
        `FinishDownload` for a usable text. The generator reports the lengths `lengths` and
        then returns `content`, or fails (`None`) after reporting them. `shown` is every
        progress value set, in order, and `alert` the message shown to the user, if any.
        A paper is drawn only for usable content; whatever happens the panel ends idle
        with no progress. */
    method HandleDownload(exam: Exam, lengths: seq<nat>, content: Option<string>, pageHeight: int,
                          wrap: string -> seq<string>)
      returns (shown: seq<nat>, alert: Option<string>, pdf: Option<Doc>, fileName: Option<string>)
      modifies this
      ensures loadingId == None && downloadProgress == 0
      ensures shown == [5] + ProgressTrace(lengths) + (if content.Some? then [100] else [])
      ensures content.None? ==> alert == Some(FAILED) && pdf.None? && fileName.None?
      ensures content.Some? && Unusable(content.value) ==>
                alert == Some(UNABLE + content.value) && pdf.None? && fileName.None?
      ensures content.Some? && !Unusable(content.value) ==>
                && alert.None? && pdf.Some? && fresh(pdf.value)
                && pdf.value.Snapshot() == Paper(exam, content.value, pageHeight, wrap)
                && fileName == Some(FileName(exam.name))
    {
      StartDownload(exam);
      shown := [downloadProgress];
      pdf, fileName := None, None;
      for i := 0 to |lengths|
        invariant shown == [5] + ProgressTrace(lengths[..i])
      {
        assert ProgressTrace(lengths[..i + 1]) == ProgressTrace(lengths[..i]) + [Progress(lengths[i])];
        var percentage := ReportProgress(lengths[i]);
        shown := shown + [percentage];
      }
      assert lengths[..|lengths|] == lengths;
      var ready;
      alert, ready := ContentArrived(content);
      if content.Some? {
        shown := shown + [100];
      }
      if ready {
        var doc, name := FinishDownload(exam, content.value, pageHeight, wrap);
        pdf, fileName := Some(doc), Some(name);
      }
    }
  }
}
