/** What each replacement of the cleaning chain (`ChatExport.Clean`) does to the markdown
    shapes a chat answer uses, wherever on a line they stand. */
module CleanShapes {
  import opened Wrappers
  import opened Strings
  import opened ChatExport
  import opened ReplaceSteps
  import opened CleanLines

  /** Where the pattern does not match before `e`, the replacement copies the text up to
      `e` and goes on from there. */
  lemma {:induction false} NoMatchPrefix(p: Pattern, s: string, pos: nat, e: nat)
    requires pos <= e <= |s|
    requires forall j: nat :: pos <= j < e ==> MatchLen(p, s, j).None?
    ensures ReplaceFrom(p, s, pos) == s[pos..e] + ReplaceFrom(p, s, e)
    decreases e - pos
  {
    if pos < e {
      NoMatchPrefix(p, s, pos + 1, e);
      ReplaceFromStep(p, s, pos);
      assert Scan(p, s, pos) == ([s[pos]], pos + 1);
      assert s[pos..e] == [s[pos]] + s[pos + 1..e];
      Associative([s[pos]], s[pos + 1..e], ReplaceFrom(p, s, e));
    }
  }

  /** Text in which a pattern without `^` cannot start a match is kept, and the
      replacement goes on after it as on the rest alone. */
  lemma KeepsLead(p: Pattern, a: string, rest: string)
    requires !(p.QuoteMark? || p.BulletMark?)
    requires forall j: nat :: j < |a| ==> MatchLen(p, a + rest, j).None?
    ensures ReplaceAll(p, a + rest) == a + ReplaceAll(p, rest)
  {
    var s := a + rest;
    NoMatchPrefix(p, s, 0, |a|);
    assert s[0..|a|] == a;
    ReplaceFromShift(p, a, rest, 0);
  }

  /** Neither emphasis pattern starts a match where there is no asterisk. */
  lemma NoStarNoEmphasis(p: Pattern, a: string, rest: string)
    requires p.BoldPair? || p.ItalicPair?
    requires '*' !in a
    ensures ReplaceAll(p, a + rest) == a + ReplaceAll(p, rest)
  {
    forall j: nat | j < |a| ensures MatchLen(p, a + rest, j).None? {
      assert (a + rest)[j] == a[j];
    }
    KeepsLead(p, a, rest);
  }

  /** A line without `#` holds no heading marker. */
  lemma NoHashNoMarker(m: string, a: string, rest: string)
    requires m == "###" || m == "##"
    requires '#' !in a
    ensures ReplaceAll(Marker(m), a + rest) == a + ReplaceAll(Marker(m), rest)
  {
    var s := a + rest;
    forall j: nat | j < |a| ensures MatchLen(Marker(m), s, j).None? {
      assert s[j] == a[j] && a[j] != '#';
      if j + |m| <= |s| { assert s[j..j + |m|][0] == s[j]; }
    }
    KeepsLead(Marker(m), a, rest);
  }

  /** A bold pair at the start is replaced by its inner text. */
  lemma BoldAtStart(t: string, b: string)
    requires '*' !in t && NoTerminator(t)
    ensures ReplaceAll(BoldPair, "**" + t + "**" + b) == t + ReplaceAll(BoldPair, b)
  {
    var pair := "**" + t + "**";
    var rest := pair + b;
    assert rest[0] == '*' && rest[1] == '*' && rest[|t| + 2] == '*' && rest[|t| + 3] == '*';
    forall k | 2 <= k < |t| + 2 ensures rest[k] != '*' && !IsLineTerminator(rest[k]) {
      assert rest[k] == t[k - 2];
    }
    CloseDoubleFirst(rest, 2, |t| + 2);
    assert MatchLen(BoldPair, rest, 0) == Some(|pair|);
    assert rest[2..|pair| - 2] == t;
    ReplaceFromStep(BoldPair, rest, 0);
    ReplaceFromShift(BoldPair, pair, b, 0);
  }

  /** An italic pair at the start is replaced by its inner text. */
  lemma ItalicAtStart(t: string, b: string)
    requires '*' !in t && NoTerminator(t)
    ensures ReplaceAll(ItalicPair, "*" + t + "*" + b) == t + ReplaceAll(ItalicPair, b)
  {
    var pair := "*" + t + "*";
    var rest := pair + b;
    assert rest[0] == '*' && rest[|t| + 1] == '*';
    forall k | 1 <= k < |t| + 1 ensures rest[k] != '*' && !IsLineTerminator(rest[k]) {
      assert rest[k] == t[k - 1];
    }
    CloseSingleFirst(rest, 1, '*', |t| + 1);
    assert MatchLen(ItalicPair, rest, 0) == Some(|pair|);
    assert rest[1..|pair| - 1] == t;
    ReplaceFromStep(ItalicPair, rest, 0);
    ReplaceFromShift(ItalicPair, pair, b, 0);
  }

  /** A heading marker at the start is deleted with the white-space character after it. */
  lemma MarkerAtStart(m: string, sp: char, b: string)
    requires m == "###" || m == "##"
    requires IsSpace(sp)
    ensures ReplaceAll(Marker(m), m + [sp] + b) == ReplaceAll(Marker(m), b)
  {
    var mark := m + [sp];
    var rest := mark + b;
    assert rest[..|m|] == m && rest[|m|] == sp;
    assert OccursAt(rest, m, 0);
    assert OptSpace(rest, |m|) == 1;
    assert MarkerLen(m, rest, 0) == Some(|mark|);
    ReplaceFromStep(Marker(m), rest, 0);
    ReplaceFromShift(Marker(m), mark, b, 0);
  }

  /** A bold pair anywhere on a line, after text without asterisks, is replaced by its
      inner text; the rest of the message is replaced as on its own. */
  lemma BoldInLine(a: string, t: string, b: string)
    requires '*' !in a && '*' !in t && NoTerminator(t)
    ensures ReplaceAll(BoldPair, a + "**" + t + "**" + b) == a + t + ReplaceAll(BoldPair, b)
  {
    var rest := "**" + t + "**" + b;
    assert a + "**" + t + "**" + b == a + rest;
    NoStarNoEmphasis(BoldPair, a, rest);
    BoldAtStart(t, b);
    Associative(a, t, ReplaceAll(BoldPair, b));
  }

  /** An italic pair anywhere on a line, after text without asterisks, is replaced by its
      inner text; the rest of the message is replaced as on its own. */
  lemma ItalicInLine(a: string, t: string, b: string)
    requires '*' !in a && '*' !in t && NoTerminator(t)
    ensures ReplaceAll(ItalicPair, a + "*" + t + "*" + b) == a + t + ReplaceAll(ItalicPair, b)
  {
    var rest := "*" + t + "*" + b;
    assert a + "*" + t + "*" + b == a + rest;
    NoStarNoEmphasis(ItalicPair, a, rest);
    ItalicAtStart(t, b);
    Associative(a, t, ReplaceAll(ItalicPair, b));
  }

  /** A heading marker, `###` or `##`, and one white-space character after it are deleted
      wherever they stand, after text without `#`. */
  lemma MarkerInLine(m: string, a: string, sp: char, b: string)
    requires m == "###" || m == "##"
    requires '#' !in a && IsSpace(sp)
    ensures ReplaceAll(Marker(m), a + m + [sp] + b) == a + ReplaceAll(Marker(m), b)
  {
    var rest := m + [sp] + b;
    assert a + m + [sp] + b == a + rest;
    NoHashNoMarker(m, a, rest);
    MarkerAtStart(m, sp, b);
  }

  /** A list marker, `-` or `*` after any indentation and before a white-space character
      that does not end the line, becomes the bullet; the rest of the line is kept. */
  lemma ListMarkerInLine(w: string, c: char, sp: char, t: string)
    requires AllSpace(w) && (c == '-' || c == '*')
    requires IsSpace(sp) && !IsLineTerminator(sp) && NoTerminator(t)
    ensures ReplaceAll(BulletMark, w + [c, sp] + t) == BULLET + t
  {
    var s := w + [c, sp] + t;
    assert s[..|w|] == w && s[0..|w|] == w;
    assert s[|w|] == c && s[|w| + 1] == sp;
    BulletMatchAt(s, 0, |w|);
    forall j: nat | |w| + 2 <= j < |s| ensures MatchLen(BulletMark, s, j).None? {
      assert !IsLineTerminator(s[j - 1]);
    }
    ReplaceFromStep(BulletMark, s, 0);
    NoMatchUnchanged(BulletMark, s, |w| + 2);
    assert s[|w| + 2..] == t;
  }

  /** A pattern that matches nowhere leaves the text as it is. */
  lemma Untouched(p: Pattern, s: string)
    requires forall j: nat :: j < |s| ==> MatchLen(p, s, j).None?
    ensures ReplaceAll(p, s) == s
  {
    NoMatchUnchanged(p, s, 0);
    assert s[0..] == s;
  }

  /** A `* ` list item of plain text goes through the whole chain as the bullet and the
      text: the italic pass finds no closing asterisk for the marker, so it survives to be
      the list marker. */
  lemma CleanStarBullet(t: string)
    requires NoTerminator(t) && '*' !in t && '#' !in t && '`' !in t && '>' !in t
    requires t != [] && !IsSpace(t[|t| - 1])
    ensures Clean("* " + t) == BULLET + t
  {
    var s := "* " + t;
    assert s[0] == '*' && s[1] == ' ';
    forall k | 1 <= k < |s| ensures s[k] != '*' && s[k] != '#' && s[k] != '`' && s[k] != '>' {
      if k >= 2 { assert s[k] == t[k - 2]; }
    }
    forall j: nat | j < |s| ensures MatchLen(BoldPair, s, j).None? && MatchLen(ItalicPair, s, j).None? {
      if j == 0 { assert CloseSingle(s, 1, '*').None?; }
    }
    Untouched(BoldPair, s);
    Untouched(ItalicPair, s);
    forall j: nat | j < |s|
      ensures MatchLen(Marker("###"), s, j).None? && MatchLen(Marker("##"), s, j).None?
      ensures MatchLen(QuoteMark, s, j).None? && MatchLen(Backtick, s, j).None?
    {
      if j + 2 <= |s| { assert s[j..j + 2][0] == s[j] && s[j..j + 2][1] == s[j + 1]; }
      if j + 3 <= |s| { assert s[j..j + 3][0] == s[j] && s[j..j + 3][1] == s[j + 1]; }
    }
    Untouched(Marker("###"), s);
    Untouched(Marker("##"), s);
    Untouched(QuoteMark, s);
    Untouched(Backtick, s);
    assert s[|s| - 1] == t[|t| - 1];
    TrimUntouched(s);
    assert s == [] + ['*', ' '] + t;
    ListMarkerInLine([], '*', ' ', t);
  }
}
