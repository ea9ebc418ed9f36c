/** String operations of the JavaScript runtime that the components rely on. */
module Strings {
  import opened Wrappers


  /** ECMAScript line terminators: what `.` in a regular expression does not match,
      and where `^` matches in multiline mode. */
  predicate IsLineTerminator(c: char) {
    c == '\n' || c == '\r' || c == '\U{2028}' || c == '\U{2029}'
  }

  /** ECMAScript WhiteSpace or LineTerminator: the characters `trim()` strips
      and the regular-expression class `\s` matches. */
  predicate IsSpace(c: char) {
    || c == '\t' || c == '\U{000B}' || c == '\U{000C}' || c == ' '
    || c == '\U{00A0}' || c == '\U{FEFF}' || c == '\U{1680}'
    || ('\U{2000}' <= c <= '\U{200A}')
    || c == '\U{202F}' || c == '\U{205F}' || c == '\U{3000}'
    || IsLineTerminator(c)
  }

  /** Concatenation regroups freely. */
  lemma Associative(x: string, y: string, z: string)
    ensures x + (y + z) == (x + y) + z
  {
  }

  predicate AllSpace(s: string) {
    forall k :: 0 <= k < |s| ==> IsSpace(s[k])
  }

  lemma AllSpaceCons(s: string, n: nat)
    requires 0 < n <= |s| && IsSpace(s[0]) && AllSpace(s[1..][..n - 1])
    ensures AllSpace(s[..n])
  {
    assert forall k :: 1 <= k < n ==> s[..n][k] == s[1..][..n - 1][k - 1];
  }

  /** Number of white-space characters at the start of `s`. */
  function Lead(s: string): (n: nat)
    ensures n <= |s| && AllSpace(s[..n]) && (n == |s| || !IsSpace(s[n]))
  {
    if s == [] || !IsSpace(s[0]) then 0
    else
      var n := 1 + Lead(s[1..]);
      AllSpaceCons(s, n);
      n
  }

  /** The white-space run at the start is exactly `n` long when `n` spaces are followed by
      something else. */
  lemma {:induction false} LeadOfSpaces(s: string, n: nat)
    requires n < |s| && AllSpace(s[..n]) && !IsSpace(s[n])
    ensures Lead(s) == n
  {
    if n > 0 {
      assert IsSpace(s[..n][0]);
      assert s[1..][..n - 1] == s[1..n];
      assert forall k :: 0 <= k < n - 1 ==> s[1..n][k] == s[..n][k + 1];
      LeadOfSpaces(s[1..], n - 1);
    }
  }

  /** Number of white-space characters at the end of `s`. */
  function Trail(s: string): (n: nat)
    ensures n <= |s| && AllSpace(s[|s| - n..]) && (n == |s| || !IsSpace(s[|s| - n - 1]))
  {
    if s == [] || !IsSpace(s[|s| - 1]) then 0
    else
      var s' := s[..|s| - 1];
      var n := 1 + Trail(s');
      assert s[|s| - n..] == s'[|s'| - (n - 1)..] + [s[|s| - 1]];
      n
  }

  /** `String.prototype.trim`: `s` is white space, then the result, then white space,
      and the result neither starts nor ends with white space. */
  function Trim(s: string): (r: string)
    ensures Lead(s) + |r| <= |s| && r == s[Lead(s)..Lead(s) + |r|]
    ensures AllSpace(s[Lead(s) + |r|..])
    ensures r == [] || (!IsSpace(r[0]) && !IsSpace(r[|r| - 1]))
    ensures r == [] <==> AllSpace(s)
  {
    var i := Lead(s);
    var t := s[i..];
    var r := t[..|t| - Trail(t)];
    TrimParts(s, i, t, Trail(t), r);
    r
  }

  lemma TrimParts(s: string, i: nat, t: string, j: nat, r: string)
    requires i == Lead(s) && t == s[i..] && j == Trail(t) && r == t[..|t| - j]
    ensures AllSpace(s[i + |r|..])
    ensures r == [] || (!IsSpace(r[0]) && !IsSpace(r[|r| - 1]))
    ensures r == [] <==> AllSpace(s)
  {
    assert s[i + |r|..] == t[|t| - j..];
    if r != [] {
      assert r[0] == s[i] && !IsSpace(s[i]);
      assert r[|r| - 1] == t[|t| - j - 1];
    } else {
      assert s == s[..i] + t;
      assert t == t[|t| - j..];
    }
  }

  predicate StartsWith(s: string, p: string) {
    |p| <= |s| && s[..|p|] == p
  }

  predicate EndsWith(s: string, p: string) {
    |p| <= |s| && s[|s| - |p|..] == p
  }

  /** `pat` occurs in `s` at index `i`. */
  predicate OccursAt(s: string, pat: string, i: nat) {
    i + |pat| <= |s| && s[i..i + |pat|] == pat
  }

  /** `String.prototype.includes`. */
  predicate Contains(s: string, sub: string) {
    exists i: nat | i <= |s| :: OccursAt(s, sub, i)
  }

  lemma ContainsEmpty(s: string)
    ensures Contains(s, "")
  {
    assert OccursAt(s, "", 0);
  }

  /** The first index at or after `from` where `pat` occurs in `s` (`indexOf`). */
  function IndexOf(s: string, pat: string, from: nat): (r: Option<nat>)
    ensures r.Some? ==> from <= r.value && OccursAt(s, pat, r.value)
    ensures r.Some? ==> forall k: nat :: from <= k < r.value ==> !OccursAt(s, pat, k)
    ensures r.None? ==> forall k: nat :: from <= k ==> !OccursAt(s, pat, k)
    decreases |s| - from
  {
    if from + |pat| > |s| then None
    else if s[from..from + |pat|] == pat then Some(from)
    else IndexOf(s, pat, from + 1)
  }

  /** `s.replace(pat, rep)` with a string pattern: only the first occurrence is replaced. */
  function ReplaceFirst(s: string, pat: string, rep: string): (r: string)
    ensures !Contains(s, pat) ==> r == s
    ensures forall i: nat :: OccursAt(s, pat, i) && (forall k: nat :: k < i ==> !OccursAt(s, pat, k))
              ==> r == s[..i] + rep + s[i + |pat|..]
  {
    match IndexOf(s, pat, 0)
    case None => s
    case Some(i) =>
      assert forall j: nat :: OccursAt(s, pat, j) && (forall k: nat :: k < j ==> !OccursAt(s, pat, k)) ==> j == i by {
        forall j: nat | OccursAt(s, pat, j) && (forall k: nat :: k < j ==> !OccursAt(s, pat, k)) ensures j == i {
          assert !(i < j) by { assert OccursAt(s, pat, i); }
        }
      }
      s[..i] + rep + s[i + |pat|..]
  }

  /** The characters of `s` other than asterisks, in order. */
  function NonStars(s: string): string {
    if s == [] then [] else (if s[0] == '*' then [] else [s[0]]) + NonStars(s[1..])
  }

  /** `k` asterisks. */
  function Stars(k: nat): (r: string)
    ensures |r| == k
  {
    if k == 0 then [] else "*" + Stars(k - 1)
  }

  /** The left-to-right scan of a global `**` replacement: a pair is dropped, any other
      character copied. */
  function Unpaired(s: string): string {
    if |s| >= 2 && s[0] == '*' && s[1] == '*' then Unpaired(s[2..])
    else if s == [] then []
    else [s[0]] + Unpaired(s[1..])
  }

  lemma {:induction false} UnpairedFacts(s: string)
    ensures |Unpaired(s)| <= |s|
    ensures NonStars(Unpaired(s)) == NonStars(s)
    ensures forall k :: 0 <= k < |Unpaired(s)| - 1 ==> !(Unpaired(s)[k] == '*' && Unpaired(s)[k + 1] == '*')
    ensures (forall k :: 0 <= k < |s| - 1 ==> !(s[k] == '*' && s[k + 1] == '*')) ==> Unpaired(s) == s
    ensures s != [] && s[0] != '*' ==> Unpaired(s) != [] && Unpaired(s)[0] == s[0]
    decreases |s|
  {
    if |s| >= 2 && s[0] == '*' && s[1] == '*' {
      UnpairedFacts(s[2..]);
      assert NonStars(s) == NonStars(s[1..]) && s[1..][1..] == s[2..];
    } else if s != [] {
      UnpairedFacts(s[1..]);
      var rest := Unpaired(s[1..]);
      assert forall k :: 0 <= k < |s[1..]| - 1 ==> s[1..][k] == s[k + 1];
      assert ([s[0]] + rest)[1..] == rest;
      if |s| >= 2 && rest != [] {
        assert s[1] != '*' ==> rest[0] == s[1];
      }
    }
  }

  /** Removing every `**` with a global replacement: the pairs are taken left to right, so
      a run of `k` asterisks leaves `k % 2` of them (`RemoveDoubleStarsRun`); every other
      character is kept in order, no pair is left, and a string without pairs is unchanged. */
  function RemoveDoubleStars(s: string): (r: string)
    ensures |r| <= |s|
    ensures NonStars(r) == NonStars(s)
    ensures forall k :: 0 <= k < |r| - 1 ==> !(r[k] == '*' && r[k + 1] == '*')
    ensures (forall k :: 0 <= k < |s| - 1 ==> !(s[k] == '*' && s[k + 1] == '*')) ==> r == s
    ensures s != [] && s[0] != '*' ==> r != [] && r[0] == s[0]
  {
    UnpairedFacts(s);
    Unpaired(s)
  }

  lemma UnpairedKeep(c: char, t: string)
    requires c != '*' || t == [] || t[0] != '*'
    ensures Unpaired([c] + t) == [c] + Unpaired(t)
  {
    assert ([c] + t)[1..] == t;
  }

  lemma {:induction false} UnpairedAppend(a: string, t: string)
    requires a == [] || a[|a| - 1] != '*'
    ensures Unpaired(a + t) == Unpaired(a) + Unpaired(t)
    decreases |a|
  {
    if a == [] {
      assert a + t == t;
    } else if |a| >= 2 && a[0] == '*' && a[1] == '*' {
      assert a + t == "**" + (a[2..] + t);
      assert ("**" + (a[2..] + t))[2..] == a[2..] + t;
      UnpairedAppend(a[2..], t);
    } else {
      var c, a' := a[0], a[1..];
      assert a == [c] + a';
      assert a + t == [c] + (a' + t);
      UnpairedKeep(c, a');
      UnpairedKeep(c, a' + t);
      UnpairedAppend(a', t);
    }
  }

  /** The removal works piece by piece across a boundary that does not split a run of
      asterisks: the left piece ends in another character. */
  lemma RemoveDoubleStarsAppend(a: string, t: string)
    requires a == [] || a[|a| - 1] != '*'
    ensures RemoveDoubleStars(a + t) == RemoveDoubleStars(a) + RemoveDoubleStars(t)
  {
    UnpairedAppend(a, t);
  }

  lemma UnpairedPair(t: string)
    ensures Unpaired("**" + t) == Unpaired(t)
  {
    assert ("**" + t)[2..] == t;
  }

  lemma {:induction false} UnpairedRun(k: nat, b: string)
    requires b == [] || b[0] != '*'
    ensures Unpaired(Stars(k) + b) == Stars(k % 2) + Unpaired(b)
    decreases k
  {
    if k >= 2 {
      assert Stars(k) + b == "**" + (Stars(k - 2) + b) by {
        assert Stars(k) == "*" + ("*" + Stars(k - 2));
      }
      UnpairedPair(Stars(k - 2) + b);
      UnpairedRun(k - 2, b);
      assert (k - 2) % 2 == k % 2;
    } else if k == 1 {
      assert Stars(1) == "*" by {
        assert Stars(1) == "*" + Stars(0);
      }
      assert Stars(k) + b == ['*'] + b;
      UnpairedKeep('*', b);
    } else {
      assert Stars(k) + b == b;
    }
  }

  /** A maximal run of `k` asterisks leaves `k % 2` of them. */
  lemma RemoveDoubleStarsRun(k: nat, b: string)
    requires b == [] || b[0] != '*'
    ensures RemoveDoubleStars(Stars(k) + b) == Stars(k % 2) + RemoveDoubleStars(b)
  {
    UnpairedRun(k, b);
  }

  predicate IsAsciiUpper(c: char) { 'A' <= c <= 'Z' }
  predicate IsAsciiLower(c: char) { 'a' <= c <= 'z' }
  predicate IsAsciiDigit(c: char) { '0' <= c <= '9' }

  /** Lower-case mapping of one character (ASCII letters only). */
  function LowerChar(c: char): (r: char)
    ensures IsAsciiUpper(c) ==> IsAsciiLower(r) && r as int == c as int + 32
    ensures !IsAsciiUpper(c) ==> r == c
  {
    if IsAsciiUpper(c) then (c as int + 32) as char else c
  }

  /** Upper-case mapping of one character (ASCII letters only). */
  function UpperChar(c: char): (r: char)
    ensures IsAsciiLower(c) ==> IsAsciiUpper(r) && r as int == c as int - 32
    ensures !IsAsciiLower(c) ==> r == c
  {
    if IsAsciiLower(c) then (c as int - 32) as char else c
  }

  /** `toLowerCase`, restricted to ASCII letters. */
  function ToLower(s: string): (r: string)
    ensures |r| == |s| && forall k :: 0 <= k < |s| ==> r[k] == LowerChar(s[k])
  {
    seq(|s|, k requires 0 <= k < |s| => LowerChar(s[k]))
  }

  /** `toUpperCase`, restricted to ASCII letters. */
  function ToUpper(s: string): (r: string)
    ensures |r| == |s| && forall k :: 0 <= k < |s| ==> r[k] == UpperChar(s[k])
  {
    seq(|s|, k requires 0 <= k < |s| => UpperChar(s[k]))
  }

  /** The value of a string of decimal digits. */
  function DecimalValue(s: string): nat {
    if s == [] then 0 else DecimalValue(s[..|s| - 1]) * 10 + ((s[|s| - 1] as int - '0' as int) % 10)
  }

  /** Decimal rendering of a natural number (template-literal interpolation): its digits,
      worth `n`, with no leading zero. */
  function NatToString(n: nat): (r: string)
    ensures |r| >= 1 && forall k :: 0 <= k < |r| ==> IsAsciiDigit(r[k])
    ensures DecimalValue(r) == n
    ensures r[0] == '0' <==> n == 0
    ensures n < 10 <==> |r| == 1
  {
    var d := ((n % 10) + '0' as int) as char;
    if n < 10 then
      assert [d][..0] == [];
      [d]
    else
      var p := NatToString(n / 10);
      var r := p + [d];
      assert r[..|r| - 1] == p;
      r
  }

  /** Number of occurrences of `c` in `s`. */
  function Count(s: string, c: char): (r: nat)
    ensures r == multiset(s)[c]
  {
    if s == [] then 0
    else
      assert s == [s[0]] + s[1..];
      (if s[0] == c then 1 else 0) + Count(s[1..], c)
  }

  /** No line terminator in `s`: what `.*` may span. */
  predicate NoTerminator(s: string) {
    forall k :: 0 <= k < |s| ==> !IsLineTerminator(s[k])
  }

  /** Lazy `.*?c`: the first `k >= i` with `s[k] == c`, if no line terminator comes first. */
  function CloseSingle(s: string, i: nat, c: char): (r: Option<nat>)
    requires !IsLineTerminator(c)
    ensures r.Some? ==> i <= r.value < |s| && s[r.value] == c
                        && NoTerminator(s[i..r.value]) && c !in s[i..r.value]
    ensures r.None? ==> forall k :: i <= k < |s| && s[k] == c ==> !NoTerminator(s[i..k])
    decreases |s| - i
  {
    if i >= |s| then None
    else if s[i] == c then Some(i)
    else if IsLineTerminator(s[i]) then
      assert forall k :: i < k < |s| ==> s[i..k][0] == s[i];
      None
    else
      var r := CloseSingle(s, i + 1, c);
      assert forall k :: i < k <= |s| ==> s[i..k] == [s[i]] + s[i + 1..k];
      r
  }

  /** Lazy `.*?\*\*`: the first `k >= i` starting a pair of asterisks, if no line terminator
      comes first. */
  function CloseDouble(s: string, i: nat): (r: Option<nat>)
    ensures r.Some? ==> i <= r.value && r.value + 1 < |s| && s[r.value] == '*' && s[r.value + 1] == '*'
                        && NoTerminator(s[i..r.value])
                        && forall k :: i <= k < r.value ==> !(s[k] == '*' && s[k + 1] == '*')
    ensures r.None? ==> forall k :: i <= k && k + 1 < |s| && s[k] == '*' && s[k + 1] == '*' ==> !NoTerminator(s[i..k])
    decreases |s| - i
  {
    if i + 1 >= |s| then None
    else if s[i] == '*' && s[i + 1] == '*' then Some(i)
    else if IsLineTerminator(s[i]) then
      assert forall k :: i < k < |s| ==> s[i..k][0] == s[i];
      None
    else
      var r := CloseDouble(s, i + 1);
      assert r.Some? ==> s[i..r.value] == [s[i]] + s[i + 1..r.value];
      assert forall k :: i < k <= |s| ==> s[i..k] == [s[i]] + s[i + 1..k];
      r
  }

  /** `lines.join('\n')`, the lines with a newline between each two. */
  function JoinLines(ls: seq<string>): string
    requires |ls| >= 1
  {
    if |ls| == 1 then ls[0] else ls[0] + "\n" + JoinLines(ls[1..])
  }

}
