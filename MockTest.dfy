/** The AIBE mock test (components/MockTestModal.tsx): a state machine over the test's
    status, its questions, the question on screen, the recorded answers, and the score and
    per-subject analysis computed on submission. */
module MockTest {
  import opened Wrappers
  import opened Strings
  import M = InsertionMap

  /** A generated multiple-choice question, with the fields the component reads. */
  datatype Question = Question(question: string, options: seq<string>, correctAnswerIndex: int,
                               subject: string, rationale: string)

  datatype Status = Intro | Loading | Active | Result

  /** Questions and correct answers of one subject. */
  datatype Stat = Stat(total: nat, correct: nat)

  datatype SubjectPerformance = SubjectPerformance(subject: string, total: nat, correct: nat)

  /** `subjectStats`: a plain object keyed by subject name. */
  type Stats = M.Entries<string, Stat>

  /** Question `idx` was answered with the correct option; an unanswered question is wrong. */
  predicate Answered(answers: map<int, int>, idx: int, q: Question) {
    idx in answers && answers[idx] == q.correctAnswerIndex
  }

  // ---------------------------------------------------------------------------
  // Scoring
  // ---------------------------------------------------------------------------

  /** The number of questions answered correctly, counted in order. */
  function Score(qs: seq<Question>, answers: map<int, int>): nat {
    if qs == [] then 0
    else Score(qs[..|qs| - 1], answers) + (if Answered(answers, |qs| - 1, qs[|qs| - 1]) then 1 else 0)
  }

  /** The indices answered correctly. */
  function CorrectIndices(qs: seq<Question>, answers: map<int, int>): set<int> {
    set i | 0 <= i < |qs| && Answered(answers, i, qs[i])
  }

  /** The score is the number of correctly answered indices, so it is at most the number
      of questions. */
  lemma {:induction false} ScoreCountsCorrect(qs: seq<Question>, answers: map<int, int>)
    ensures Score(qs, answers) == |CorrectIndices(qs, answers)|
    ensures Score(qs, answers) <= |qs|
  {
    if qs != [] {
      var init := qs[..|qs| - 1];
      ScoreCountsCorrect(init, answers);
      var n := |qs| - 1;
      if Answered(answers, n, qs[n]) {
        assert CorrectIndices(qs, answers) == CorrectIndices(init, answers) + {n};
      } else {
        assert CorrectIndices(qs, answers) == CorrectIndices(init, answers);
      }
    }
  }

  /** The questions of one subject, and those of them answered correctly. */
  function CountSubject(qs: seq<Question>, s: string): nat {
    if qs == [] then 0 else CountSubject(qs[..|qs| - 1], s) + (if qs[|qs| - 1].subject == s then 1 else 0)
  }

  function CountCorrect(qs: seq<Question>, answers: map<int, int>, s: string): nat {
    if qs == [] then 0
    else
      CountCorrect(qs[..|qs| - 1], answers, s)
        + (if qs[|qs| - 1].subject == s && Answered(answers, |qs| - 1, qs[|qs| - 1]) then 1 else 0)
  }

  /** One question of the tally loop: its subject's entry is created if missing, its
      total goes up by one, and its correct count goes up by one if it was answered
      correctly. */
  function Bump(st: Stats, subject: string, correct: bool): Stats {
    M.Put(st, subject, Bumped(StatOf(st, subject), correct))
  }

  /** The statistics held for a subject, zeros when there are none yet. */
  function StatOf(st: Stats, subject: string): Stat {
    match M.Get(st, subject) case Some(v) => v case None => Stat(0, 0)
  }

  function Bumped(prev: Stat, correct: bool): Stat {
    Stat(prev.total + 1, prev.correct + if correct then 1 else 0)
  }

  /** `subjectStats` after the loop over `qs`. */
  function Tally(qs: seq<Question>, answers: map<int, int>): Stats {
    if qs == [] then []
    else
      var n := |qs| - 1;
      Bump(Tally(qs[..n], answers), qs[n].subject, Answered(answers, n, qs[n]))
  }

  /** The subjects in order of first appearance. */
  function FirstSubjects(qs: seq<Question>): seq<string> {
    if qs == [] then []
    else
      var ss := FirstSubjects(qs[..|qs| - 1]);
      if qs[|qs| - 1].subject in ss then ss else ss + [qs[|qs| - 1].subject]
  }

  lemma {:induction false} CountsOfAbsentSubject(qs: seq<Question>, answers: map<int, int>, s: string)
    requires forall i :: 0 <= i < |qs| ==> qs[i].subject != s
    ensures CountSubject(qs, s) == 0 && CountCorrect(qs, answers, s) == 0
  {
    if qs != [] {
      CountsOfAbsentSubject(qs[..|qs| - 1], answers, s);
    }
  }

  lemma {:induction false} FirstSubjectsOccur(qs: seq<Question>)
    ensures forall s :: s in FirstSubjects(qs) <==> exists i :: 0 <= i < |qs| && qs[i].subject == s
  {
    if qs != [] {
      var init := qs[..|qs| - 1];
      FirstSubjectsOccur(init);
      assert forall i :: 0 <= i < |init| ==> init[i] == qs[i];
    }
  }

  /** The tally has one entry per distinct subject, in order of first appearance; each
      entry counts exactly the questions of its subject and those answered correctly. */
  lemma {:induction false} TallyCounts(qs: seq<Question>, answers: map<int, int>)
    ensures M.DistinctKeys(Tally(qs, answers))
    ensures M.KeysOf(Tally(qs, answers)) == FirstSubjects(qs)
    ensures forall i :: 0 <= i < |Tally(qs, answers)| ==>
              Tally(qs, answers)[i].1
                == Stat(CountSubject(qs, Tally(qs, answers)[i].0), CountCorrect(qs, answers, Tally(qs, answers)[i].0))
  {
    if qs != [] {
      var n := |qs| - 1;
      var init, q := qs[..n], qs[n];
      TallyCounts(init, answers);
      FirstSubjectsOccur(init);
      var st := Tally(init, answers);
      var nv := Bumped(StatOf(st, q.subject), Answered(answers, n, q));
      var r := M.Put(st, q.subject, nv);
      assert Tally(qs, answers) == r;
      M.PutEntries(st, q.subject, nv);
      PrevStat(init, answers, q.subject);
      forall i | 0 <= i < |r|
        ensures r[i].1 == Stat(CountSubject(qs, r[i].0), CountCorrect(qs, answers, r[i].0))
      {
        var k := r[i].0;
        assert CountSubject(qs, k) == CountSubject(init, k) + (if q.subject == k then 1 else 0);
        assert CountCorrect(qs, answers, k)
                 == CountCorrect(init, answers, k) + (if q.subject == k && Answered(answers, n, q) then 1 else 0);
        if k != q.subject {
          assert i < |st| by {
            assert M.KeysOf(r)[i] == k;
          }
          assert r[i] == st[i];
        }
      }
    }
  }

  /** The entry the tally so far holds for a subject, or zeros when it has none, counts
      that subject's questions and correct answers. */
  lemma PrevStat(qs: seq<Question>, answers: map<int, int>, subject: string)
    requires M.KeysOf(Tally(qs, answers)) == FirstSubjects(qs)
    requires forall i :: 0 <= i < |Tally(qs, answers)| ==>
               Tally(qs, answers)[i].1
                 == Stat(CountSubject(qs, Tally(qs, answers)[i].0), CountCorrect(qs, answers, Tally(qs, answers)[i].0))
    ensures StatOf(Tally(qs, answers), subject) == Stat(CountSubject(qs, subject), CountCorrect(qs, answers, subject))
  {
    var st := Tally(qs, answers);
    match M.Get(st, subject)
    case Some(v) =>
      var j :| 0 <= j < |st| && st[j] == (subject, v);
    case None =>
      FirstSubjectsOccur(qs);
      assert subject !in M.KeysOf(st);
      CountsOfAbsentSubject(qs, answers, subject);
  }

  /** Subject statistics added up. */
  function SumStats(st: Stats): Stat {
    if st == [] then Stat(0, 0)
    else
      var rest := SumStats(st[1..]);
      Stat(st[0].1.total + rest.total, st[0].1.correct + rest.correct)
  }

  lemma {:induction false} SumStatsUpdate(st: Stats, i: nat, e: (string, Stat))
    requires i < |st|
    ensures SumStats(st[i := e]).total + st[i].1.total == SumStats(st).total + e.1.total
    ensures SumStats(st[i := e]).correct + st[i].1.correct == SumStats(st).correct + e.1.correct
  {
    if i > 0 {
      assert st[i := e][1..] == st[1..][i - 1 := e];
      SumStatsUpdate(st[1..], i - 1, e);
    }
  }

  lemma {:induction false} SumStatsAppend(st: Stats, e: (string, Stat))
    ensures SumStats(st + [e]) == Stat(SumStats(st).total + e.1.total, SumStats(st).correct + e.1.correct)
  {
    if st != [] {
      assert (st + [e])[1..] == st[1..] + [e];
      SumStatsAppend(st[1..], e);
    }
  }

  /** The subject totals add up to the number of questions and the correct counts to the
      score; no subject has more correct answers than questions. */
  lemma {:induction false} TallySums(qs: seq<Question>, answers: map<int, int>)
    ensures SumStats(Tally(qs, answers)) == Stat(|qs|, Score(qs, answers))
  {
    if qs != [] {
      var n := |qs| - 1;
      var init, q := qs[..n], qs[n];
      TallySums(init, answers);
      var st := Tally(init, answers);
      var c := Answered(answers, n, q);
      var prev := StatOf(st, q.subject);
      var nv := Bumped(prev, c);
      assert Tally(qs, answers) == M.Put(st, q.subject, nv);
      match M.FindKey(st, q.subject, 0)
      case Some(i) =>
        assert prev == st[i].1;
        SumStatsUpdate(st, i, (q.subject, nv));
      case None =>
        SumStatsAppend(st, (q.subject, nv));
    }
  }

  /** No subject has more correct answers than questions. */
  lemma {:induction false} TallyBounded(qs: seq<Question>, answers: map<int, int>)
    ensures forall i :: 0 <= i < |Tally(qs, answers)| ==> Tally(qs, answers)[i].1.correct <= Tally(qs, answers)[i].1.total
  {
    if qs != [] {
      var n := |qs| - 1;
      var init, q := qs[..n], qs[n];
      TallyBounded(init, answers);
      var st := Tally(init, answers);
      var prev := StatOf(st, q.subject);
      assert prev.correct <= prev.total;
      var nv := Bumped(prev, Answered(answers, n, q));
      assert Tally(qs, answers) == M.Put(st, q.subject, nv);
    }
  }

  // ---------------------------------------------------------------------------
  // Object.entries
  // ---------------------------------------------------------------------------

  /** An array index: the canonical decimal form of an integer below 2^32 - 1. Object
      keys of this form are listed first, in ascending numeric order. */
  predicate IsArrayIndex(k: string) {
    && |k| >= 1
    && (forall i :: 0 <= i < |k| ==> IsAsciiDigit(k[i]))
    && (k[0] != '0' || |k| == 1)
    && DecimalValue(k) < 0xFFFF_FFFF
  }

  predicate AllIndexKeys<V>(es: M.Entries<string, V>) {
    forall i :: 0 <= i < |es| ==> IsArrayIndex(es[i].0)
  }

  predicate AscendingIndexKeys<V>(es: M.Entries<string, V>) {
    forall i, j :: 0 <= i < j < |es| ==> DecimalValue(es[i].0) <= DecimalValue(es[j].0)
  }

  /** The entries whose keys are array indices, and the others, each in insertion order. */
  function IndexEntries<V>(es: M.Entries<string, V>): (r: M.Entries<string, V>)
    ensures AllIndexKeys(r)
  {
    if es == [] then [] else (if IsArrayIndex(es[0].0) then [es[0]] else []) + IndexEntries(es[1..])
  }

  function OtherEntries<V>(es: M.Entries<string, V>): (r: M.Entries<string, V>)
    ensures forall i :: 0 <= i < |r| ==> !IsArrayIndex(r[i].0)
  {
    if es == [] then [] else (if IsArrayIndex(es[0].0) then [] else [es[0]]) + OtherEntries(es[1..])
  }

  function Insert<V>(e: (string, V), sorted: M.Entries<string, V>): M.Entries<string, V> {
    if sorted == [] || DecimalValue(e.0) <= DecimalValue(sorted[0].0) then [e] + sorted
    else [sorted[0]] + Insert(e, sorted[1..])
  }

  function SortByIndex<V>(es: M.Entries<string, V>): M.Entries<string, V> {
    if es == [] then [] else Insert(es[0], SortByIndex(es[1..]))
  }

  /** `Object.entries(subjectStats)`. */
  function ObjectEntries<V>(es: M.Entries<string, V>): M.Entries<string, V> {
    SortByIndex(IndexEntries(es)) + OtherEntries(es)
  }

  lemma {:induction false} InsertPerm<V>(e: (string, V), sorted: M.Entries<string, V>)
    ensures multiset(Insert(e, sorted)) == multiset(sorted) + multiset{e}
  {
    if !(sorted == [] || DecimalValue(e.0) <= DecimalValue(sorted[0].0)) {
      InsertPerm(e, sorted[1..]);
      assert sorted == [sorted[0]] + sorted[1..];
    }
  }

  lemma ConsAscending<V>(x: (string, V), ys: M.Entries<string, V>)
    requires AscendingIndexKeys(ys)
    requires forall y | y in ys :: DecimalValue(x.0) <= DecimalValue(y.0)
    ensures AscendingIndexKeys([x] + ys)
  {
    var r := [x] + ys;
    forall i, j | 0 <= i < j < |r| ensures DecimalValue(r[i].0) <= DecimalValue(r[j].0) {
      assert r[j] == ys[j - 1];
      if i > 0 {
        assert r[i] == ys[i - 1];
      }
    }
  }

  lemma {:induction false} InsertSorted<V>(e: (string, V), sorted: M.Entries<string, V>)
    requires AscendingIndexKeys(sorted)
    ensures AscendingIndexKeys(Insert(e, sorted))
  {
    if sorted == [] || DecimalValue(e.0) <= DecimalValue(sorted[0].0) {
      forall y | y in sorted ensures DecimalValue(e.0) <= DecimalValue(y.0) {
        var k :| 0 <= k < |sorted| && sorted[k] == y;
        assert DecimalValue(sorted[0].0) <= DecimalValue(sorted[k].0);
      }
      ConsAscending(e, sorted);
    } else {
      var tail := sorted[1..];
      assert AscendingIndexKeys(tail) by {
        forall i, j | 0 <= i < j < |tail| ensures DecimalValue(tail[i].0) <= DecimalValue(tail[j].0) {
          assert tail[i] == sorted[i + 1] && tail[j] == sorted[j + 1];
        }
      }
      InsertSorted(e, tail);
      InsertPerm(e, tail);
      var ins := Insert(e, tail);
      forall y | y in ins ensures DecimalValue(sorted[0].0) <= DecimalValue(y.0) {
        assert y in multiset(ins);
        if y != e {
          assert y in multiset(tail);
          var k :| 0 <= k < |tail| && tail[k] == y;
          assert sorted[k + 1] == y;
        }
      }
      ConsAscending(sorted[0], ins);
    }
  }

  lemma {:induction false} SortByIndexSorts<V>(es: M.Entries<string, V>)
    ensures AscendingIndexKeys(SortByIndex(es))
    ensures multiset(SortByIndex(es)) == multiset(es)
  {
    if es != [] {
      SortByIndexSorts(es[1..]);
      InsertSorted(es[0], SortByIndex(es[1..]));
      InsertPerm(es[0], SortByIndex(es[1..]));
      assert es == [es[0]] + es[1..];
    }
  }

  lemma {:induction false} PartitionEntries<V>(es: M.Entries<string, V>)
    ensures multiset(IndexEntries(es)) + multiset(OtherEntries(es)) == multiset(es)
  {
    if es != [] {
      PartitionEntries(es[1..]);
      assert es == [es[0]] + es[1..];
    }
  }

  lemma {:induction false} NoIndexEntries<V>(es: M.Entries<string, V>)
    requires forall i :: 0 <= i < |es| ==> !IsArrayIndex(es[i].0)
    ensures IndexEntries(es) == [] && OtherEntries(es) == es
  {
    if es != [] {
      var tail := es[1..];
      assert forall i :: 0 <= i < |tail| ==> tail[i] == es[i + 1];
      NoIndexEntries(tail);
      assert es == [es[0]] + tail;
    }
  }

  lemma ObjectEntriesPerm<V>(es: M.Entries<string, V>)
    ensures multiset(ObjectEntries(es)) == multiset(es)
  {
    SortByIndexSorts(IndexEntries(es));
    PartitionEntries(es);
  }

  /** `Object.entries` lists the same entries: first those whose keys are array indices,
      in ascending numeric order, then the others in insertion order; with no array-index
      keys it is the insertion order. */
  lemma ObjectEntriesOrder<V>(es: M.Entries<string, V>)
    ensures multiset(ObjectEntries(es)) == multiset(es)
    ensures var m := |IndexEntries(es)|;
      && m <= |ObjectEntries(es)|
      && AllIndexKeys(ObjectEntries(es)[..m])
      && AscendingIndexKeys(ObjectEntries(es)[..m])
      && ObjectEntries(es)[m..] == OtherEntries(es)
    ensures (forall i :: 0 <= i < |es| ==> !IsArrayIndex(es[i].0)) ==> ObjectEntries(es) == es
  {
    var ix := IndexEntries(es);
    var sorted := SortByIndex(ix);
    SortByIndexSorts(ix);
    PartitionEntries(es);
    var o := ObjectEntries(es);
    assert |sorted| == |ix| by {
      assert |multiset(sorted)| == |multiset(ix)|;
    }
    assert o[..|ix|] == sorted;
    assert forall i :: 0 <= i < |sorted| ==> sorted[i] in multiset(ix);
    if forall i :: 0 <= i < |es| ==> !IsArrayIndex(es[i].0) {
      NoIndexEntries(es);
    }
  }

  lemma {:induction false} SumStatsPermutation(a: Stats, b: Stats)
    requires multiset(a) == multiset(b)
    ensures SumStats(a) == SumStats(b)
    decreases |a|
  {
    if a != [] {
      var e := a[0];
      assert e in multiset(b);
      var i :| 0 <= i < |b| && b[i] == e;
      var b' := b[..i] + b[i + 1..];
      RemovePerm(a, b, i);
      SumStatsPermutation(a[1..], b');
      SumStatsRemove(b, i);
    }
  }

  /** Taking the first entry of `a` out of `b`, where it sits at `i`. */
  lemma RemovePerm<V>(a: M.Entries<string, V>, b: M.Entries<string, V>, i: nat)
    requires a != [] && multiset(a) == multiset(b) && i < |b| && b[i] == a[0]
    ensures multiset(a[1..]) == multiset(b[..i] + b[i + 1..])
  {
    assert b == b[..i] + [a[0]] + b[i + 1..];
    assert multiset(b) == multiset(b[..i]) + multiset{a[0]} + multiset(b[i + 1..]);
    assert a == [a[0]] + a[1..];
    assert multiset(a) == multiset{a[0]} + multiset(a[1..]);
    assert multiset(b[..i] + b[i + 1..]) == multiset(b[..i]) + multiset(b[i + 1..]);
    assert multiset(a[1..]) == multiset(a) - multiset{a[0]};
    assert multiset(b) - multiset{a[0]} == multiset(b[..i]) + multiset(b[i + 1..]);
  }

  lemma {:induction false} KeysPermutation<V>(a: M.Entries<string, V>, b: M.Entries<string, V>)
    requires multiset(a) == multiset(b)
    ensures multiset(M.KeysOf(a)) == multiset(M.KeysOf(b))
    decreases |a|
  {
    if a == [] {
      assert |multiset(b)| == 0;
    } else {
      var e := a[0];
      assert e in multiset(b);
      var i :| 0 <= i < |b| && b[i] == e;
      var b' := b[..i] + b[i + 1..];
      RemovePerm(a, b, i);
      KeysPermutation(a[1..], b');
      assert M.KeysOf(a) == [e.0] + M.KeysOf(a[1..]);
      assert M.KeysOf(b) == M.KeysOf(b[..i]) + [e.0] + M.KeysOf(b[i + 1..]);
      assert M.KeysOf(b') == M.KeysOf(b[..i]) + M.KeysOf(b[i + 1..]);
    }
  }

  lemma {:induction false} SumStatsRemove(b: Stats, i: nat)
    requires i < |b|
    ensures SumStats(b).total == b[i].1.total + SumStats(b[..i] + b[i + 1..]).total
    ensures SumStats(b).correct == b[i].1.correct + SumStats(b[..i] + b[i + 1..]).correct
  {
    if i > 0 {
      SumStatsRemove(b[1..], i - 1);
      assert (b[..i] + b[i + 1..])[1..] == b[1..][..i - 1] + b[1..][i..];
    } else {
      assert b[..i] + b[i + 1..] == b[1..];
    }
  }

  // ---------------------------------------------------------------------------
  // The analysis
  // ---------------------------------------------------------------------------

  /** The per-subject performance rows, in the order `Object.entries` lists the subjects. */
  function Analysis(st: Stats): (r: seq<SubjectPerformance>)
    ensures |r| == |ObjectEntries(st)|
    ensures forall k :: 0 <= k < |r| ==>
              r[k] == SubjectPerformance(ObjectEntries(st)[k].0, ObjectEntries(st)[k].1.total, ObjectEntries(st)[k].1.correct)
  {
    var o := ObjectEntries(st);
    seq(|o|, k requires 0 <= k < |o| => SubjectPerformance(o[k].0, o[k].1.total, o[k].1.correct))
  }

  function TotalOf(a: seq<SubjectPerformance>): nat {
    if a == [] then 0 else a[0].total + TotalOf(a[1..])
  }

  function CorrectOf(a: seq<SubjectPerformance>): nat {
    if a == [] then 0 else a[0].correct + CorrectOf(a[1..])
  }

  lemma {:induction false} AnalysisSums(o: Stats, a: seq<SubjectPerformance>)
    requires |a| == |o| && forall k :: 0 <= k < |a| ==> a[k] == SubjectPerformance(o[k].0, o[k].1.total, o[k].1.correct)
    ensures TotalOf(a) == SumStats(o).total && CorrectOf(a) == SumStats(o).correct
  {
    if a != [] {
      AnalysisSums(o[1..], a[1..]);
    }
  }

  function SubjectsOf(a: seq<SubjectPerformance>): (r: seq<string>)
    ensures |r| == |a| && forall k :: 0 <= k < |a| ==> r[k] == a[k].subject
  {
    seq(|a|, k requires 0 <= k < |a| => a[k].subject)
  }

  /** Every entry of the analysis counts the questions of its subject and the correct
      answers among them, and so has no more correct answers than questions. */
  lemma AnalysisCounts(qs: seq<Question>, answers: map<int, int>)
    ensures var a := Analysis(Tally(qs, answers));
      forall k :: 0 <= k < |a| ==>
        && a[k].total == CountSubject(qs, a[k].subject)
        && a[k].correct == CountCorrect(qs, answers, a[k].subject)
        && a[k].correct <= a[k].total
  {
    var st := Tally(qs, answers);
    var o := ObjectEntries(st);
    var a := Analysis(st);
    ObjectEntriesPerm(st);
    forall k | 0 <= k < |a|
      ensures && a[k].total == CountSubject(qs, a[k].subject)
              && a[k].correct == CountCorrect(qs, answers, a[k].subject)
              && a[k].correct <= a[k].total
    {
      assert o[k] in multiset(st);
      TallyEntry(qs, answers, o[k]);
    }
  }

  lemma TallyEntry(qs: seq<Question>, answers: map<int, int>, e: (string, Stat))
    requires e in Tally(qs, answers)
    ensures e.1 == Stat(CountSubject(qs, e.0), CountCorrect(qs, answers, e.0)) && e.1.correct <= e.1.total
  {
    TallyCounts(qs, answers);
    TallyBounded(qs, answers);
  }

  /** The totals of the analysis add up to the number of questions and its correct counts
      to the score. */
  lemma AnalysisAddsUp(qs: seq<Question>, answers: map<int, int>)
    ensures TotalOf(Analysis(Tally(qs, answers))) == |qs|
    ensures CorrectOf(Analysis(Tally(qs, answers))) == Score(qs, answers)
  {
    var st := Tally(qs, answers);
    TallySums(qs, answers);
    ObjectEntriesPerm(st);
    SumStatsPermutation(ObjectEntries(st), st);
    AnalysisSums(ObjectEntries(st), Analysis(st));
  }

  /** The analysis has one entry per distinct subject, and unless some subject is written
      as an array index the entries come in order of first appearance. */
  lemma AnalysisSubjects(qs: seq<Question>, answers: map<int, int>)
    ensures multiset(SubjectsOf(Analysis(Tally(qs, answers)))) == multiset(FirstSubjects(qs))
    ensures (forall i :: 0 <= i < |qs| ==> !IsArrayIndex(qs[i].subject)) ==>
              SubjectsOf(Analysis(Tally(qs, answers))) == FirstSubjects(qs)
  {
    var st := Tally(qs, answers);
    var o := ObjectEntries(st);
    TallyCounts(qs, answers);
    ObjectEntriesOrder(st);
    assert SubjectsOf(Analysis(st)) == M.KeysOf(o);
    KeysPermutation(o, st);
    if forall i :: 0 <= i < |qs| ==> !IsArrayIndex(qs[i].subject) {
      FirstSubjectsOccur(qs);
      forall j | 0 <= j < |st| ensures !IsArrayIndex(st[j].0) {
        assert M.KeysOf(st)[j] in FirstSubjects(qs);
      }
    }
  }

  /** The subjects in order of first appearance are distinct. */
  lemma {:induction false} FirstSubjectsDistinct(qs: seq<Question>)
    ensures forall i, j :: 0 <= i < j < |FirstSubjects(qs)| ==> FirstSubjects(qs)[i] != FirstSubjects(qs)[j]
  {
    if qs != [] {
      FirstSubjectsDistinct(qs[..|qs| - 1]);
    }
  }

  // ---------------------------------------------------------------------------
  // The component state
  // ---------------------------------------------------------------------------

  const FAILED_QUESTIONS: string := "Failed to generate test questions. Please check your internet connection."

  class MockTestModal {
    var status: Status
    var questions: seq<Question>
    var currentQuestionIndex: nat
    var userAnswers: map<int, int>
    var score: nat
    var analysis: seq<SubjectPerformance>

    /** The question on screen exists whenever there are questions, and a test in
        progress has questions. */
    predicate Valid()
      reads this
    {
      && (questions != [] ==> currentQuestionIndex < |questions|)
      && (status == Active ==> questions != [])
    }

    constructor ()
      ensures Valid()
      ensures status == Intro && questions == [] && currentQuestionIndex == 0
      ensures userAnswers == map[] && score == 0 && analysis == []
    {
      status := Intro;
      questions := [];
      currentQuestionIndex := 0;
      userAnswers := map[];
      score := 0;
      analysis := [];
    }

    /** `startTest`, up to the request for questions. */
    method StartTest()
      requires Valid()
      modifies this
      ensures Valid() && status == Loading
      ensures questions == old(questions) && currentQuestionIndex == old(currentQuestionIndex)
      ensures userAnswers == old(userAnswers) && score == old(score) && analysis == old(analysis)
    {
      status := Loading;
    }

    /** `startTest`, once the generator has answered with `q` (`None` for no list): a
        non-empty list starts the test at its first question with no answers; anything
        else alerts and goes back to the introduction, keeping the old questions. */
    method QuestionsArrived(q: Option<seq<Question>>) returns (alert: Option<string>)
      requires Valid()
      modifies this
      ensures Valid()
      ensures q.Some? && q.value != [] ==>
                && alert.None? && status == Active && questions == q.value
                && currentQuestionIndex == 0 && userAnswers == map[]
      ensures !(q.Some? && q.value != []) ==>
                && alert == Some(FAILED_QUESTIONS) && status == Intro && questions == old(questions)
                && currentQuestionIndex == old(currentQuestionIndex) && userAnswers == old(userAnswers)
      ensures score == old(score) && analysis == old(analysis)
    {
      alert := None;
      if q.Some? && |q.value| > 0 {
        questions := q.value;
        status := Active;
        currentQuestionIndex := 0;
        userAnswers := map[];
      } else {
        alert := Some(FAILED_QUESTIONS);
        status := Intro;
      }
    }

    /** `handleOptionSelect`: records the answer to the question on screen only. */
    method OptionSelect(optionIndex: int)
      requires Valid()
      modifies this
      ensures Valid()
      ensures userAnswers == old(userAnswers)[currentQuestionIndex as int := optionIndex]
      ensures status == old(status) && questions == old(questions) && currentQuestionIndex == old(currentQuestionIndex)
      ensures score == old(score) && analysis == old(analysis)
    {
      userAnswers := userAnswers[currentQuestionIndex as int := optionIndex];
    }

    /** `handlePrev`: back one question unless on the first. */
    method Prev()
      requires Valid()
      modifies this
      ensures Valid()
      ensures currentQuestionIndex == if old(currentQuestionIndex) > 0 then old(currentQuestionIndex) - 1 else 0
      ensures status == old(status) && questions == old(questions) && userAnswers == old(userAnswers)
      ensures score == old(score) && analysis == old(analysis)
    {
      if currentQuestionIndex > 0 {
        currentQuestionIndex := currentQuestionIndex - 1;
      }
    }

    /** `handleNext`: on to the next question, or submit on the last one. */
    method Next()
      requires Valid()
      modifies this
      ensures Valid()
      ensures old(currentQuestionIndex) < |old(questions)| - 1 ==>
                && currentQuestionIndex == old(currentQuestionIndex) + 1
                && status == old(status) && score == old(score) && analysis == old(analysis)
      ensures !(old(currentQuestionIndex) < |old(questions)| - 1) ==>
                && currentQuestionIndex == old(currentQuestionIndex)
                && status == Result && score == Score(questions, userAnswers)
                && analysis == Analysis(Tally(questions, userAnswers))
      ensures questions == old(questions) && userAnswers == old(userAnswers)
    {
      if currentQuestionIndex < |questions| - 1 {
        currentQuestionIndex := currentQuestionIndex + 1;
      } else {
        Submit();
      }
    }

    /** `submitTest`: the score, and the per-subject analysis of the answers. */
    method Submit()
      requires Valid()
      modifies this
      ensures Valid()
      ensures status == Result && score == Score(questions, userAnswers)
      ensures analysis == Analysis(Tally(questions, userAnswers))
      ensures questions == old(questions) && currentQuestionIndex == old(currentQuestionIndex)
      ensures userAnswers == old(userAnswers)
    {
      var qs, answers := questions, userAnswers;
      var correctCount := 0;
      var subjectStats: Stats := [];
      for idx := 0 to |qs|
        invariant correctCount == Score(qs[..idx], answers)
        invariant subjectStats == Tally(qs[..idx], answers)
        invariant unchanged(this)
      {
        assert qs[..idx + 1][..idx] == qs[..idx];
        var q := qs[idx];
        subjectStats := CountQuestion(subjectStats, q.subject, Answered(answers, idx, q));
        if idx in answers && answers[idx] == q.correctAnswerIndex {
          correctCount := correctCount + 1;
        }
      }
      assert qs[..|qs|] == qs;
      score := correctCount;
      analysis := ToAnalysis(subjectStats);
      status := Result;
    }

    /** `resetTest`: back to the introduction with no questions, answers or score; the
        question index and the last analysis are kept. */
    method Reset()
      requires Valid()
      modifies this
      ensures Valid()
      ensures status == Intro && questions == [] && userAnswers == map[] && score == 0
      ensures currentQuestionIndex == old(currentQuestionIndex) && analysis == old(analysis)
    {
      status := Intro;
      questions := [];
      userAnswers := map[];
      score := 0;
    }
  }

  /** The body of the tally loop, step by step as the component writes it. */
  method CountQuestion(subjectStats: Stats, subject: string, correct: bool) returns (r: Stats)
    ensures r == Bump(subjectStats, subject, correct)
  {
    r := subjectStats;
    if M.Get(r, subject).None? {
      M.PutGet(r, subject, Stat(0, 0));
      M.PutPut(r, subject, Stat(0, 0), Stat(1, if correct then 1 else 0));
      r := M.Put(r, subject, Stat(0, 0));
    }
    var st := M.Get(r, subject).value;
    ghost var r0 := r;
    r := M.Put(r, subject, Stat(st.total + 1, st.correct));
    if correct {
      M.PutGet(r0, subject, Stat(st.total + 1, st.correct));
      var st' := M.Get(r, subject).value;
      r := M.Put(r, subject, Stat(st'.total, st'.correct + 1));
      M.PutPut(r0, subject, Stat(st.total + 1, st.correct), Stat(st.total + 1, st.correct + 1));
    }
  }

  /** The conversion of the statistics into the analysis array. */
  method ToAnalysis(subjectStats: Stats) returns (a: seq<SubjectPerformance>)
    ensures a == Analysis(subjectStats)
  {
    var entries := ObjectEntries(subjectStats);
    a := [];
    for k := 0 to |entries|
      invariant |a| == k && forall j :: 0 <= j < k ==> a[j] == Analysis(subjectStats)[j]
    {
      var subject, stats := entries[k].0, entries[k].1;
      a := a + [SubjectPerformance(subject, stats.total, stats.correct)];
    }
  }
}
