/** Two global replacements (`ChatExport.ReplaceFrom`) agree when their scans take the
    same steps: the induction over the scan shared by the line-by-line lemmas. */
module ReplaceSteps {
  import opened Strings
  import opened ChatExport

  /** One step of the global replacement. */
  lemma ReplaceFromStep(p: Pattern, s: string, pos: nat)
    requires pos < |s|
    ensures ReplaceFrom(p, s, pos) == Scan(p, s, pos).0 + ReplaceFrom(p, s, Scan(p, s, pos).1)
  {
  }

  /** From `d + j` in `s` the scan takes, shifted by `d`, the steps the scan of `y` takes
      from `j`. */
  predicate ScansAlong(p: Pattern, s: string, d: nat, y: string, j: nat)
    requires d + |y| == |s|
  {
    forall k :: j <= k < |y| ==>
      Scan(p, s, d + k).0 == Scan(p, y, k).0 && Scan(p, s, d + k).1 == d + Scan(p, y, k).1
  }

  lemma AlongStep(p: Pattern, s: string, d: nat, y: string, j: nat)
    requires j < |y| && d + |y| == |s|
    requires Scan(p, s, d + j).0 == Scan(p, y, j).0 && Scan(p, s, d + j).1 == d + Scan(p, y, j).1
    requires ReplaceFrom(p, s, d + Scan(p, y, j).1) == ReplaceFrom(p, y, Scan(p, y, j).1)
    ensures ReplaceFrom(p, s, d + j) == ReplaceFrom(p, y, j)
  {
    var u := Scan(p, y, j);
    var v := Scan(p, s, d + j);
    calc {
      ReplaceFrom(p, s, d + j);
    == { ReplaceFromStep(p, s, d + j); }
      v.0 + ReplaceFrom(p, s, v.1);
    == { assert v.1 == d + u.1; }
      u.0 + ReplaceFrom(p, y, u.1);
    == { ReplaceFromStep(p, y, j); }
      ReplaceFrom(p, y, j);
    }
  }

  /** A scan of `s` that takes, from `d + j` on, the steps the scan of `y` takes from `j`,
      shifted by `d`, replaces what that scan replaces. */
  lemma {:induction false} ReplaceFromAlong(p: Pattern, s: string, d: nat, y: string, j: nat)
    requires j <= |y| && d + |y| == |s| && ScansAlong(p, s, d, y, j)
    ensures ReplaceFrom(p, s, d + j) == ReplaceFrom(p, y, j)
    decreases |y| - j
  {
    if j < |y| {
      var next := Scan(p, y, j).1;
      assert Scan(p, s, d + j).0 == Scan(p, y, j).0 && Scan(p, s, d + j).1 == d + next;
      assert ScansAlong(p, s, d, y, next);
      ReplaceFromAlong(p, s, d, y, next);
      AlongStep(p, s, d, y, j);
    }
  }

  /** Up to the end of its prefix `a` the scan of `s` takes the steps the scan of `a`
      takes from `pos`. */
  predicate ScansPrefix(p: Pattern, s: string, a: string, pos: nat) {
    forall k :: pos <= k < |a| <= |s| ==>
      Scan(p, s, k).0 == Scan(p, a, k).0 && Scan(p, s, k).1 == Scan(p, a, k).1
  }

  lemma PrefixStep(p: Pattern, s: string, a: string, pos: nat)
    requires pos < |a| <= |s|
    requires Scan(p, s, pos).0 == Scan(p, a, pos).0 && Scan(p, s, pos).1 == Scan(p, a, pos).1
    requires ReplaceFrom(p, s, Scan(p, a, pos).1) == ReplaceFrom(p, a, Scan(p, a, pos).1) + ReplaceFrom(p, s, |a|)
    ensures ReplaceFrom(p, s, pos) == ReplaceFrom(p, a, pos) + ReplaceFrom(p, s, |a|)
  {
    var r := Scan(p, a, pos);
    ReplaceFromStep(p, s, pos);
    ReplaceFromStep(p, a, pos);
    Associative(r.0, ReplaceFrom(p, a, r.1), ReplaceFrom(p, s, |a|));
  }

  /** A scan of `s` that takes, up to the end of its prefix `a`, the steps the scan of `a`
      takes, replaces what that scan replaces and then goes on from the end of `a`. */
  lemma {:induction false} ReplaceFromPrefix(p: Pattern, s: string, a: string, pos: nat)
    requires pos <= |a| <= |s| && ScansPrefix(p, s, a, pos)
    ensures ReplaceFrom(p, s, pos) == ReplaceFrom(p, a, pos) + ReplaceFrom(p, s, |a|)
    decreases |a| - pos
  {
    if pos < |a| {
      var next := Scan(p, a, pos).1;
      assert Scan(p, s, pos).0 == Scan(p, a, pos).0 && Scan(p, s, pos).1 == next;
      assert ScansPrefix(p, s, a, next);
      ReplaceFromPrefix(p, s, a, next);
      PrefixStep(p, s, a, pos);
    }
  }
}
