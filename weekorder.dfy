/** Ordering changelog entries by week, most recent first
    (`entries.sort((a, b) => b.week.localeCompare(a.week))`, src/components/Changelog.ts).

    `localeCompare` is modelled as plain lexicographic comparison of characters; for
    the fixed-width "YYYY-MM-DD" week keys that is calendar order. The array sort of
    the JavaScript engine is stable, and so is `SortByWeek`: an insertion sort that
    puts each later entry after every entry whose week is not earlier than its own. */
module WeekOrder {
  import opened Types

  /** `a` sorts strictly before `b` character by character; a proper prefix comes first. */
  predicate Below(a: string, b: string)
    decreases |a|
  {
    if |a| == 0 then |b| > 0
    else if |b| == 0 then false
    else if a[0] == b[0] then Below(a[1..], b[1..])
    else a[0] < b[0]
  }

  /** A proper prefix sorts first. */
  lemma {:induction false} BelowProperPrefix(a: string, b: string)
    requires |a| < |b| && a == b[..|a|]
    ensures Below(a, b)
    decreases |a|
  {
    if |a| > 0 {
      assert a[0] == b[0];
      assert a[1..] == b[1..][..|a| - 1];
      BelowProperPrefix(a[1..], b[1..]);
    }
  }

  lemma {:induction false} BelowIrreflexive(a: string)
    ensures !Below(a, a)
    decreases |a|
  {
    if |a| > 0 {
      BelowIrreflexive(a[1..]);
    }
  }

  lemma {:induction false} BelowAsymmetric(a: string, b: string)
    ensures Below(a, b) ==> !Below(b, a)
    decreases |a|
  {
    if |a| > 0 && |b| > 0 && a[0] == b[0] {
      BelowAsymmetric(a[1..], b[1..]);
    }
  }

  lemma {:induction false} BelowTransitive(a: string, b: string, c: string)
    requires Below(a, b) && Below(b, c)
    ensures Below(a, c)
    decreases |a|
  {
    if |a| > 0 && a[0] == b[0] && b[0] == c[0] {
      BelowTransitive(a[1..], b[1..], c[1..]);
    }
  }

  /** Two different keys are always ordered one way or the other. */
  lemma {:induction false} BelowTotal(a: string, b: string)
    ensures a == b || Below(a, b) || Below(b, a)
    decreases |a|
  {
    if |a| > 0 && |b| > 0 && a[0] == b[0] {
      BelowTotal(a[1..], b[1..]);
      if a[1..] == b[1..] {
        assert a == [a[0]] + a[1..] && b == [b[0]] + b[1..];
      }
    }
  }

  /** The first position where two keys differ decides the order. */
  lemma {:induction false} BelowAtFirstDifference(a: string, b: string, k: nat)
    requires k < |a| && k < |b| && a[..k] == b[..k] && a[k] < b[k]
    ensures Below(a, b)
    decreases k
  {
    if k > 0 {
      assert a[0] == a[..k][0] && b[0] == b[..k][0];
      assert a[1..][..k - 1] == a[..k][1..] && b[1..][..k - 1] == b[..k][1..];
      BelowAtFirstDifference(a[1..], b[1..], k - 1);
    }
  }

  /** "not below" is transitive, and mixes with "below". */
  lemma NotBelowTransitive(a: string, b: string, c: string)
    ensures !Below(b, a) && !Below(c, b) ==> !Below(c, a)
    ensures !Below(b, a) && Below(b, c) ==> Below(a, c)
  {
    BelowTotal(a, b);
    BelowTotal(b, c);
    BelowIrreflexive(a);
    if Below(a, b) && Below(b, c) {
      BelowTransitive(a, b, c);
      BelowAsymmetric(a, c);
    }
  }

  /** Most recent week first: no entry's week is below that of a later entry. */
  ghost predicate SortedDesc(s: seq<ChangelogEntry>) {
    forall i, j :: 0 <= i < j < |s| ==> !Below(s[i].week, s[j].week)
  }

  /** Put `x`, which came after every element of `s` in the input, into `s`. */
  function Insert(x: ChangelogEntry, s: seq<ChangelogEntry>): (r: seq<ChangelogEntry>)
    ensures |r| == |s| + 1
  {
    if s == [] then [x]
    else if Below(s[0].week, x.week) then [x] + s
    else [s[0]] + Insert(x, s[1..])
  }

  function SortByWeek(s: seq<ChangelogEntry>): (r: seq<ChangelogEntry>)
    ensures |r| == |s|
  {
    if s == [] then [] else Insert(s[|s| - 1], SortByWeek(s[..|s| - 1]))
  }

  /** The entries for one week key, in order. */
  function WithWeek(s: seq<ChangelogEntry>, w: string): seq<ChangelogEntry> {
    if s == [] then []
    else (if s[0].week == w then [s[0]] else []) + WithWeek(s[1..], w)
  }

  lemma {:induction false} WithWeekAppend(s: seq<ChangelogEntry>, x: ChangelogEntry, w: string)
    ensures WithWeek(s + [x], w) == WithWeek(s, w) + (if x.week == w then [x] else [])
  {
    if s == [] {
      assert [x][1..] == [];
    } else {
      assert (s + [x])[1..] == s[1..] + [x];
      WithWeekAppend(s[1..], x, w);
    }
  }

  lemma {:induction false} InsertMultiset(x: ChangelogEntry, s: seq<ChangelogEntry>)
    ensures multiset(Insert(x, s)) == multiset(s) + multiset{x}
  {
    if s != [] && !Below(s[0].week, x.week) {
      InsertMultiset(x, s[1..]);
      assert s == [s[0]] + s[1..];
    }
  }

  /** In a sorted sequence whose head is below `w`, no entry has week `w`. */
  lemma {:induction false} NoneWithLargerWeek(s: seq<ChangelogEntry>, w: string)
    requires SortedDesc(s) && s != [] && Below(s[0].week, w)
    ensures WithWeek(s, w) == []
  {
    BelowIrreflexive(w);
    if |s| > 1 {
      assert !Below(s[0].week, s[1].week);
      NotBelowTransitive(s[1].week, s[0].week, w);
      NoneWithLargerWeek(s[1..], w);
    }
  }

  lemma {:induction false} InsertSorted(x: ChangelogEntry, s: seq<ChangelogEntry>)
    requires SortedDesc(s)
    ensures SortedDesc(Insert(x, s))
  {
    if s == [] {
    } else if Below(s[0].week, x.week) {
      forall j | 0 <= j < |s| ensures !Below(x.week, s[j].week) {
        if j > 0 {
          NotBelowTransitive(s[j].week, s[0].week, x.week);
        }
        BelowAsymmetric(s[j].week, x.week);
      }
    } else {
      var r := Insert(x, s[1..]);
      InsertSorted(x, s[1..]);
      InsertMultiset(x, s[1..]);
      forall j | 0 <= j < |r| ensures !Below(s[0].week, r[j].week) {
        assert r[j] in multiset(r);
        if r[j] != x {
          assert r[j] in s[1..];
        }
      }
    }
  }

  lemma WithWeekCons(y: ChangelogEntry, t: seq<ChangelogEntry>, w: string)
    ensures WithWeek([y] + t, w) == (if y.week == w then [y] else []) + WithWeek(t, w)
  {
    assert ([y] + t)[0] == y && ([y] + t)[1..] == t;
  }

  /** Inserting keeps every week's entries in input order, `x` last among its own. */
  lemma {:induction false} InsertWithWeek(x: ChangelogEntry, s: seq<ChangelogEntry>, w: string)
    requires SortedDesc(s)
    ensures WithWeek(Insert(x, s), w) == WithWeek(s, w) + (if x.week == w then [x] else [])
  {
    if s == [] {
      WithWeekCons(x, [], w);
      assert [x] + [] == [x];
    } else if Below(s[0].week, x.week) {
      WithWeekCons(x, s, w);
      if x.week == w {
        NoneWithLargerWeek(s, w);
      }
    } else {
      assert s == [s[0]] + s[1..];
      WithWeekCons(s[0], s[1..], w);
      WithWeekCons(s[0], Insert(x, s[1..]), w);
      InsertWithWeek(x, s[1..], w);
    }
  }

  lemma {:induction false} SortByWeekSorted(s: seq<ChangelogEntry>)
    ensures SortedDesc(SortByWeek(s))
  {
    if s != [] {
      SortByWeekSorted(s[..|s| - 1]);
      InsertSorted(s[|s| - 1], SortByWeek(s[..|s| - 1]));
    }
  }

  /** No entry is lost or duplicated. */
  lemma {:induction false} SortByWeekPermutes(s: seq<ChangelogEntry>)
    ensures multiset(SortByWeek(s)) == multiset(s)
  {
    if s != [] {
      var init, x := s[..|s| - 1], s[|s| - 1];
      assert s == init + [x];
      assert multiset(s) == multiset(init) + multiset{x};
      assert SortByWeek(s) == Insert(x, SortByWeek(init));
      SortByWeekPermutes(init);
      InsertMultiset(x, SortByWeek(init));
    }
  }

  /** The sort is stable: entries of the same week keep their input order. */
  lemma {:induction false} SortByWeekStable(s: seq<ChangelogEntry>, w: string)
    ensures WithWeek(SortByWeek(s), w) == WithWeek(s, w)
  {
    if s != [] {
      var init := s[..|s| - 1];
      SortByWeekStable(init, w);
      SortByWeekSorted(init);
      InsertWithWeek(s[|s| - 1], SortByWeek(init), w);
      WithWeekAppend(init, s[|s| - 1], w);
      assert s == init + [s[|s| - 1]];
    }
  }

  /** Where `Insert` puts `x` in a sorted sequence: after every entry not below it,
      before the run of entries below it. */
  lemma {:induction false} InsertAt(x: ChangelogEntry, s: seq<ChangelogEntry>, j: nat)
    requires SortedDesc(s) && j <= |s|
    requires forall k :: j <= k < |s| ==> Below(s[k].week, x.week)
    requires j == 0 || !Below(s[j - 1].week, x.week)
    ensures Insert(x, s) == s[..j] + [x] + s[j..]
  {
    if s == [] {
    } else if Below(s[0].week, x.week) {
      if j > 1 {
        NotBelowTransitive(s[j - 1].week, s[0].week, x.week);
        assert false;
      } else if j == 1 {
        assert false;
      }
    } else {
      assert j > 0;
      InsertAt(x, s[1..], j - 1);
      assert s[..j] == [s[0]] + s[1..][..j - 1];
      assert s[1..][j - 1..] == s[j..];
    }
  }
}
