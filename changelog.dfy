/** The changelog view (src/components/Changelog.ts): one collapsible section per week
    entry, most recent week first, with an owned set of expanded week keys that survives
    every re-render. A rendered section is the record `Section`, not markup. */
module Changelog {
  import opened Types
  import opened WeekOrder

  /** A task as shown: the category tag appears only when the category is truthy. */
  datatype TaskView = TaskView(title: string, description: string, category: Option<string>)

  /** One week's section: its key, whether it is open, the task count in its header
      and its tasks. */
  datatype Section = Section(week: string, expanded: bool, taskCount: nat, tasks: seq<TaskView>)

  function RenderTask(t: ChangelogTask): (r: TaskView)
    ensures r.title == t.title && r.description == t.description
    ensures r.category.Some? <==> Truthy(t.category)
    ensures r.category.Some? ==> r.category == t.category
  {
    TaskView(t.title, t.description, if Truthy(t.category) then t.category else None)
  }

  function RenderTasks(ts: seq<ChangelogTask>): (r: seq<TaskView>)
    ensures |r| == |ts|
    ensures forall i :: 0 <= i < |ts| ==> r[i] == RenderTask(ts[i])
  {
    if ts == [] then [] else [RenderTask(ts[0])] + RenderTasks(ts[1..])
  }

  function RenderEntry(e: ChangelogEntry, expanded: set<string>): (r: Section)
    ensures r.week == e.week
    ensures r.expanded <==> e.week in expanded
    ensures r.taskCount == |e.tasks| == |r.tasks|
  {
    Section(e.week, e.week in expanded, |e.tasks|, RenderTasks(e.tasks))
  }

  /** The whole content of the view, one section per entry in stored order. */
  function Sections(entries: seq<ChangelogEntry>, expanded: set<string>): (r: seq<Section>)
    ensures |r| == |entries|
    ensures forall i :: 0 <= i < |entries| ==> r[i] == RenderEntry(entries[i], expanded)
  {
    if entries == [] then [] else [RenderEntry(entries[0], expanded)] + Sections(entries[1..], expanded)
  }

  /** A header click on week `w`: open it if closed, close it if open. */
  function ToggleWeek(expanded: set<string>, w: string): (r: set<string>)
    ensures w in r <==> w !in expanded
    ensures forall v :: v != w ==> (v in r <==> v in expanded)
  {
    if w in expanded then expanded - {w} else expanded + {w}
  }

  /** Clicking the same header twice restores the set. */
  lemma ToggleWeekTwice(expanded: set<string>, w: string)
    ensures ToggleWeek(ToggleWeek(expanded, w), w) == expanded
  {
  }

  /** Before any click every section is collapsed. */
  lemma InitiallyCollapsed(entries: seq<ChangelogEntry>)
    ensures forall s :: s in Sections(entries, {}) ==> !s.expanded
  {
  }

  /** A click on week `w` opens or closes exactly the sections for `w`. */
  lemma ToggleAffectsOnlyItsWeek(entries: seq<ChangelogEntry>, expanded: set<string>, w: string, i: nat)
    requires i < |entries|
    ensures Sections(entries, ToggleWeek(expanded, w))[i].expanded
      == (if entries[i].week == w then !Sections(entries, expanded)[i].expanded
          else Sections(entries, expanded)[i].expanded)
  {
  }

  /** A section's header count is the task count, and its tasks are the entry's in order. */
  lemma SectionShowsTasksInOrder(e: ChangelogEntry, expanded: set<string>, k: nat)
    requires k < |e.tasks|
    ensures RenderEntry(e, expanded).taskCount == |RenderEntry(e, expanded).tasks| == |e.tasks|
    ensures RenderEntry(e, expanded).tasks[k] == RenderTask(e.tasks[k])
    ensures RenderEntry(e, expanded).tasks[k].title == e.tasks[k].title
    ensures RenderEntry(e, expanded).tasks[k].description == e.tasks[k].description
    ensures RenderEntry(e, expanded).tasks[k].category.Some? <==> Truthy(e.tasks[k].category)
    ensures RenderEntry(e, expanded).tasks[k].category.Some? ==>
      RenderEntry(e, expanded).tasks[k].category == e.tasks[k].category
  {
  }

  /** What `render` leaves in the stored entries: sorted, a permutation, stable. */
  lemma {:induction false} RenderOrder(input: seq<ChangelogEntry>)
    ensures SortedDesc(SortByWeek(input))
    ensures multiset(SortByWeek(input)) == multiset(input)
    ensures forall w :: WithWeek(SortByWeek(input), w) == WithWeek(input, w)
  {
    SortByWeekSorted(input);
    SortByWeekPermutes(input);
    forall w ensures WithWeek(SortByWeek(input), w) == WithWeek(input, w) {
      SortByWeekStable(input, w);
    }
  }

  /** The three week keys of the example below, in calendar order. */
  lemma ExampleWeekKeys()
    ensures Below("2024-02-26", "2024-03-04") && Below("2024-03-04", "2024-03-11")
    ensures !Below("2024-03-04", "2024-02-26") && !Below("2024-03-11", "2024-02-26")
  {
    assert "2024-03-04"[..8] == "2024-03-11"[..8];
    BelowAtFirstDifference("2024-03-04", "2024-03-11", 8);
    assert "2024-02-26"[..6] == "2024-03-04"[..6] && "2024-02-26"[..6] == "2024-03-11"[..6];
    BelowAtFirstDifference("2024-02-26", "2024-03-04", 6);
    BelowAtFirstDifference("2024-02-26", "2024-03-11", 6);
    BelowAsymmetric("2024-02-26", "2024-03-04");
    BelowAsymmetric("2024-02-26", "2024-03-11");
  }

  /** Sorting `[a, b, c]` when `b` is the newest week and `c` the oldest. */
  lemma SortThree(a: ChangelogEntry, b: ChangelogEntry, c: ChangelogEntry)
    requires Below(a.week, b.week) && !Below(a.week, c.week) && !Below(b.week, c.week)
    ensures SortByWeek([a, b, c]) == [b, a, c]
  {
    assert [a, b, c][..2] == [a, b] && [a, b][..1] == [a] && [a][..0] == [];
    assert SortByWeek([a]) == [a];
    assert SortByWeek([a, b]) == Insert(b, [a]) == [b, a];
    assert Insert(c, [a]) == [a, c];
    assert Insert(c, [b, a]) == [b, a, c];
  }

  /** Three weeks given out of order come out newest first, one section each. */
  lemma ExampleWeeks(t: seq<ChangelogTask>)
    ensures var sorted := SortByWeek([ChangelogEntry("2024-03-04", t), ChangelogEntry("2024-03-11", t),
                                      ChangelogEntry("2024-02-26", t)]);
      && sorted == [ChangelogEntry("2024-03-11", t), ChangelogEntry("2024-03-04", t), ChangelogEntry("2024-02-26", t)]
      && |Sections(sorted, {})| == 3
      && Sections(sorted, {})[0].week == "2024-03-11"
      && Sections(sorted, {})[1].week == "2024-03-04"
      && Sections(sorted, {})[2].week == "2024-02-26"
  {
    var a, b, c := ChangelogEntry("2024-03-04", t), ChangelogEntry("2024-03-11", t), ChangelogEntry("2024-02-26", t);
    ExampleWeekKeys();
    SortThree(a, b, c);
  }

  /** A sequence that agrees with `sorted` before `j`, holds `x` at `j` and `sorted`
      shifted by one after it, is `sorted` with `x` spliced in at `j`. */
  lemma ShiftedIsSplice(b: seq<ChangelogEntry>, sorted: seq<ChangelogEntry>, x: ChangelogEntry, j: nat)
    requires |b| == |sorted| + 1 && j <= |sorted| && b[j] == x
    requires forall k :: 0 <= k < j ==> b[k] == sorted[k]
    requires forall k :: j < k < |b| ==> b[k] == sorted[k - 1]
    ensures b == sorted[..j] + [x] + sorted[j..]
  {
    var r := sorted[..j] + [x] + sorted[j..];
    forall k | 0 <= k < |b| ensures b[k] == r[k] {
      if k < j {
        assert r[k] == sorted[k];
      } else if k > j {
        assert r[k] == sorted[k - 1];
      }
    }
  }

  /** The comparator loop of one insertion step: shifts right, by one place, the entries
      just before `a[i]` whose week is below its own, and drops `a[i]` into the gap `j`. */
  method ShiftInto(a: array<ChangelogEntry>, i: nat) returns (j: nat)
    requires i < a.Length
    modifies a
    ensures j <= i && a[j] == old(a[i])
    ensures forall k :: 0 <= k < j ==> a[k] == old(a[k])
    ensures forall k :: j < k <= i ==> a[k] == old(a[k - 1])
    ensures forall k :: i < k < a.Length ==> a[k] == old(a[k])
    ensures forall k :: j <= k < i ==> Below(old(a[k]).week, old(a[i]).week)
    ensures j == 0 || !Below(old(a[j - 1]).week, old(a[i]).week)
  {
    var x := a[i];
    j := i;
    while j > 0 && Below(a[j - 1].week, x.week)
      invariant j <= i
      invariant forall k :: 0 <= k < j ==> a[k] == old(a[k])
      invariant forall k :: j < k <= i ==> a[k] == old(a[k - 1])
      invariant forall k :: i < k < a.Length ==> a[k] == old(a[k])
      invariant forall k :: j <= k < i ==> Below(old(a[k]).week, x.week)
    {
      a[j] := a[j - 1];
      j := j - 1;
    }
    a[j] := x;
  }

  /** One step of the in-place insertion sort: moves `a[i]` left past the entries of
      the sorted prefix `a[..i]` whose week is below its own. */
  method InsertLast(a: array<ChangelogEntry>, i: nat)
    requires i < a.Length && SortedDesc(a[..i])
    modifies a
    ensures a[..i + 1] == Insert(old(a[i]), old(a[..i]))
    ensures a[i + 1..] == old(a[i + 1..])
  {
    ghost var x, sorted := a[i], a[..i];
    var j := ShiftInto(a, i);
    InsertAt(x, sorted, j);
    ShiftedIsSplice(a[..i + 1], sorted, x, j);
  }

  /** `Array.prototype.sort` with the most-recent-week-first comparator, in place. */
  method SortEntriesByWeek(a: array<ChangelogEntry>)
    modifies a
    ensures a[..] == SortByWeek(old(a[..]))
  {
    ghost var input := a[..];
    var i := 0;
    while i < a.Length
      invariant 0 <= i <= a.Length
      invariant a[..i] == SortByWeek(input[..i])
      invariant a[i..] == input[i..]
    {
      SortByWeekSorted(input[..i]);
      assert a[i + 1..] == input[i + 1..] by {
        assert a[i + 1..] == a[i..][1..] && input[i + 1..] == input[i..][1..];
      }
      assert a[i] == input[i] by {
        assert a[i] == a[i..][0] && input[i] == input[i..][0];
      }
      InsertLast(a, i);
      assert input[..i + 1][..i] == input[..i];
      i := i + 1;
    }
    assert input[..a.Length] == input;
  }

  /** The view object; `content` stands for the container's markup. */
  class ChangelogView {
    var entries: seq<ChangelogEntry>
    var expandedWeeks: set<string>
    var content: seq<Section>

    /** The container shows the stored entries under the current expansion set. */
    ghost predicate Valid()
      reads this
    {
      content == Sections(entries, expandedWeeks)
    }

    constructor ()
      ensures Valid() && entries == [] && expandedWeeks == {}
    {
      entries := [];
      expandedWeeks := {};
      content := [];
    }

    method RenderContent()
      modifies this
      ensures Valid() && entries == old(entries) && expandedWeeks == old(expandedWeeks)
    {
      content := Sections(entries, expandedWeeks);
    }

    /** `render(entries)`: sorts the caller's array in place, stores it and re-renders;
        the expansion set is kept. */
    method Render(input: array<ChangelogEntry>)
      modifies this, input
      ensures input[..] == SortByWeek(old(input[..]))
      ensures entries == input[..] && expandedWeeks == old(expandedWeeks) && Valid()
    {
      SortEntriesByWeek(input);
      entries := input[..];
      RenderContent();
    }

    /** A click on a header whose `data-week` attribute is `week`; nothing happens
        when the attribute is missing or empty. */
    method ClickHeader(week: Option<string>)
      requires Valid()
      modifies this
      ensures entries == old(entries) && Valid()
      ensures expandedWeeks == if Truthy(week) then ToggleWeek(old(expandedWeeks), week.value)
                               else old(expandedWeeks)
      ensures !Truthy(week) ==> content == old(content)
    {
      if Truthy(week) {
        var w := week.value;
        if w in expandedWeeks {
          expandedWeeks := expandedWeeks - {w};
        } else {
          expandedWeeks := expandedWeeks + {w};
        }
        RenderContent();
      }
    }
  }
}
