/**
 The keys of the Active table's rows. A table takes a key once: a render that meets a key again
 raises and leaves the rows it had placed. This module says which snapshots render whole.
 */
module RowKeys {
  import opened Wrappers
  import opened Text
  import opened Sorting
  import opened TaskRanges
  import opened Jobs
  import opened Arrays
  import opened ArrayLaws
  import opened TaskForms

  // ---------- placing rows ----------

  predicate DistinctKeys(rows: seq<Row>) {
    forall i, k | 0 <= i < k < |rows| :: rows[i].Key() != rows[k].Key()
  }

  predicate KeyTaken(rows: seq<Row>, key: string) {
    exists i :: 0 <= i < |rows| && rows[i].Key() == key
  }

  /** The rows a table ends up with, and whether it took all it was given. */
  datatype Placed = Placed(rows: seq<Row>, whole: bool)

  /** A row whose key is taken is what the key stands for from then on, and no row follows. */
  function Place(rows: seq<Row>): Placed {
    if rows == [] then Placed([], true)
    else
      var p, row := Place(rows[..|rows| - 1]), rows[|rows| - 1];
      if !p.whole then p
      else if KeyTaken(p.rows, row.Key()) then Placed(Replace(p.rows, row), false)
      else Placed(p.rows + [row], true)
  }

  function Replace(rows: seq<Row>, row: Row): seq<Row> {
    seq(|rows|, i requires 0 <= i < |rows| => if rows[i].Key() == row.Key() then row else rows[i])
  }

  /** A table that was given these rows holds some of them under distinct keys, all of them iff their
      keys are distinct. */
  ghost predicate Holds(p: Placed, rows: seq<Row>) {
    && (p.whole <==> DistinctKeys(rows))
    && (p.whole ==> p.rows == rows)
    && DistinctKeys(p.rows)
    && forall row | row in p.rows :: row in rows
  }

  lemma PlaceSnoc(init: seq<Row>, last: Row)
    ensures Place(init + [last]) ==
            var p := Place(init);
            if !p.whole then p
            else if KeyTaken(p.rows, last.Key()) then Placed(Replace(p.rows, last), false)
            else Placed(p.rows + [last], true)
  {
    assert (init + [last])[..|init|] == init;
  }

  lemma {:induction false} PlaceWhole(rows: seq<Row>)
    ensures Holds(Place(rows), rows)
  {
    if rows != [] {
      var init, last := rows[..|rows| - 1], rows[|rows| - 1];
      PlaceWhole(init);
      PlaceOne(Place(init), init, last);
      PlaceSnoc(init, last);
      assert init + [last] == rows;
    }
  }

  lemma PlaceOne(p: Placed, init: seq<Row>, last: Row)
    requires Holds(p, init)
    ensures !p.whole ==> Holds(p, init + [last])
    ensures p.whole && KeyTaken(p.rows, last.Key()) ==>
              Holds(Placed(Replace(p.rows, last), false), init + [last])
    ensures p.whole && !KeyTaken(p.rows, last.Key()) ==>
              Holds(Placed(p.rows + [last], true), init + [last])
  {
    DistinctSnoc(init, last);
    DistinctSnoc(p.rows, last);
    ReplaceKeeps(p.rows, last);
  }

  lemma ReplaceKeeps(rows: seq<Row>, row: Row)
    requires DistinctKeys(rows)
    ensures DistinctKeys(Replace(rows, row))
    ensures forall r | r in Replace(rows, row) :: r == row || r in rows
  {
    var replaced := Replace(rows, row);
    forall i | 0 <= i < |rows| ensures replaced[i].Key() == rows[i].Key() {
    }
  }

  lemma DistinctSnoc(init: seq<Row>, last: Row)
    ensures DistinctKeys(init + [last]) <==> DistinctKeys(init) && !KeyTaken(init, last.Key())
  {
    var rows := init + [last];
    if DistinctKeys(rows) {
      forall i, k | 0 <= i < k < |init| ensures init[i].Key() != init[k].Key() {
        assert rows[i] == init[i] && rows[k] == init[k];
      }
      forall i | 0 <= i < |init| ensures init[i].Key() != last.Key() {
        assert rows[i] == init[i] && rows[|init|] == last;
      }
    }
  }

  ghost predicate CutShortAt(shown: seq<Row>, rows: seq<Row>, d: nat)
    requires d < |rows|
  {
    && DistinctKeys(rows[..d]) && KeyTaken(rows[..d], rows[d].Key())
    && |shown| == d
    && forall i | 0 <= i < d :: shown[i] == if rows[i].Key() == rows[d].Key() then rows[d] else rows[i]
  }

  lemma CutShortStays(shown: seq<Row>, init: seq<Row>, last: Row, d: nat)
    requires d < |init| && CutShortAt(shown, init, d)
    ensures CutShortAt(shown, init + [last], d)
  {
    assert (init + [last])[..d] == init[..d];
  }

  lemma CutShortNow(init: seq<Row>, last: Row)
    requires DistinctKeys(init) && KeyTaken(init, last.Key())
    ensures CutShortAt(Replace(init, last), init + [last], |init|)
  {
    assert (init + [last])[..|init|] == init;
  }

  /** If not all are taken, the first row whose key was taken before ends the render: the rows before
      it stay in their order, but its key now stands for it. */
  lemma {:induction false} PlacedPrefix(rows: seq<Row>) returns (d: nat)
    requires !DistinctKeys(rows)
    ensures d < |rows| && CutShortAt(Place(rows).rows, rows, d)
  {
    var init, last := rows[..|rows| - 1], rows[|rows| - 1];
    assert rows == init + [last];
    PlaceWhole(init);
    DistinctSnoc(init, last);
    if DistinctKeys(init) {
      d := |init|;
      CutShortNow(init, last);
    } else {
      d := PlacedPrefix(init);
      CutShortStays(Place(init).rows, init, last, d);
    }
  }

  /** Once a row was refused nothing changes. */
  lemma {:induction false} PlaceStops(rows: seq<Row>, n: nat)
    requires n <= |rows| && !Place(rows[..n]).whole
    ensures Place(rows) == Place(rows[..n])
  {
    if n == |rows| {
      assert rows[..n] == rows;
    } else {
      var init := rows[..|rows| - 1];
      assert init[..n] == rows[..n];
      PlaceStops(init, n);
    }
  }

  // ---------- when keys are equal ----------

  lemma OnlyTasksMarked(row: Row)
    ensures '_' in row.Key() <==> row.TaskRow?
  {
    IntTextLacks(row.Id());
    if row.TaskRow? {
      assert row.Key()[|IntText(row.Id())|] == '_';
    }
  }

  /** Two rows share a key iff they are two tasks of one array and task id, or two other rows of one
      id. */
  lemma SameKey(a: Row, b: Row)
    ensures a.Key() == b.Key() <==>
              a.TaskRow? == b.TaskRow? && a.Id() == b.Id()
              && (a.TaskRow? && b.TaskRow? ==> a.task.taskId == b.task.taskId)
  {
    OnlyTasksMarked(a);
    OnlyTasksMarked(b);
    if a.Key() == b.Key() {
      if a.TaskRow? {
        IntTextLacks(a.Id());
        IntTextLacks(b.Id());
        CutAt(IntText(a.Id()), '_', IntText(a.task.taskId));
        CutAt(IntText(b.Id()), '_', IntText(b.task.taskId));
        IntTextInjective(a.task.taskId, b.task.taskId);
      }
      IntTextInjective(a.Id(), b.Id());
    }
  }

  // ---------- which snapshots render whole ----------

  function HeadId(h: Head): int {
    match h
    case Plain(job) => job.jobId
    case Parent(aid) => aid
  }

  predicate DistinctTasks(tasks: seq<Task>) {
    forall i, k | 0 <= i < k < |tasks| :: tasks[i].taskId != tasks[k].taskId
  }

  /** An expanded array lists no task id twice. */
  predicate OwnTasksDistinct(jobs: seq<JobSummary>, h: Head, expanded: set<int>) {
    h.Parent? && h.arrayJobId in expanded ==> DistinctTasks(SortedTasks(jobs, h.arrayJobId))
  }

  predicate IdTaken(heads: seq<Head>, id: int) {
    exists i :: 0 <= i < |heads| && HeadId(heads[i]) == id
  }

  /** No two rows of the unexpanded table want one id, and no expanded array has a task twice. */
  predicate NoKeyClash(jobs: seq<JobSummary>, heads: seq<Head>, expanded: set<int>) {
    && (forall i, k | 0 <= i < k < |heads| :: HeadId(heads[i]) != HeadId(heads[k]))
    && (forall i | 0 <= i < |heads| :: OwnTasksDistinct(jobs, heads[i], expanded))
  }

  lemma NoKeyClashSnoc(jobs: seq<JobSummary>, init: seq<Head>, h: Head, expanded: set<int>)
    ensures NoKeyClash(jobs, init + [h], expanded) <==>
              NoKeyClash(jobs, init, expanded) && !IdTaken(init, HeadId(h))
              && OwnTasksDistinct(jobs, h, expanded)
  {
    var heads := init + [h];
    assert forall i | 0 <= i < |init| :: heads[i] == init[i];
    assert heads[|init|] == h;
    if NoKeyClash(jobs, heads, expanded) {
      forall i, k | 0 <= i < k < |init| ensures HeadId(init[i]) != HeadId(init[k]) {
        assert HeadId(heads[i]) != HeadId(heads[k]);
      }
    }
  }

  lemma DistinctConcat(a: seq<Row>, b: seq<Row>)
    ensures DistinctKeys(a + b) <==>
              DistinctKeys(a) && DistinctKeys(b)
              && forall x, y | x in a && y in b :: x.Key() != y.Key()
  {
    var all := a + b;
    if DistinctKeys(all) {
      forall i, k | 0 <= i < k < |a| ensures a[i].Key() != a[k].Key() {
        assert all[i] == a[i] && all[k] == a[k];
      }
      forall i, k | 0 <= i < k < |b| ensures b[i].Key() != b[k].Key() {
        assert all[|a| + i] == b[i] && all[|a| + k] == b[k];
      }
      forall x, y | x in a && y in b ensures x.Key() != y.Key() {
        var i :| 0 <= i < |a| && a[i] == x;
        var k :| 0 <= k < |b| && b[k] == y;
        assert all[i] == x && all[|a| + k] == y;
      }
    }
  }

  lemma RowsOfId(jobs: seq<JobSummary>, h: Head, expanded: set<int>)
    ensures forall row | row in RowsOf(jobs, h, expanded) :: row.Id() == HeadId(h)
    ensures exists row :: row in RowsOf(jobs, h, expanded) && !row.TaskRow?
  {
    var rows := RowsOf(jobs, h, expanded);
    assert rows[0] in rows && !rows[0].TaskRow?;
    forall row | row in rows ensures row.Id() == HeadId(h) {
      match h {
        case Plain(job) => RowOfPlain(jobs, job, expanded, row);
        case Parent(aid) => RowOfParent(jobs, aid, expanded, row);
      }
    }
  }

  lemma TaskRowKeys(aid: int, tasks: seq<Task>)
    ensures DistinctKeys(TaskRows(aid, tasks)) <==> DistinctTasks(tasks)
  {
    var rows := TaskRows(aid, tasks);
    forall i, k | 0 <= i < k < |tasks|
      ensures rows[i].Key() != rows[k].Key() <==> tasks[i].taskId != tasks[k].taskId
    {
      SameKey(rows[i], rows[k]);
    }
  }

  lemma OwnKeys(jobs: seq<JobSummary>, h: Head, expanded: set<int>)
    ensures DistinctKeys(RowsOf(jobs, h, expanded)) <==> OwnTasksDistinct(jobs, h, expanded)
  {
    if h.Parent? && h.arrayJobId in expanded {
      var aid := h.arrayJobId;
      var parent, rows := ParentRow(jobs, aid, true), TaskRows(aid, SortedTasks(jobs, aid));
      TaskRowKeys(aid, SortedTasks(jobs, aid));
      forall y | y in rows ensures parent.Key() != y.Key() {
        SameKey(parent, y);
      }
      DistinctConcat([parent], rows);
    }
  }

  lemma CrossKeys(jobs: seq<JobSummary>, init: seq<Head>, h: Head, expanded: set<int>)
    ensures (forall x, y | x in Rows(jobs, init, expanded) && y in RowsOf(jobs, h, expanded) ::
               x.Key() != y.Key())
       <==> !IdTaken(init, HeadId(h))
  {
    RowsOfId(jobs, h, expanded);
    if IdTaken(init, HeadId(h)) {
      var i :| 0 <= i < |init| && HeadId(init[i]) == HeadId(h);
      RowsOfId(jobs, init[i], expanded);
      var x :| x in RowsOf(jobs, init[i], expanded) && !x.TaskRow?;
      var y :| y in RowsOf(jobs, h, expanded) && !y.TaskRow?;
      FlatMapElement(init, (g: Head) => RowsOf(jobs, g, expanded), x);
      assert init[i] in init && x in Rows(jobs, init, expanded);
      SameKey(x, y);
    } else {
      forall x, y | x in Rows(jobs, init, expanded) && y in RowsOf(jobs, h, expanded)
        ensures x.Key() != y.Key()
      {
        var g := HeadOfRow(jobs, init, expanded, x);
        var i :| 0 <= i < |init| && init[i] == g;
        RowsOfId(jobs, g, expanded);
        SameKey(x, y);
      }
    }
  }

  /** The table of a snapshot has distinct keys exactly when nothing clashes. */
  lemma {:induction false} KeysDistinctIff(jobs: seq<JobSummary>, heads: seq<Head>, expanded: set<int>)
    ensures DistinctKeys(Rows(jobs, heads, expanded)) <==> NoKeyClash(jobs, heads, expanded)
  {
    if heads != [] {
      var init, h := heads[..|heads| - 1], heads[|heads| - 1];
      assert heads == init + [h];
      KeysDistinctIff(jobs, init, expanded);
      DistinctConcat(Rows(jobs, init, expanded), RowsOf(jobs, h, expanded));
      OwnKeys(jobs, h, expanded);
      CrossKeys(jobs, init, h, expanded);
      NoKeyClashSnoc(jobs, init, h, expanded);
    }
  }

  lemma OneArrayHeads(a: JobSummary, b: JobSummary, aid: int)
    requires IsMember(a, aid) && IsMember(b, aid)
    ensures Heads([a, b]) == [Parent(aid)]
  {
    assert [a, b][..1] == [a] && [a][..0] == [];
    assert Heads([a]) == [Parent(aid)];
  }

  lemma SameIdSorted(tasks: seq<Task>)
    requires |tasks| == 2 && tasks[0].taskId == tasks[1].taskId
    ensures !DistinctTasks(StableSort(tasks, TaskKey))
  {
    var sorted := StableSort(tasks, TaskKey);
    StableSortCorrect(tasks, TaskKey);
    StableSortElements(tasks, TaskKey);
    assert |sorted| == |multiset(sorted)| == |multiset(tasks)| == 2;
    assert sorted[0] in tasks && sorted[1] in tasks;
  }

  lemma RangeBesideTask(range: JobSummary, record: JobSummary, aid: int)
    requires range.arrayJobId == Some(aid) && range.arrayTaskId.None?
    requires range.arrayTaskRange == Some("3")
    requires record.arrayJobId == Some(aid) && record.arrayTaskId == Some(3)
    ensures |Tasks([range, record], aid)| == 2
    ensures Tasks([range, record], aid)[0].taskId == Tasks([range, record], aid)[1].taskId
  {
    OneTaskRange(range);
    TasksOne(range, aid);
    TasksSnoc([range], record, aid);
    TasksOfMember(record);
    assert [range] + [record] == [range, record];
  }

  /** Parsing and normalization do not rule a clash out: a range beside a record of one of its tasks
      renders folded, but not opened. */
  lemma KeyClashExists(aid: int, range: JobSummary, record: JobSummary)
    requires range.arrayJobId == Some(aid) && range.arrayTaskId.None?
    requires range.arrayTaskRange == Some("3")
    requires record.arrayJobId == Some(aid) && record.arrayTaskId == Some(3)
    requires record.arrayTaskRange.None?
    ensures var jobs := [range, record];
            && AllParse(jobs) && AllExclusive(jobs)
            && NoKeyClash(jobs, Heads(jobs), {}) && !NoKeyClash(jobs, Heads(jobs), {aid})
  {
    var jobs := [range, record];
    OneTaskRange(range);
    OneArrayHeads(range, record, aid);
    RangeBesideTask(range, record, aid);
    SameIdSorted(Tasks(jobs, aid));
    assert !OwnTasksDistinct(jobs, Heads(jobs)[0], {aid});
  }

  lemma OneTaskRange(range: JobSummary)
    requires range.arrayJobId.Some? && range.arrayTaskId.None? && range.arrayTaskRange == Some("3")
    ensures Parses(range) && |TasksOf(range)| == 1 && TasksOf(range)[0].taskId == 3
  {
    OneIsPart(3);
    ExpandOfTerms([One(3)], "");
    var terms := [One(3)];
    assert terms[..0] == [];
    assert TermsText(terms) + "" == "3";
    assert TermsIds(terms) == {3};
    AscendingUnique(SortedIds({3}), [3]);
  }
}
