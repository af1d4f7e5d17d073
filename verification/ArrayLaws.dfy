/**
 What the collapsed rows promise: one parent per array at its first appearance, conserved counts,
 the same answer whichever way Slurm reports an array's tasks, and rows that agree with the
 cancel check.
 */
module ArrayLaws {
  import opened Wrappers
  import opened Sorting
  import opened TaskRanges
  import opened Jobs
  import opened Arrays

  // ---------- concatenation ----------

  lemma ParseConcat(a: seq<JobSummary>, b: seq<JobSummary>)
    ensures AllParse(a + b) <==> AllParse(a) && AllParse(b)
  {
  }

  lemma TasksConcat(a: seq<JobSummary>, b: seq<JobSummary>, aid: int)
    ensures Tasks(a + b, aid) == Tasks(a, aid) + Tasks(b, aid)
  {
    FlatMapConcat(a, b, (job: JobSummary) => TasksFor(job, aid));
  }

  lemma {:induction false} HeadsConcat(a: seq<JobSummary>, a': seq<JobSummary>, b: seq<JobSummary>)
    requires Heads(a) == Heads(a')
    ensures Heads(a + b) == Heads(a' + b)
  {
    if b == [] {
      assert a + b == a && a' + b == a';
    } else {
      var init := b[..|b| - 1];
      assert (a + b)[..|a + b| - 1] == a + init && (a' + b)[..|a' + b| - 1] == a' + init;
      HeadsConcat(a, a', init);
    }
  }

  lemma {:induction false} CancellableConcat(a: seq<JobSummary>, b: seq<JobSummary>, t: CancelTarget)
    ensures Cancellable(a + b, t) ==
            if Cancellable(a, t) == Ok(false) then Cancellable(b, t) else Cancellable(a, t)
  {
    if a == [] {
      assert a + b == b;
    } else {
      assert (a + b)[1..] == a[1..] + b;
      CancellableConcat(a[1..], b, t);
    }
  }

  // ---------- what a task row stands for ----------

  /** A task row's record is the array's record of that task, or a copy of the range record that names
      it; either way it is a normalized record of that task and shows as the row's key. */
  lemma TaskRecords(job: JobSummary, t: Task)
    requires job.Normal() && t in TasksOf(job)
    ensures t.synthetic <==> job.arrayTaskId.None?
    ensures !t.synthetic ==> t.job == job
    ensures t.synthetic ==> t.job == job.(arrayTaskId := Some(t.taskId), arrayTaskRange := None)
    ensures t.job.Normal() && t.job.arrayTaskId == Some(t.taskId)
    ensures job.arrayJobId.Some? && t.job.DisplayId() == TaskRow(job.arrayJobId.value, t).Key()
  {
    TasksOfMember(job);
    if job.arrayTaskId.None? {
      var ids := Expand(job.arrayTaskRange.value).value;
      var i :| 0 <= i < |ids| && SyntheticTasks(job, ids)[i] == t;
    }
  }

  // ---------- the cancel check, unparsable ranges included ----------

  /** A live record of the target's array whose range does not parse, and which is not the task itself. */
  predicate Undecidable(job: JobSummary, t: CancelTarget) {
    && !job.IsTerminal() && t.arrayTaskId.Some? && job.arrayJobId == Some(t.jobId)
    && job.arrayTaskId != t.arrayTaskId
    && job.arrayTaskRange.Some? && job.arrayTaskRange.value != ""
    && Expand(job.arrayTaskRange.value).ValueError?
  }

  /** A live record that is, or whose range names, the target. */
  predicate HoldsTarget(job: JobSummary, t: CancelTarget) {
    && !job.IsTerminal()
    && if t.arrayTaskId.None? then job.jobId == t.jobId || job.arrayJobId == Some(t.jobId)
       else job.arrayJobId == Some(t.jobId)
            && (job.arrayTaskId == t.arrayTaskId
                || (job.arrayTaskRange.Some? && Expand(job.arrayTaskRange.value).Ok?
                    && t.arrayTaskId.value in Expand(job.arrayTaskRange.value).value))
  }

  lemma MatchesIff(job: JobSummary, t: CancelTarget)
    ensures Matches(job, t) == ValueError <==> Undecidable(job, t)
    ensures Matches(job, t) == Ok(true) <==> HoldsTarget(job, t)
    ensures Matches(job, t) == Ok(false) <==> !Undecidable(job, t) && !HoldsTarget(job, t)
  {
    ExpandEmpty();
  }

  predicate Silent(job: JobSummary, t: CancelTarget) {
    !Undecidable(job, t) && !HoldsTarget(job, t)
  }

  /** For every snapshot and target, parsable or not: the first record that holds the target or cannot
      tell decides, cancellable or ValueError, and with no such record it is not cancellable. */
  lemma {:induction false} CancellableExact(jobs: seq<JobSummary>, t: CancelTarget) returns (k: nat)
    ensures k <= |jobs| && (forall i | 0 <= i < k :: Silent(jobs[i], t))
    ensures k < |jobs| ==> !Silent(jobs[k], t)
    ensures Cancellable(jobs, t) ==
            if k == |jobs| then Ok(false) else if HoldsTarget(jobs[k], t) then Ok(true) else ValueError
  {
    k := 0;
    if jobs != [] {
      MatchesIff(jobs[0], t);
      if Silent(jobs[0], t) {
        var later := CancellableExact(jobs[1..], t);
        k := later + 1;
        assert forall i | 0 < i < |jobs| :: jobs[i] == jobs[1..][i - 1];
      }
    }
  }

  // ---------- one row per array, at its first appearance ----------

  /** Record k opens a row: it is a plain job, or no earlier record belongs to its array. */
  ghost predicate OpensRow(jobs: seq<JobSummary>, k: nat)
    requires k < |jobs|
  {
    jobs[k].IsArrayMember() ==>
      forall i | 0 <= i < k :: !IsMember(jobs[i], jobs[k].arrayJobId.value)
  }

  ghost function Openers(jobs: seq<JobSummary>): seq<int> {
    if jobs == [] then []
    else
      var n := |jobs| - 1;
      Openers(jobs[..n]) + if OpensRow(jobs, n) then [n] else []
  }

  lemma OpensRowInit(jobs: seq<JobSummary>, k: nat)
    requires k < |jobs| - 1
    ensures OpensRow(jobs, k) <==> OpensRow(jobs[..|jobs| - 1], k)
  {
    var init := jobs[..|jobs| - 1];
    assert forall i | 0 <= i <= k :: init[i] == jobs[i];
  }

  lemma AscendingSnoc(s: seq<int>, x: int)
    requires Ascending(s) && forall y | y in s :: y < x
    ensures Ascending(s + [x])
  {
    assert forall i | 0 <= i < |s| :: s[i] in s;
  }

  lemma {:induction false} OpenersExact(jobs: seq<JobSummary>)
    ensures Ascending(Openers(jobs))
    ensures forall k :: k in Openers(jobs) <==> 0 <= k < |jobs| && OpensRow(jobs, k)
  {
    if jobs != [] {
      var init, n := jobs[..|jobs| - 1], |jobs| - 1;
      OpenersExact(init);
      AscendingSnoc(Openers(init), n);
      forall k ensures k in Openers(jobs) <==> 0 <= k < |jobs| && OpensRow(jobs, k) {
        if 0 <= k < n {
          OpensRowInit(jobs, k);
        }
      }
    }
  }

  lemma {:induction false} ParentIffMember(jobs: seq<JobSummary>, aid: int)
    ensures Parent(aid) in Heads(jobs) <==> exists i :: 0 <= i < |jobs| && IsMember(jobs[i], aid)
  {
    if jobs != [] {
      var init, n := jobs[..|jobs| - 1], |jobs| - 1;
      ParentIffMember(init, aid);
      assert jobs == init + [jobs[n]];
      if i :| 0 <= i < |init| && IsMember(init[i], aid) {
        assert IsMember(jobs[i], aid);
      }
      if i :| 0 <= i < |jobs| && IsMember(jobs[i], aid) {
        assert i == n || IsMember(init[i], aid);
      }
    }
  }

  lemma LastOpens(jobs: seq<JobSummary>)
    requires jobs != [] && jobs[|jobs| - 1].IsArrayMember()
    ensures var n := |jobs| - 1;
            OpensRow(jobs, n) <==> Parent(jobs[n].arrayJobId.value) !in Heads(jobs[..n])
  {
    var init, n := jobs[..|jobs| - 1], |jobs| - 1;
    ParentIffMember(init, jobs[n].arrayJobId.value);
    assert forall i | 0 <= i < n :: init[i] == jobs[i];
  }

  lemma {:induction false} HeadsAtOpeners(jobs: seq<JobSummary>)
    ensures |Heads(jobs)| == |Openers(jobs)|
    ensures forall i | 0 <= i < |Heads(jobs)| ::
              0 <= Openers(jobs)[i] < |jobs| && Heads(jobs)[i] == HeadOf(jobs[Openers(jobs)[i]])
  {
    if jobs != [] {
      HeadsAtOpeners(jobs[..|jobs| - 1]);
      if jobs[|jobs| - 1].IsArrayMember() {
        LastOpens(jobs);
      }
    }
  }

  /** The row that stands for a head while nothing is expanded. */
  function FoldedRow(jobs: seq<JobSummary>, h: Head): Row {
    match h
    case Plain(job) => PlainRow(job)
    case Parent(aid) => ParentRow(jobs, aid, false)
  }

  lemma RowsUnexpanded(jobs: seq<JobSummary>, heads: seq<Head>)
    ensures |Rows(jobs, heads, {})| == |heads|
    ensures forall i | 0 <= i < |heads| :: Rows(jobs, heads, {})[i] == FoldedRow(jobs, heads[i])
  {
    var rowsOf := (h: Head) => RowsOf(jobs, h, {});
    forall h ensures rowsOf(h) == [FoldedRow(jobs, h)] {
    }
    FlatMapSingle(heads, rowsOf);
    assert Rows(jobs, heads, {}) == FlatMap(heads, rowsOf);
  }

  lemma {:induction false} FirstMemberAt(jobs: seq<JobSummary>, k: nat, aid: int)
    requires k < |jobs| && IsMember(jobs[k], aid)
    requires forall i | 0 <= i < k :: !IsMember(jobs[i], aid)
    ensures FirstMember(jobs, aid) == Some(jobs[k])
  {
    if k > 0 {
      FirstMemberAt(jobs[1..], k - 1, aid);
    }
  }

  ghost predicate OpenedBy(row: Row, job: JobSummary) {
    if job.IsArrayMember()
    then row.ArrayRow? && row.arrayJobId == job.arrayJobId.value
         && row.name == job.name && row.partition == job.partition
    else row == PlainRow(job)
  }

  lemma OpenedRow(jobs: seq<JobSummary>, k: nat)
    requires AllParse(jobs) && k < |jobs| && OpensRow(jobs, k)
    ensures OpenedBy(FoldedRow(jobs, HeadOf(jobs[k])), jobs[k])
  {
    if jobs[k].IsArrayMember() {
      FirstMemberAt(jobs, k, jobs[k].arrayJobId.value);
    }
  }

  /** The unexpanded rows are the plain jobs and one parent per array, each where its first record
      stands; the parent takes its name and partition from that record. */
  lemma CollapseOrder(jobs: seq<JobSummary>)
    requires AllParse(jobs)
    ensures var rows, at := Collapse(jobs, {}).value, Openers(jobs);
            && |rows| == |at| && Ascending(at)
            && (forall k :: k in at <==> 0 <= k < |jobs| && OpensRow(jobs, k))
            && forall i | 0 <= i < |rows| :: 0 <= at[i] < |jobs| && OpenedBy(rows[i], jobs[at[i]])
  {
    var rows, at := Collapse(jobs, {}).value, Openers(jobs);
    OpenersExact(jobs);
    HeadsAtOpeners(jobs);
    RowsUnexpanded(jobs, Heads(jobs));
    forall i | 0 <= i < |rows| ensures OpenedBy(rows[i], jobs[at[i]]) {
      assert at[i] in at;
      OpenedRow(jobs, at[i]);
    }
  }

  // ---------- expansion only adds task rows ----------

  /** The rows with the task rows taken out and every parent closed. */
  function Folded(rows: seq<Row>): seq<Row> {
    FlatMap(rows, FoldRow)
  }

  function FoldRow(row: Row): seq<Row> {
    match row
    case PlainRow(_) => [row]
    case ArrayRow(_, _, _, _, _, _) => [row.(expanded := false)]
    case TaskRow(_, _) => []
  }

  lemma {:induction false} FoldTaskRows(aid: int, tasks: seq<Task>)
    ensures Folded(TaskRows(aid, tasks)) == []
  {
    if tasks != [] {
      var init := tasks[..|tasks| - 1];
      assert TaskRows(aid, tasks)[..|tasks| - 1] == TaskRows(aid, init);
      FoldTaskRows(aid, init);
    }
  }

  lemma FoldRowsOf(jobs: seq<JobSummary>, h: Head, expanded: set<int>)
    ensures Folded(RowsOf(jobs, h, expanded)) == [FoldedRow(jobs, h)]
  {
    if h.Parent? && h.arrayJobId in expanded {
      var parent := ParentRow(jobs, h.arrayJobId, true);
      FlatMapConcat([parent], TaskRows(h.arrayJobId, SortedTasks(jobs, h.arrayJobId)), FoldRow);
      FoldTaskRows(h.arrayJobId, SortedTasks(jobs, h.arrayJobId));
      FlatMapOne(parent, FoldRow);
    } else {
      assert RowsOf(jobs, h, expanded) == [FoldedRow(jobs, h)];
      FlatMapOne(FoldedRow(jobs, h), FoldRow);
    }
  }

  /** Erasing the task rows gives back the unexpanded table, whatever was expanded. */
  lemma {:induction false} FoldRows(jobs: seq<JobSummary>, heads: seq<Head>, expanded: set<int>)
    ensures Folded(Rows(jobs, heads, expanded)) == Rows(jobs, heads, {})
  {
    if heads != [] {
      var init, h := heads[..|heads| - 1], heads[|heads| - 1];
      FoldRows(jobs, init, expanded);
      FlatMapConcat(Rows(jobs, init, expanded), RowsOf(jobs, h, expanded), FoldRow);
      FoldRowsOf(jobs, h, expanded);
    }
  }

  /** The task rows the table shows for one array. */
  function ShownTasks(rows: seq<Row>, aid: int): seq<Row> {
    Filter(rows, (r: Row) => r.TaskRow? && r.taskArray == aid)
  }

  lemma {:induction false} ShownTaskRows(other: int, tasks: seq<Task>, aid: int)
    ensures ShownTasks(TaskRows(other, tasks), aid) == if other == aid then TaskRows(aid, tasks) else []
  {
    if tasks != [] {
      assert TaskRows(other, tasks)[1..] == TaskRows(other, tasks[1..]);
      ShownTaskRows(other, tasks[1..], aid);
    }
  }

  lemma ShownOfHead(jobs: seq<JobSummary>, h: Head, expanded: set<int>, aid: int)
    ensures ShownTasks(RowsOf(jobs, h, expanded), aid) ==
            if h == Parent(aid) && aid in expanded then TaskRows(aid, SortedTasks(jobs, aid)) else []
  {
    if h.Parent? && h.arrayJobId in expanded {
      var parent := ParentRow(jobs, h.arrayJobId, true);
      FilterConcat([parent], TaskRows(h.arrayJobId, SortedTasks(jobs, h.arrayJobId)),
                   (r: Row) => r.TaskRow? && r.taskArray == aid);
      ShownTaskRows(h.arrayJobId, SortedTasks(jobs, h.arrayJobId), aid);
      assert ShownTasks([parent], aid) == [];
    } else {
      var row := FoldedRow(jobs, h);
      assert RowsOf(jobs, h, expanded) == [row];
      assert ShownTasks([row], aid) == ShownTasks([row][1..], aid) == [];
    }
  }

  ghost predicate Distinct(heads: seq<Head>) {
    forall i, j | 0 <= i < j < |heads| && heads[i].Parent? :: heads[i] != heads[j]
  }

  lemma DistinctInit(heads: seq<Head>)
    requires heads != [] && Distinct(heads)
    ensures var init, h := heads[..|heads| - 1], heads[|heads| - 1];
            && heads == init + [h]
            && Distinct(init) && (h.Parent? ==> h !in init)
  {
  }

  lemma {:induction false} ShownTasksOf(jobs: seq<JobSummary>, heads: seq<Head>,
                                        expanded: set<int>, aid: int)
    requires Distinct(heads)
    ensures ShownTasks(Rows(jobs, heads, expanded), aid) ==
            if Parent(aid) in heads && aid in expanded
            then TaskRows(aid, SortedTasks(jobs, aid)) else []
  {
    if heads != [] {
      var init, h := heads[..|heads| - 1], heads[|heads| - 1];
      DistinctInit(heads);
      ShownTasksOf(jobs, init, expanded, aid);
      FilterConcat(Rows(jobs, init, expanded), RowsOf(jobs, h, expanded),
                   (r: Row) => r.TaskRow? && r.taskArray == aid);
      ShownOfHead(jobs, h, expanded, aid);
    }
  }

  /** Row i is an expanded parent and its tasks are the rows right behind it. */
  ghost predicate TasksBehind(rows: seq<Row>, i: nat)
    requires i < |rows| && rows[i].ArrayRow?
  {
    var n := |rows[i].tasks|;
    i + 1 + n <= |rows| && rows[i + 1..i + 1 + n] == TaskRows(rows[i].arrayJobId, rows[i].tasks)
  }

  lemma BehindKept(a: seq<Row>, b: seq<Row>, i: nat)
    requires i < |a| && a[i].ArrayRow? && TasksBehind(a, i)
    ensures TasksBehind(a + b, i)
  {
    var n := |a[i].tasks|;
    assert (a + b)[i + 1..i + 1 + n] == a[i + 1..i + 1 + n];
  }

  lemma BehindHead(a: seq<Row>, parent: Row, tasks: seq<Row>)
    requires parent.ArrayRow? && tasks == TaskRows(parent.arrayJobId, parent.tasks)
    ensures TasksBehind(a + ([parent] + tasks), |a|)
  {
    var rows := a + ([parent] + tasks);
    assert rows[|a| + 1..|a| + 1 + |tasks|] == tasks;
  }

  /** An expanded parent is followed at once by its own tasks. */
  lemma {:induction false} TasksFollow(jobs: seq<JobSummary>, heads: seq<Head>, expanded: set<int>, i: nat)
    requires i < |Rows(jobs, heads, expanded)|
    requires Rows(jobs, heads, expanded)[i].ArrayRow? && Rows(jobs, heads, expanded)[i].expanded
    ensures TasksBehind(Rows(jobs, heads, expanded), i)
  {
    var init, h := heads[..|heads| - 1], heads[|heads| - 1];
    var a, b := Rows(jobs, init, expanded), RowsOf(jobs, h, expanded);
    assert Rows(jobs, heads, expanded) == a + b;
    if i < |a| {
      TasksFollow(jobs, init, expanded, i);
      BehindKept(a, b, i);
    } else {
      assert b[i - |a|] == (a + b)[i];
      assert h.Parent? && h.arrayJobId in expanded && i == |a|;
      BehindHead(a, b[0], TaskRows(h.arrayJobId, SortedTasks(jobs, h.arrayJobId)));
    }
  }

  // ---------- counts are conserved ----------

  lemma {:induction false} TotalWithout(counts: map<string, nat>, k: string)
    requires k in counts
    ensures Total(counts) == counts[k] + Total(counts - {k})
    decreases |counts|
  {
    HasKey(counts);
    var c :| c in counts && Total(counts) == counts[c] + Total(counts - {c});
    if c != k {
      TotalWithout(counts - {c}, k);
      TotalWithout(counts - {k}, c);
      assert counts - {c} - {k} == counts - {k} - {c};
    }
  }

  lemma TotalBump(counts: map<string, nat>, state: string, n: nat)
    ensures Total(Bump(counts, state, n)) == Total(counts) + n
  {
    var bumped := Bump(counts, state, n);
    TotalWithout(bumped, state);
    assert bumped - {state} == counts - {state};
    if state in counts {
      TotalWithout(counts, state);
    } else {
      assert counts - {state} == counts;
    }
  }

  /** The histogram of a list of tasks adds up to the number of tasks. */
  lemma {:induction false} HistogramTotal(tasks: seq<Task>, states: set<string>)
    requires forall t | t in tasks :: t.job.state in states
    ensures Total(Histogram(tasks, states)) == |tasks|
  {
    if tasks == [] {
      ZeroTotal(states);
    } else {
      var init, last := tasks[..|tasks| - 1], tasks[|tasks| - 1];
      assert tasks == init + [last];
      HistogramTotal(init, states);
      HistogramStep(init, states, [last], last.job.state);
      assert states + {last.job.state} == states;
      TotalBump(Histogram(init, states), last.job.state, 1);
    }
  }

  lemma {:induction false} ZeroTotal(states: set<string>)
    ensures Total(Histogram([], states)) == 0
    decreases |states|
  {
    var counts := Histogram([], states);
    HasKey(counts);
    if counts != map[] {
      var k :| k in counts;
      TotalWithout(counts, k);
      assert counts - {k} == Histogram([], states - {k});
      ZeroTotal(states - {k});
    }
  }

  lemma InStateSorted(tasks: seq<Task>, state: string)
    ensures InState(StableSort(tasks, TaskKey), state) == InState(tasks, state)
  {
    StableSortCorrect(tasks, TaskKey);
    FilterPermutation(StableSort(tasks, TaskKey), tasks, (t: Task) => t.job.state == state);
  }

  /** Ascending by task id, and the tasks of one id in the order given. */
  ghost predicate InIdOrder(sorted: seq<Task>, tasks: seq<Task>) {
    && (forall i, k | 0 <= i < k < |sorted| :: sorted[i].taskId <= sorted[k].taskId)
    && (forall id: int :: OfId(sorted, id) == OfId(tasks, id))
  }

  function OfId(tasks: seq<Task>, id: int): seq<Task> {
    Filter(tasks, (t: Task) => t.taskId == id)
  }

  lemma StableByKey(sorted: seq<Task>, tasks: seq<Task>)
    requires IsStableSort(sorted, tasks, TaskKey)
    ensures InIdOrder(sorted, tasks)
  {
    forall i, k | 0 <= i < k < |sorted| ensures sorted[i].taskId <= sorted[k].taskId {
      assert KeyLeq(TaskKey(sorted[i]), TaskKey(sorted[k]));
    }
    forall id: int ensures OfId(sorted, id) == OfId(tasks, id) {
      OfIdIsKey(sorted, id);
      OfIdIsKey(tasks, id);
      assert OfKey(sorted, TaskKey, (id, 0, 0)) == OfKey(tasks, TaskKey, (id, 0, 0));
    }
  }

  lemma OfIdIsKey(tasks: seq<Task>, id: int)
    ensures OfId(tasks, id) == OfKey(tasks, TaskKey, (id, 0, 0))
  {
    FilterAll(tasks, (t: Task) => true);
    OfKeyFilter(tasks, (t: Task) => true, TaskKey, (id, 0, 0), (t: Task) => t.taskId == id);
  }

  /** What a parent row conserves: its tasks are the array's tasks, stably sorted by id; its count
      for a state is the number of its tasks in that state; every task is counted once; and its
      cancel target names as many tasks as it has. */
  ghost predicate Conserves(row: Row, jobs: seq<JobSummary>)
    requires row.ArrayRow?
  {
    && InIdOrder(row.tasks, Tasks(jobs, row.arrayJobId))
    && multiset(row.tasks) == multiset(Tasks(jobs, row.arrayJobId))
    && (forall t | t in row.tasks :: t.job.state in row.counts)
    && (forall s | s in row.counts :: row.counts[s] == InState(row.tasks, s))
    && Total(row.counts) == |row.tasks|
    && row.Target().taskCount == |row.tasks|
  }

  lemma ParentConserves(jobs: seq<JobSummary>, aid: int, expanded: bool)
    ensures Conserves(ParentRow(jobs, aid, expanded), jobs)
  {
    var tasks, states := Tasks(jobs, aid), States(jobs, aid);
    StableSortCorrect(tasks, TaskKey);
    StableByKey(SortedTasks(jobs, aid), tasks);
    StableSortElements(tasks, TaskKey);
    TaskStates(jobs, aid);
    HistogramTotal(tasks, states);
    assert |multiset(tasks)| == |tasks| && |multiset(SortedTasks(jobs, aid))| == |SortedTasks(jobs, aid)|;
    forall s | s in states ensures InState(SortedTasks(jobs, aid), s) == InState(tasks, s) {
      InStateSorted(tasks, s);
    }
  }

  /** For every snapshot and expanded set: each parent conserves its array's tasks, the table shows
      exactly an expanded parent's own tasks in order, and folding gives the unexpanded table. */
  lemma CollapseConserves(jobs: seq<JobSummary>, expanded: set<int>)
    requires AllParse(jobs)
    ensures var rows := Collapse(jobs, expanded).value;
            && (forall row | row in rows && row.ArrayRow? ::
                  && Conserves(row, jobs)
                  && row.expanded == (row.arrayJobId in expanded)
                  && ShownTasks(rows, row.arrayJobId) ==
                       if row.expanded then TaskRows(row.arrayJobId, row.tasks) else [])
            && Collapse(jobs, {}) == Ok(Folded(rows))
  {
    var heads := Heads(jobs);
    var rows := Rows(jobs, heads, expanded);
    FoldRows(jobs, heads, expanded);
    HeadsDistinct(jobs);
    forall row | row in rows && row.ArrayRow?
      ensures Conserves(row, jobs) && row.expanded == (row.arrayJobId in expanded)
      ensures ShownTasks(rows, row.arrayJobId) ==
              if row.expanded then TaskRows(row.arrayJobId, row.tasks) else []
    {
      var h := HeadOfRow(jobs, heads, expanded, row);
      ParentConserves(jobs, row.arrayJobId, row.expanded);
      ShownTasksOf(jobs, heads, expanded, row.arrayJobId);
    }
  }

  lemma RowOfPlain(jobs: seq<JobSummary>, job: JobSummary, expanded: set<int>, row: Row)
    requires row in RowsOf(jobs, Plain(job), expanded)
    ensures row == PlainRow(job)
  {
  }

  lemma RowOfParent(jobs: seq<JobSummary>, aid: int, expanded: set<int>, row: Row)
    requires row in RowsOf(jobs, Parent(aid), expanded)
    ensures row == ParentRow(jobs, aid, aid in expanded)
            || (aid in expanded && row.TaskRow? && row.taskArray == aid
                && row.task in SortedTasks(jobs, aid))
  {
    var tasks := SortedTasks(jobs, aid);
    if row != ParentRow(jobs, aid, aid in expanded) {
      assert row in TaskRows(aid, tasks);
    }
  }

  /** A target addresses its row by ids and is labelled as the user knows it; only a task's names a
      task. */
  lemma TargetNames(row: Row)
    ensures row.Target().arrayTaskId.Some? <==> row.TaskRow?
    ensures row.TaskRow? ==> row.Target().arrayTaskId == Some(row.task.taskId)
    ensures row.Target().jobId == row.Id()
    ensures !row.PlainRow? ==> row.Target().labelText == row.Key()
    ensures row.PlainRow? ==> row.Target().labelText == row.job.DisplayId()
    ensures !row.ArrayRow? ==> row.Target().taskCount == 1
  {
  }

  /** Every row belongs to one head. */
  lemma HeadOfRow(jobs: seq<JobSummary>, heads: seq<Head>, expanded: set<int>, row: Row)
    returns (h: Head)
    requires row in Rows(jobs, heads, expanded)
    ensures h in heads && row in RowsOf(jobs, h, expanded)
    ensures row.ArrayRow? ==>
              h == Parent(row.arrayJobId)
              && row == ParentRow(jobs, row.arrayJobId, row.arrayJobId in expanded)
    ensures row.TaskRow? ==>
              h == Parent(row.taskArray) && row.taskArray in expanded
              && row.task in SortedTasks(jobs, row.taskArray)
    ensures row.PlainRow? ==> h == Plain(row.job)
  {
    FlatMapElement(heads, (h: Head) => RowsOf(jobs, h, expanded), row);
    h :| h in heads && row in RowsOf(jobs, h, expanded);
    match h {
      case Plain(job) => RowOfPlain(jobs, job, expanded, row);
      case Parent(aid) => RowOfParent(jobs, aid, expanded, row);
    }
  }
}
