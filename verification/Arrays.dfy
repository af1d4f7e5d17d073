/**
 Array collapse: the rows of the Active table, one parent per array, and the check that a cancel
 target is still live. The functions say what the rows are; CollapseArrays and TargetIsCancellable
 are the loops that build and read them.
 */
module Arrays {
  import opened Wrappers
  import opened Text
  import opened Sorting
  import opened TaskRanges
  import opened Jobs

  // ---------- rows ----------

  /** One array task: a real record, or one copied out of a pending range. */
  datatype Task = Task(job: JobSummary, taskId: int, synthetic: bool)

  datatype CancelTarget =
    CancelTarget(jobId: int, arrayTaskId: Option<int>, taskCount: nat, labelText: string)

  datatype Row =
    | PlainRow(job: JobSummary)
    | ArrayRow(arrayJobId: int, name: string, partition: Option<string>,
               counts: map<string, nat>, tasks: seq<Task>, expanded: bool)
    | TaskRow(taskArray: int, task: Task)
  {
    function Id(): int {
      match this
      case PlainRow(job) => job.jobId
      case ArrayRow(aid, _, _, _, _, _) => aid
      case TaskRow(aid, _) => aid
    }

    /** The key of the row in the table. */
    function Key(): string {
      match this
      case TaskRow(aid, t) => IntText(aid) + "_" + IntText(t.taskId)
      case _ => IntText(Id())
    }

    /** The target is made of ids, never of a row position. */
    ghost function Target(): CancelTarget {
      match this
      case PlainRow(job) => CancelTarget(job.jobId, None, 1, job.DisplayId())
      case ArrayRow(aid, _, _, counts, _, _) =>
        CancelTarget(aid, None, Total(counts), IntText(aid))
      case TaskRow(aid, t) =>
        CancelTarget(aid, Some(t.taskId), 1, IntText(aid) + "_" + IntText(t.taskId))
    }
  }

  // ---------- members and their tasks ----------

  predicate IsMember(job: JobSummary, aid: int) {
    job.IsArrayMember() && job.arrayJobId == Some(aid)
  }

  /** A range record whose text does not parse makes the whole collapse raise ValueError. */
  predicate Parses(job: JobSummary) {
    job.IsArrayMember() && job.arrayTaskId.None? ==> Expand(job.arrayTaskRange.value).Ok?
  }

  predicate AllParse(jobs: seq<JobSummary>) {
    forall j | j in jobs :: Parses(j)
  }

  /** The copy of a range record that stands for one of its tasks. */
  function Synthetic(job: JobSummary, id: int): Task {
    Task(job.(arrayTaskId := Some(id), arrayTaskRange := None), id, true)
  }

  function SyntheticTasks(job: JobSummary, ids: seq<int>): seq<Task> {
    seq(|ids|, i requires 0 <= i < |ids| => Synthetic(job, ids[i]))
  }

  /** The tasks one member record stands for, in the order _add_member appends them. */
  function TasksOf(job: JobSummary): seq<Task> {
    if !job.IsArrayMember() then []
    else if job.arrayTaskId.Some? then [Task(job, job.arrayTaskId.value, false)]
    else match Expand(job.arrayTaskRange.value)
      case ValueError => []
      case Ok(ids) => SyntheticTasks(job, ids)
  }

  /** Those it adds to array aid. */
  function TasksFor(job: JobSummary, aid: int): seq<Task> {
    if IsMember(job, aid) then TasksOf(job) else []
  }

  /** All tasks of array aid, in record order. */
  function Tasks(jobs: seq<JobSummary>, aid: int): seq<Task> {
    FlatMap(jobs, (job: JobSummary) => TasksFor(job, aid))
  }

  function TaskKey(t: Task): Key {
    (t.taskId, 0, 0)
  }

  function SortedTasks(jobs: seq<JobSummary>, aid: int): seq<Task> {
    StableSort(Tasks(jobs, aid), TaskKey)
  }

  // ---------- counts ----------

  function InState(tasks: seq<Task>, state: string): nat {
    |Filter(tasks, (t: Task) => t.job.state == state)|
  }

  /** The states a histogram lists: one per member record, even one with an empty range. */
  function States(jobs: seq<JobSummary>, aid: int): set<string> {
    set j | j in jobs && IsMember(j, aid) :: j.state
  }

  function Histogram(tasks: seq<Task>, states: set<string>): map<string, nat> {
    map s | s in states :: InState(tasks, s)
  }

  /** n more in a state, which may be new to the histogram. */
  function Bump(counts: map<string, nat>, state: string, n: nat): map<string, nat> {
    counts[state := (if state in counts then counts[state] else 0) + n]
  }

  ghost function Total(counts: map<string, nat>): nat
    decreases |counts|
  {
    if counts == map[] then 0
    else
      HasKey(counts);
      var k :| k in counts;
      counts[k] + Total(counts - {k})
  }

  lemma HasKey(counts: map<string, nat>)
    ensures counts == map[] || exists k :: k in counts
  {
  }

  // ---------- collapse ----------

  /** Where a row starts: a plain job, or the first record of an array. */
  datatype Head = Plain(job: JobSummary) | Parent(arrayJobId: int)

  function HeadOf(job: JobSummary): Head {
    if job.IsArrayMember() then Parent(job.arrayJobId.value) else Plain(job)
  }

  /** The unexpanded rows in order of first appearance. */
  function Heads(jobs: seq<JobSummary>): seq<Head> {
    if jobs == [] then []
    else
      var heads := Heads(jobs[..|jobs| - 1]);
      var h := HeadOf(jobs[|jobs| - 1]);
      if h.Parent? && h in heads then heads else heads + [h]
  }

  function FirstMember(jobs: seq<JobSummary>, aid: int): Option<JobSummary> {
    if jobs == [] then None
    else if IsMember(jobs[0], aid) then Some(jobs[0])
    else FirstMember(jobs[1..], aid)
  }

  function ParentRow(jobs: seq<JobSummary>, aid: int, expanded: bool): Row {
    var first := FirstMember(jobs, aid);
    ArrayRow(
      aid,
      if first.Some? then first.value.name else "",
      if first.Some? then first.value.partition else None,
      Histogram(Tasks(jobs, aid), States(jobs, aid)),
      SortedTasks(jobs, aid),
      expanded)
  }

  function TaskRows(aid: int, tasks: seq<Task>): seq<Row> {
    seq(|tasks|, i requires 0 <= i < |tasks| => TaskRow(aid, tasks[i]))
  }

  function RowsOf(jobs: seq<JobSummary>, h: Head, expanded: set<int>): seq<Row> {
    match h
    case Plain(job) => [PlainRow(job)]
    case Parent(aid) =>
      [ParentRow(jobs, aid, aid in expanded)] +
      if aid in expanded then TaskRows(aid, SortedTasks(jobs, aid)) else []
  }

  function Rows(jobs: seq<JobSummary>, heads: seq<Head>, expanded: set<int>): seq<Row> {
    FlatMap(heads, (h: Head) => RowsOf(jobs, h, expanded))
  }

  /** collapse_arrays as a function of the snapshot and the expanded set. */
  function Collapse(jobs: seq<JobSummary>, expanded: set<int>): Result<seq<Row>> {
    if AllParse(jobs) then Ok(Rows(jobs, Heads(jobs), expanded)) else ValueError
  }

  // ---------- cancellability ----------

  function Matches(job: JobSummary, target: CancelTarget): Result<bool> {
    if job.IsTerminal() then Ok(false)
    else if target.arrayTaskId.None? then
      Ok(job.jobId == target.jobId || job.arrayJobId == Some(target.jobId))
    else if job.arrayJobId != Some(target.jobId) then Ok(false)
    else if job.arrayTaskId == target.arrayTaskId then Ok(true)
    else if job.arrayTaskRange.Some? && job.arrayTaskRange.value != "" then
      match Expand(job.arrayTaskRange.value)
      case ValueError => ValueError
      case Ok(ids) => Ok(target.arrayTaskId.value in ids)
    else Ok(false)
  }

  /** target_is_cancellable as a function: the first record that decides, decides. */
  function Cancellable(jobs: seq<JobSummary>, target: CancelTarget): Result<bool> {
    if jobs == [] then Ok(false)
    else
      var m := Matches(jobs[0], target);
      if m == Ok(false) then Cancellable(jobs[1..], target) else m
  }

  method TargetIsCancellable(jobs: seq<JobSummary>, target: CancelTarget)
    returns (r: Result<bool>)
    ensures r == Cancellable(jobs, target)
  {
    for k := 0 to |jobs|
      invariant Cancellable(jobs, target) == Cancellable(jobs[k..], target)
    {
      var job := jobs[k];
      assert jobs[k..][1..] == jobs[k + 1..];
      if job.IsTerminal() {
        continue;
      }
      if target.arrayTaskId.None? {
        if job.jobId == target.jobId || job.arrayJobId == Some(target.jobId) {
          return Ok(true);
        }
        continue;
      }
      if job.arrayJobId != Some(target.jobId) {
        continue;
      }
      if job.arrayTaskId == target.arrayTaskId {
        return Ok(true);
      }
      if job.arrayTaskRange.Some? && job.arrayTaskRange.value != "" {
        var ids := ExpandTaskRange(job.arrayTaskRange.value);
        if ids.ValueError? {
          return ValueError;
        }
        if target.arrayTaskId.value in ids.value {
          return Ok(true);
        }
      }
    }
    return Ok(false);
  }

  // ---------- the loops ----------

  /** The parent row while it is being filled: counts and tasks are updated in place. */
  class ArrayParent {
    const arrayJobId: int
    const name: string
    const partition: Option<string>
    const expanded: bool
    var counts: map<string, nat>
    var tasks: seq<Task>

    constructor (aid: int, name: string, partition: Option<string>, expanded: bool)
      ensures arrayJobId == aid && this.name == name && this.partition == partition
      ensures this.expanded == expanded && counts == map[] && tasks == []
    {
      arrayJobId, this.name, this.partition, this.expanded := aid, name, partition, expanded;
      counts, tasks := map[], [];
    }

    /** The parent holds the tasks and the histogram of the given records. */
    ghost predicate Holds(jobs: seq<JobSummary>)
      reads this
    {
      && tasks == Tasks(jobs, arrayJobId)
      && counts == Histogram(tasks, States(jobs, arrayJobId))
    }

    /** _add_member: appends the record's tasks and adds them to its state's count. */
    method AddMember(job: JobSummary) returns (ok: bool)
      requires IsMember(job, arrayJobId)
      modifies this
      ensures ok == Parses(job)
      ensures !ok ==> tasks == old(tasks) && counts == old(counts)
      ensures ok ==> tasks == old(tasks) + TasksOf(job)
      ensures ok ==> counts == Bump(old(counts), job.state, |TasksOf(job)|)
    {
      TasksOfMember(job);
      if job.arrayTaskId.Some? {
        var had := if job.state in counts then counts[job.state] else 0;
        counts := counts[job.state := had + 1];
        tasks := tasks + [Task(job, job.arrayTaskId.value, false)];
        return true;
      }
      var ids := ExpandTaskRange(job.arrayTaskRange.value);
      if ids.ValueError? {
        return false;
      }
      AddRange(job, ids.value);
      return true;
    }

    /** The ids of a range record. */
    method AddRange(job: JobSummary, ids: seq<int>)
      modifies this
      ensures tasks == old(tasks) + SyntheticTasks(job, ids)
      ensures counts == Bump(old(counts), job.state, |ids|)
    {
      var had := if job.state in counts then counts[job.state] else 0;
      counts := counts[job.state := had + |ids|];
      AppendSynthetic(job, ids);
    }

    /** One task per id of a range record. */
    method AppendSynthetic(job: JobSummary, ids: seq<int>)
      modifies this`tasks
      ensures tasks == old(tasks) + SyntheticTasks(job, ids)
    {
      for i := 0 to |ids|
        invariant tasks == old(tasks) + SyntheticTasks(job, ids)[..i]
      {
        tasks := tasks + [Synthetic(job, ids[i])];
      }
    }

    method SortTasks()
      modifies this
      ensures IsStableSort(tasks, old(tasks), TaskKey) && multiset(tasks) == multiset(old(tasks))
      ensures counts == old(counts)
    {
      StableSortCorrect(tasks, TaskKey);
      tasks := StableSort(tasks, TaskKey);
    }
  }

  lemma HistogramStep(tasks: seq<Task>, states: set<string>, more: seq<Task>, state: string)
    requires forall t | t in more :: t.job.state == state
    requires state in states || InState(tasks, state) == 0
    ensures Histogram(tasks + more, states + {state})
         == Bump(Histogram(tasks, states), state, |more|)
  {
    forall s ensures InState(tasks + more, s) == InState(tasks, s) + if s == state then |more| else 0 {
      FilterConcat(tasks, more, (t: Task) => t.job.state == s);
      if s == state {
        FilterAll(more, (t: Task) => t.job.state == s);
      } else {
        FilterNone(more, (t: Task) => t.job.state == s);
      }
    }
  }

  /** Every task carries the state of a member record. */
  lemma TaskStates(jobs: seq<JobSummary>, aid: int)
    ensures forall t | t in Tasks(jobs, aid) :: t.job.state in States(jobs, aid)
  {
    forall t | t in Tasks(jobs, aid) ensures t.job.state in States(jobs, aid) {
      FlatMapElement(jobs, (job: JobSummary) => TasksFor(job, aid), t);
      var job :| job in jobs && t in TasksFor(job, aid);
      SameState(job);
    }
  }

  lemma SameState(job: JobSummary)
    ensures forall t | t in TasksOf(job) :: t.job.state == job.state
  {
  }

  lemma TasksSnoc(jobs: seq<JobSummary>, job: JobSummary, aid: int)
    ensures Tasks(jobs + [job], aid) == Tasks(jobs, aid) + TasksFor(job, aid)
  {
  }

  /** What one more record does to an array's tasks, states and first record. */
  lemma RecordStep(jobs: seq<JobSummary>, k: nat, aid: int)
    requires k < |jobs|
    ensures Tasks(jobs[..k + 1], aid) == Tasks(jobs[..k], aid) + TasksFor(jobs[k], aid)
    ensures States(jobs[..k + 1], aid) ==
            States(jobs[..k], aid) + if IsMember(jobs[k], aid) then {jobs[k].state} else {}
    ensures FirstMember(jobs[..k + 1], aid) ==
            if FirstMember(jobs[..k], aid).None? && IsMember(jobs[k], aid) then Some(jobs[k])
            else FirstMember(jobs[..k], aid)
  {
    assert jobs[..k + 1] == jobs[..k] + [jobs[k]];
    TasksSnoc(jobs[..k], jobs[k], aid);
    FirstMemberSnoc(jobs[..k], jobs[k], aid);
  }

  lemma {:induction false} FirstMemberSnoc(jobs: seq<JobSummary>, job: JobSummary, aid: int)
    ensures FirstMember(jobs + [job], aid) ==
            if FirstMember(jobs, aid).None? && IsMember(job, aid) then Some(job)
            else FirstMember(jobs, aid)
  {
    if jobs != [] {
      assert (jobs + [job])[1..] == jobs[1..] + [job];
      FirstMemberSnoc(jobs[1..], job, aid);
    }
  }

  lemma {:induction false} FirstMemberExists(jobs: seq<JobSummary>, aid: int)
    ensures FirstMember(jobs, aid).Some? <==> Parent(aid) in Heads(jobs)
  {
    if jobs != [] {
      var init := jobs[..|jobs| - 1];
      FirstMemberExists(init, aid);
      assert jobs == init + [jobs[|jobs| - 1]];
      FirstMemberSnoc(init, jobs[|jobs| - 1], aid);
    }
  }

  lemma {:induction false} HeadsDistinct(jobs: seq<JobSummary>)
    ensures forall i, j | 0 <= i < j < |Heads(jobs)| && Heads(jobs)[i].Parent? ::
              Heads(jobs)[i] != Heads(jobs)[j]
  {
    if jobs != [] {
      HeadsDistinct(jobs[..|jobs| - 1]);
    }
  }

  lemma TasksOfMember(job: JobSummary)
    requires job.IsArrayMember()
    ensures job.arrayTaskId.Some? ==> TasksOf(job) == [Task(job, job.arrayTaskId.value, false)]
    ensures job.arrayTaskId.None? ==>
              match Expand(job.arrayTaskRange.value)
              case ValueError => !Parses(job)
              case Ok(ids) => Parses(job) && TasksOf(job) == SyntheticTasks(job, ids)
  {
  }

  datatype Entry = PlainEntry(job: JobSummary) | ParentEntry(parent: ArrayParent)

  /** The first loop's state after the given records. */
  ghost predicate Filled(entries: seq<Entry>, parents: map<int, ArrayParent>,
                         jobs: seq<JobSummary>, expanded: set<int>)
    reads parents.Values
  {
    && Listed(entries, parents, Heads(jobs))
    && (forall a | a in parents :: FilledParent(parents[a], a, jobs, expanded))
  }

  ghost predicate Listed(entries: seq<Entry>, parents: map<int, ArrayParent>, heads: seq<Head>) {
    && |entries| == |heads|
    && (forall i | 0 <= i < |entries| :: EntryOf(entries[i], heads[i], parents))
    && (forall a :: a in parents <==> Parent(a) in heads)
  }

  lemma ListPlain(entries: seq<Entry>, parents: map<int, ArrayParent>, heads: seq<Head>,
                  job: JobSummary)
    requires Listed(entries, parents, heads)
    ensures Listed(entries + [PlainEntry(job)], parents, heads + [Plain(job)])
  {
  }

  lemma ListParentEntry(entries: seq<Entry>, parents: map<int, ArrayParent>, heads: seq<Head>,
                        parent: ArrayParent)
    requires Listed(entries, parents, heads) && parent.arrayJobId !in parents
    ensures Listed(entries + [ParentEntry(parent)], parents[parent.arrayJobId := parent],
                   heads + [Parent(parent.arrayJobId)])
  {
  }

  ghost predicate EntryOf(e: Entry, h: Head, parents: map<int, ArrayParent>) {
    match e
    case PlainEntry(job) => h == Plain(job)
    case ParentEntry(p) => h == Parent(p.arrayJobId) && p.arrayJobId in parents
                           && parents[p.arrayJobId] == p
  }

  ghost predicate FilledParent(p: ArrayParent, a: int, jobs: seq<JobSummary>, expanded: set<int>)
    reads p
  {
    && p.arrayJobId == a
    && FirstMember(jobs, a).Some?
    && p.name == FirstMember(jobs, a).value.name
    && p.partition == FirstMember(jobs, a).value.partition
    && p.expanded == (a in expanded)
    && p.Holds(jobs)
  }

  /** A record of another array, or a plain job, leaves a parent as it is. */
  lemma FilledParentOther(p: ArrayParent, a: int, jobs: seq<JobSummary>, k: nat,
                          expanded: set<int>)
    requires k < |jobs|
    requires FilledParent(p, a, jobs[..k], expanded) && !IsMember(jobs[k], a)
    ensures FilledParent(p, a, jobs[..k + 1], expanded)
  {
    RecordStep(jobs, k, a);
    assert States(jobs[..k], a) + {} == States(jobs[..k], a);
    assert Tasks(jobs[..k], a) + [] == Tasks(jobs[..k], a);
  }

  /** A new record turns the parent's old fields into its new ones. */
  lemma MemberStep(jobs: seq<JobSummary>, k: nat, a: int)
    requires k < |jobs| && IsMember(jobs[k], a)
    ensures Tasks(jobs[..k + 1], a) == Tasks(jobs[..k], a) + TasksOf(jobs[k])
    ensures Histogram(Tasks(jobs[..k + 1], a), States(jobs[..k + 1], a)) ==
            Bump(Histogram(Tasks(jobs[..k], a), States(jobs[..k], a)), jobs[k].state, |TasksOf(jobs[k])|)
  {
    var tasks, states, state := Tasks(jobs[..k], a), States(jobs[..k], a), jobs[k].state;
    RecordStep(jobs, k, a);
    TaskStates(jobs[..k], a);
    if state !in states {
      FilterNone(tasks, (t: Task) => t.job.state == state);
    }
    SameState(jobs[k]);
    HistogramStep(tasks, states, TasksOf(jobs[k]), state);
  }

  lemma {:induction false} NoMember(jobs: seq<JobSummary>, a: int)
    requires Parent(a) !in Heads(jobs)
    ensures Tasks(jobs, a) == [] && States(jobs, a) == {}
  {
    if jobs != [] {
      var init, last := jobs[..|jobs| - 1], jobs[|jobs| - 1];
      NoMember(init, a);
      assert jobs == init + [last];
      TasksSnoc(init, last, a);
    }
  }

  /** Adds record k to its own array's parent; no other parent changes. */
  method AddRecord(parent: ArrayParent, ghost jobs: seq<JobSummary>, ghost k: nat, job: JobSummary)
    returns (ok: bool)
    requires k < |jobs| && job == jobs[k]
    requires IsMember(job, parent.arrayJobId)
    requires parent.Holds(jobs[..k])
    modifies parent
    ensures ok == Parses(job)
    ensures ok ==> parent.Holds(jobs[..k + 1])
  {
    ok := parent.AddMember(job);
    if ok {
      MemberStep(jobs, k, parent.arrayJobId);
    }
  }

  lemma HeadsStep(jobs: seq<JobSummary>, k: nat)
    requires k < |jobs|
    ensures var heads := Heads(jobs[..k]);
            Heads(jobs[..k + 1]) ==
              if HeadOf(jobs[k]).Parent? && HeadOf(jobs[k]) in heads then heads
              else heads + [HeadOf(jobs[k])]
  {
    assert jobs[..k + 1][..k] == jobs[..k];
  }

  /** Parents that record k does not belong to stay as they are. */
  lemma OthersStay(parents: map<int, ArrayParent>, jobs: seq<JobSummary>, k: nat, expanded: set<int>)
    requires k < |jobs|
    requires forall a | a in parents :: FilledParent(parents[a], a, jobs[..k], expanded)
    ensures forall a | a in parents && !IsMember(jobs[k], a) ::
              FilledParent(parents[a], a, jobs[..k + 1], expanded)
  {
    forall a | a in parents && !IsMember(jobs[k], a)
      ensures FilledParent(parents[a], a, jobs[..k + 1], expanded)
    {
      FilledParentOther(parents[a], a, jobs, k, expanded);
    }
  }

  /** An array's first record is the one that creates its parent. */
  lemma FirstRecord(jobs: seq<JobSummary>, k: nat, aid: int)
    requires k < |jobs| && IsMember(jobs[k], aid)
    ensures FirstMember(jobs[..k + 1], aid) ==
            if Parent(aid) in Heads(jobs[..k]) then FirstMember(jobs[..k], aid) else Some(jobs[k])
    ensures Parent(aid) !in Heads(jobs[..k]) ==>
              Tasks(jobs[..k], aid) == [] && States(jobs[..k], aid) == {}
  {
    RecordStep(jobs, k, aid);
    FirstMemberExists(jobs[..k], aid);
    if Parent(aid) !in Heads(jobs[..k]) {
      NoMember(jobs[..k], aid);
    }
  }

  /** A later record goes to the parent its array has. */
  method FillKnown(ghost entries: seq<Entry>, parents: map<int, ArrayParent>,
                   ghost jobs: seq<JobSummary>, ghost k: nat, job: JobSummary,
                   ghost expanded: set<int>)
    returns (ok: bool)
    requires k < |jobs| && job == jobs[k] && job.IsArrayMember() && job.arrayJobId.value in parents
    requires Filled(entries, parents, jobs[..k], expanded)
    modifies set a | a in parents :: parents[a]
    ensures ok == Parses(job)
    ensures ok ==> Filled(entries, parents, jobs[..k + 1], expanded)
  {
    HeadsStep(jobs, k);
    FirstRecord(jobs, k, job.arrayJobId.value);
    OthersStay(parents, jobs, k, expanded);
    ok := AddRecord(parents[job.arrayJobId.value], jobs, k, job);
  }

  /** The first record creates it. */
  method FillNew(entries: seq<Entry>, parents: map<int, ArrayParent>,
                 ghost jobs: seq<JobSummary>, ghost k: nat, job: JobSummary, expanded: set<int>)
    returns (ok: bool, parent: ArrayParent)
    requires k < |jobs| && job == jobs[k] && job.IsArrayMember() && job.arrayJobId.value !in parents
    requires Filled(entries, parents, jobs[..k], expanded)
    ensures fresh(parent) && parent.arrayJobId == job.arrayJobId.value
    ensures ok == Parses(job)
    ensures ok ==> Filled(entries + [ParentEntry(parent)], parents[parent.arrayJobId := parent],
                          jobs[..k + 1], expanded)
  {
    var aid := job.arrayJobId.value;
    HeadsStep(jobs, k);
    FirstRecord(jobs, k, aid);
    OthersStay(parents, jobs, k, expanded);
    parent := new ArrayParent(aid, job.name, job.partition, aid in expanded);
    assert parent.Holds(jobs[..k]);
    ListParentEntry(entries, parents, Heads(jobs[..k]), parent);
    ok := AddRecord(parent, jobs, k, job);
  }

  method FillMember(entries: seq<Entry>, parents: map<int, ArrayParent>,
                    ghost jobs: seq<JobSummary>, ghost k: nat, job: JobSummary, expanded: set<int>)
    returns (ok: bool, entries': seq<Entry>, parents': map<int, ArrayParent>)
    requires k < |jobs| && job == jobs[k] && job.IsArrayMember()
    requires Filled(entries, parents, jobs[..k], expanded)
    modifies set a | a in parents :: parents[a]
    ensures ok == Parses(job)
    ensures ok ==> Filled(entries', parents', jobs[..k + 1], expanded)
    ensures forall a | a in parents' :: (a in parents && parents'[a] == parents[a]) || fresh(parents'[a])
  {
    var aid := job.arrayJobId.value;
    if aid in parents {
      ok := FillKnown(entries, parents, jobs, k, job, expanded);
      return ok, entries, parents;
    }
    var parent: ArrayParent;
    ok, parent := FillNew(entries, parents, jobs, k, job, expanded);
    return ok, entries + [ParentEntry(parent)], parents[aid := parent];
  }

  lemma ParseStep(jobs: seq<JobSummary>, k: nat)
    requires k < |jobs| && AllParse(jobs[..k])
    ensures AllParse(jobs[..k + 1]) <==> Parses(jobs[k])
    ensures AllParse(jobs) ==> Parses(jobs[k])
  {
    assert jobs[..k + 1] == jobs[..k] + [jobs[k]];
  }

  /** A plain job gets an entry of its own. */
  lemma FillPlain(entries: seq<Entry>, parents: map<int, ArrayParent>, jobs: seq<JobSummary>, k: nat,
                  expanded: set<int>)
    requires k < |jobs| && !jobs[k].IsArrayMember()
    requires Filled(entries, parents, jobs[..k], expanded)
    ensures Filled(entries + [PlainEntry(jobs[k])], parents, jobs[..k + 1], expanded)
  {
    HeadsStep(jobs, k);
    OthersStay(parents, jobs, k, expanded);
    ListPlain(entries, parents, Heads(jobs[..k]), jobs[k]);
  }

  /** The first loop: one entry per row, one parent object per array. */
  method FillParents(jobs: seq<JobSummary>, expanded: set<int>)
    returns (ok: bool, entries: seq<Entry>, parents: map<int, ArrayParent>)
    ensures ok == AllParse(jobs)
    ensures forall a | a in parents :: fresh(parents[a])
    ensures ok ==> Filled(entries, parents, jobs, expanded)
  {
    entries, parents := [], map[];
    for k := 0 to |jobs|
      invariant AllParse(jobs[..k])
      invariant forall a | a in parents :: fresh(parents[a])
      invariant Filled(entries, parents, jobs[..k], expanded)
    {
      var job := jobs[k];
      ParseStep(jobs, k);
      if job.IsArrayMember() {
        ok, entries, parents := FillMember(entries, parents, jobs, k, job, expanded);
        if !ok {
          return;
        }
      } else {
        FillPlain(entries, parents, jobs, k, expanded);
        entries := entries + [PlainEntry(job)];
      }
    }
    assert jobs[..|jobs|] == jobs;
    return true, entries, parents;
  }

  /** The second loop sorts each parent's tasks in place and lists the rows. */
  method CollapseArrays(jobs: seq<JobSummary>, expanded: set<int>) returns (r: Result<seq<Row>>)
    ensures r == Collapse(jobs, expanded)
  {
    var ok, entries, parents := FillParents(jobs, expanded);
    if !ok {
      return ValueError;
    }
    ghost var heads := Heads(jobs);
    HeadsDistinct(jobs);
    var out: seq<Row> := [];
    for i := 0 to |entries|
      invariant out == Rows(jobs, heads[..i], expanded)
      invariant forall j | i <= j < |entries| && entries[j].ParentEntry? ::
                  FilledParent(entries[j].parent, entries[j].parent.arrayJobId, jobs, expanded)
    {
      assert heads[..i + 1][..i] == heads[..i];
      match entries[i] {
        case PlainEntry(job) =>
          out := out + [PlainRow(job)];
        case ParentEntry(parent) =>
          var listed := ListParent(parent, jobs, expanded);
          out := out + listed;
      }
    }
    assert heads[..|entries|] == heads;
    return Ok(out);
  }

  method ListParent(parent: ArrayParent, ghost jobs: seq<JobSummary>, ghost expanded: set<int>)
    returns (rows: seq<Row>)
    requires FilledParent(parent, parent.arrayJobId, jobs, expanded)
    modifies parent
    ensures rows == RowsOf(jobs, Parent(parent.arrayJobId), expanded)
  {
    ghost var filled := parent.tasks;
    parent.SortTasks();
    StableSortIs(filled, parent.tasks, TaskKey);
    var row := ArrayRow(parent.arrayJobId, parent.name, parent.partition, parent.counts,
                        parent.tasks, parent.expanded);
    assert row == ParentRow(jobs, parent.arrayJobId, parent.expanded);
    rows := [row] + if parent.expanded then TaskRows(parent.arrayJobId, parent.tasks) else [];
  }
}
