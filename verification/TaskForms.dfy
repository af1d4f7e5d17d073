/**
 Slurm reports a task either inside a range record or as a record of its own, and switches while
 an array starts. Neither the parent rows nor the cancel check may notice.
 */
module TaskForms {
  import opened Wrappers
  import opened Text
  import opened Sorting
  import opened TaskRanges
  import opened Jobs
  import opened Arrays
  import opened ArrayLaws

  // ---------- what a normalized record stands for ----------

  /** The record that normalization makes of these reported fields. */
  ghost predicate NormalizedFrom(job: JobSummary, arrayId: Option<int>, waiting: Option<string>,
                                 taskId: Option<int>)
  {
    ArrayFields(arrayId, waiting, taskId) == Ok((job.arrayJobId, job.arrayTaskId, job.arrayTaskRange))
  }

  function TaskIds(tasks: seq<Task>): seq<int> {
    seq(|tasks|, i requires 0 <= i < |tasks| => tasks[i].taskId)
  }

  /** Without an array id the record is a plain job. */
  lemma PlainReported(job: JobSummary, waiting: Option<string>, taskId: Option<int>)
    requires NormalizedFrom(job, None, waiting, taskId)
    ensures job.arrayJobId.None? && job.arrayTaskId.None? && job.arrayTaskRange.None?
    ensures !job.IsArrayMember() && TasksOf(job) == []
  {
  }

  /** With no text waiting it is the reported task, or task 0 when none is reported. */
  lemma TaskReported(job: JobSummary, arrayId: int, waiting: Option<string>, taskId: Option<int>)
    requires waiting == None || waiting == Some("")
    requires NormalizedFrom(job, Some(arrayId), waiting, taskId)
    ensures job.arrayJobId == Some(arrayId) && job.arrayTaskRange.None?
    ensures TaskIds(TasksOf(job)) == [if taskId.Some? then taskId.value else 0]
  {
  }

  /** A controller's text, whatever task id comes with it, is exactly the tasks the text names. */
  lemma RangeReported(job: JobSummary, arrayId: int, text: string, taskId: Option<int>, ids: seq<int>)
    requires text != "" && !("0x" <= text) && !("0X" <= text)
    requires NormalizedFrom(job, Some(arrayId), Some(text), taskId)
    requires Expand(text) == Ok(ids)
    ensures job.arrayJobId == Some(arrayId) && job.arrayTaskId.None?
    ensures job.arrayTaskRange == Some(text)
    ensures TaskIds(TasksOf(job)) == ids
  {
  }

  /** Such a text is never refused at this point. */
  lemma RangeAccepted(arrayId: int, text: string, taskId: Option<int>)
    requires !("0x" <= text) && !("0X" <= text)
    ensures ArrayFields(Some(arrayId), Some(text), taskId).Ok?
  {
  }

  /** A bitmask is exactly its set bits; an empty one counts as no text. */
  lemma MaskReported(job: JobSummary, arrayId: int, bits: nat, taskId: Option<int>)
    requires NormalizedFrom(job, Some(arrayId), Some("0x" + Digits(bits, 16)), taskId)
    ensures job.arrayJobId == Some(arrayId)
    ensures bits > 0 ==> job.arrayTaskId.None? && TaskIds(TasksOf(job)) == SetBits(bits)
    ensures bits == 0 ==>
              job.arrayTaskRange.None?
              && TaskIds(TasksOf(job)) == [if taskId.Some? then taskId.value else 0]
  {
    if bits > 0 {
      ArrayFieldsNormal(job, Some(arrayId), Some("0x" + Digits(bits, 16)), taskId);
    } else {
      ParseHexText(0);
      assert SetBits(0) == [] && Runs([]) == [] && RunTerms([]) == [] && TermsText([]) == "";
    }
  }

  /** It is accepted, and a text after 0x that is no hexadecimal number is an error. */
  lemma MaskAcceptedIff(arrayId: int, text: string, taskId: Option<int>)
    requires "0x" <= text || "0X" <= text
    ensures ArrayFields(Some(arrayId), Some(text), taskId).Ok? <==> ParseInt(text, 16).Some?
  {
  }

  // ---------- one range record against one record per task ----------

  ghost predicate RangeRecord(range: JobSummary, ids: seq<int>) {
    && range.arrayJobId.Some? && range.arrayTaskId.None? && range.arrayTaskRange.Some?
    && Expand(range.arrayTaskRange.value) == Ok(ids)
  }

  /** recs are task records of the range's array, in its state, one per id in order. */
  ghost predicate SplitsInto(range: JobSummary, ids: seq<int>, recs: seq<JobSummary>) {
    && RangeRecord(range, ids)
    && |recs| == |ids|
    && forall i | 0 <= i < |recs| ::
         && recs[i].arrayJobId == range.arrayJobId
         && recs[i].state == range.state
         && recs[i].arrayTaskId == Some(ids[i])
         && recs[i].arrayTaskRange.None?
  }

  /** What the table shows of a task: its id and its state. */
  function Pair(t: Task): (int, string) {
    (t.taskId, t.job.state)
  }

  function Pairs(tasks: seq<Task>): seq<(int, string)> {
    seq(|tasks|, i requires 0 <= i < |tasks| => Pair(tasks[i]))
  }

  lemma PairsCons(t: Task, s: seq<Task>)
    ensures Pairs([t] + s) == [Pair(t)] + Pairs(s)
  {
  }

  lemma {:induction false} InsertPairs(x: Task, y: Task, a: seq<Task>, b: seq<Task>)
    requires Pair(x) == Pair(y) && Pairs(a) == Pairs(b)
    ensures Pairs(Insert(x, a, TaskKey)) == Pairs(Insert(y, b, TaskKey))
  {
    assert |a| == |Pairs(a)| == |b|;
    PairsCons(x, a);
    PairsCons(y, b);
    if a != [] {
      assert Pair(a[0]) == Pairs(a)[0] == Pair(b[0]);
      assert Pairs(a[1..]) == Pairs(a)[1..] == Pairs(b[1..]);
      InsertPairs(x, y, a[1..], b[1..]);
      PairsCons(a[0], Insert(x, a[1..], TaskKey));
      PairsCons(b[0], Insert(y, b[1..], TaskKey));
    }
  }

  lemma {:induction false} SortPairs(a: seq<Task>, b: seq<Task>)
    requires Pairs(a) == Pairs(b)
    ensures Pairs(StableSort(a, TaskKey)) == Pairs(StableSort(b, TaskKey))
  {
    assert |a| == |Pairs(a)| == |b|;
    if a != [] {
      assert Pair(a[0]) == Pairs(a)[0] == Pair(b[0]);
      assert Pairs(a[1..]) == Pairs(a)[1..] == Pairs(b[1..]);
      SortPairs(a[1..], b[1..]);
      InsertPairs(a[0], b[0], StableSort(a[1..], TaskKey), StableSort(b[1..], TaskKey));
    }
  }

  lemma {:induction false} InStatePairs(a: seq<Task>, b: seq<Task>, state: string)
    requires Pairs(a) == Pairs(b)
    ensures InState(a, state) == InState(b, state)
  {
    assert |a| == |Pairs(a)| == |b|;
    if a != [] {
      assert Pair(a[0]) == Pairs(a)[0] == Pair(b[0]);
      assert Pairs(a[1..]) == Pairs(a)[1..] == Pairs(b[1..]);
      InStatePairs(a[1..], b[1..], state);
    }
  }

  lemma {:induction false} TasksOfRecords(recs: seq<JobSummary>, aid: int)
    requires forall r | r in recs :: r.arrayJobId == Some(aid) && r.arrayTaskId.Some?
    ensures |Tasks(recs, aid)| == |recs|
    ensures forall i | 0 <= i < |recs| ::
              Tasks(recs, aid)[i] == Task(recs[i], recs[i].arrayTaskId.value, false)
    ensures forall other | other != aid :: Tasks(recs, other) == []
  {
    if recs != [] {
      var init, last := recs[..|recs| - 1], recs[|recs| - 1];
      TasksOfRecords(init, aid);
      assert recs == init + [last];
      TasksSnoc(init, last, aid);
      forall other | other != aid ensures Tasks(recs, other) == [] {
        TasksSnoc(init, last, other);
      }
    }
  }

  lemma TasksOne(job: JobSummary, aid: int)
    ensures Tasks([job], aid) == TasksFor(job, aid)
  {
    FlatMapOne(job, (j: JobSummary) => TasksFor(j, aid));
  }

  lemma RangeTasks(range: JobSummary, ids: seq<int>, aid: int)
    requires RangeRecord(range, ids)
    ensures TasksFor(range, aid) ==
            if range.arrayJobId == Some(aid) then SyntheticTasks(range, ids) else []
  {
  }

  lemma SyntheticPairs(range: JobSummary, ids: seq<int>, tasks: seq<Task>)
    requires |tasks| == |ids|
    requires forall i | 0 <= i < |ids| ::
               tasks[i].taskId == ids[i] && tasks[i].job.state == range.state
    ensures Pairs(SyntheticTasks(range, ids)) == Pairs(tasks)
  {
  }

  /** In the array's task list, the range and its split look the same. */
  lemma SplitPairs(range: JobSummary, ids: seq<int>, recs: seq<JobSummary>, aid: int)
    requires SplitsInto(range, ids, recs)
    ensures Pairs(Tasks([range], aid)) == Pairs(Tasks(recs, aid))
  {
    TasksOne(range, aid);
    RangeTasks(range, ids, aid);
    TasksOfRecords(recs, range.arrayJobId.value);
    if range.arrayJobId == Some(aid) {
      SyntheticPairs(range, ids, Tasks(recs, aid));
    }
  }

  lemma {:induction false} SplitHeads(pre: seq<JobSummary>, recs: seq<JobSummary>, h: Head)
    requires recs != [] && h.Parent? && forall r | r in recs :: HeadOf(r) == h
    ensures Heads(pre + recs) == if h in Heads(pre) then Heads(pre) else Heads(pre) + [h]
  {
    var init, last := recs[..|recs| - 1], recs[|recs| - 1];
    assert (pre + recs)[..|pre + recs| - 1] == pre + init;
    if init == [] {
      assert pre + init == pre;
    } else {
      SplitHeads(pre, init, h);
    }
  }

  lemma SplitStates(pre: seq<JobSummary>, range: JobSummary, post: seq<JobSummary>,
                    ids: seq<int>, recs: seq<JobSummary>, aid: int)
    requires SplitsInto(range, ids, recs) && ids != []
    ensures States(pre + [range] + post, aid) == States(pre + recs + post, aid)
  {
  }

  lemma SplitTasks(pre: seq<JobSummary>, range: JobSummary, post: seq<JobSummary>,
                   ids: seq<int>, recs: seq<JobSummary>, aid: int)
    requires SplitsInto(range, ids, recs)
    ensures Pairs(Tasks(pre + [range] + post, aid)) == Pairs(Tasks(pre + recs + post, aid))
  {
    TasksConcat(pre + [range], post, aid);
    TasksConcat(pre, [range], aid);
    TasksConcat(pre + recs, post, aid);
    TasksConcat(pre, recs, aid);
    SplitPairs(range, ids, recs, aid);
    PairsConcat(pre, [range], post, recs, aid);
  }

  lemma SplitRowOrder(pre: seq<JobSummary>, range: JobSummary, post: seq<JobSummary>,
                      ids: seq<int>, recs: seq<JobSummary>)
    requires SplitsInto(range, ids, recs) && ids != []
    ensures Heads(pre + [range] + post) == Heads(pre + recs + post)
    ensures AllParse(pre + [range] + post) == AllParse(pre + recs + post)
  {
    SplitHeads(pre, recs, HeadOf(range));
    SplitHeads(pre, [range], HeadOf(range));
    HeadsConcat(pre + [range], pre + recs, post);
    ParseConcat(pre + [range], post);
    ParseConcat(pre, [range]);
    ParseConcat(pre + recs, post);
    ParseConcat(pre, recs);
  }

  /** Replacing a non-empty range record in place by one record per task keeps the rows in place
      and changes neither any array's histogram nor its sorted list of task ids and states. */
  lemma SplitKeepsRows(pre: seq<JobSummary>, range: JobSummary, post: seq<JobSummary>,
                       ids: seq<int>, recs: seq<JobSummary>, aid: int)
    requires SplitsInto(range, ids, recs) && ids != []
    ensures var before, after := pre + [range] + post, pre + recs + post;
            && Heads(before) == Heads(after)
            && AllParse(before) == AllParse(after)
            && Pairs(SortedTasks(before, aid)) == Pairs(SortedTasks(after, aid))
            && ParentRow(before, aid, false).counts == ParentRow(after, aid, false).counts
  {
    var before, after := pre + [range] + post, pre + recs + post;
    SplitRowOrder(pre, range, post, ids, recs);
    SplitTasks(pre, range, post, ids, recs, aid);
    SortPairs(Tasks(before, aid), Tasks(after, aid));
    SplitStates(pre, range, post, ids, recs, aid);
    forall s ensures InState(Tasks(before, aid), s) == InState(Tasks(after, aid), s) {
      InStatePairs(Tasks(before, aid), Tasks(after, aid), s);
    }
  }

  lemma PairsAppend(a: seq<Task>, b: seq<Task>)
    ensures Pairs(a + b) == Pairs(a) + Pairs(b)
  {
  }

  lemma PairsConcat(pre: seq<JobSummary>, x: seq<JobSummary>, post: seq<JobSummary>,
                    y: seq<JobSummary>, aid: int)
    requires Pairs(Tasks(x, aid)) == Pairs(Tasks(y, aid))
    ensures Pairs(Tasks(pre, aid) + Tasks(x, aid) + Tasks(post, aid))
         == Pairs(Tasks(pre, aid) + Tasks(y, aid) + Tasks(post, aid))
  {
    var p, a, b, q := Tasks(pre, aid), Tasks(x, aid), Tasks(y, aid), Tasks(post, aid);
    PairsAppend(p, a);
    PairsAppend(p, b);
    PairsAppend(p + a, q);
    PairsAppend(p + b, q);
  }

  // ---------- the cancel check on both forms ----------

  lemma {:induction false} CancellableTasks(recs: seq<JobSummary>, t: CancelTarget)
    requires forall r | r in recs :: r.arrayTaskId.Some? && r.arrayTaskRange.None?
    ensures Cancellable(recs, t) == Ok(exists r :: r in recs && Matches(r, t) == Ok(true))
  {
    if recs != [] {
      CancellableTasks(recs[1..], t);
      assert recs == [recs[0]] + recs[1..];
    }
  }

  lemma SplitMatches(range: JobSummary, ids: seq<int>, recs: seq<JobSummary>, t: CancelTarget)
    requires SplitsInto(range, ids, recs) && ids != []
    requires t.arrayTaskId.Some? || Some(t.jobId) == range.arrayJobId
             || forall r | r in recs :: r.jobId == range.jobId
    ensures Cancellable([range], t) == Cancellable(recs, t)
  {
    CancellableTasks(recs, t);
    ExpandEmpty();
    assert [range][1..] == [];
    assert recs[0] in recs;
    if t.arrayTaskId.Some? && !range.IsTerminal() && range.arrayJobId == Some(t.jobId) {
      var id := t.arrayTaskId.value;
      if id in ids {
        var i :| 0 <= i < |ids| && ids[i] == id;
        assert recs[i] in recs && Matches(recs[i], t) == Ok(true);
      }
      if r :| r in recs && Matches(r, t) == Ok(true) {
        var i :| 0 <= i < |recs| && recs[i] == r;
        assert ids[i] == id;
      }
    }
  }

  /** The same replacement never changes target_is_cancellable: not for a task, not for the whole
      array, and not for any other whole-job target while the records keep the range's job id. */
  lemma SplitKeepsCancellable(pre: seq<JobSummary>, range: JobSummary, post: seq<JobSummary>,
                              ids: seq<int>, recs: seq<JobSummary>, t: CancelTarget)
    requires SplitsInto(range, ids, recs) && ids != []
    requires t.arrayTaskId.Some? || Some(t.jobId) == range.arrayJobId
             || forall r | r in recs :: r.jobId == range.jobId
    ensures Cancellable(pre + [range] + post, t) == Cancellable(pre + recs + post, t)
  {
    SplitMatches(range, ids, recs, t);
    CancellableConcat(pre + [range], post, t);
    CancellableConcat(pre, [range], t);
    CancellableConcat(pre + recs, post, t);
    CancellableConcat(pre, recs, t);
  }

  /** Non-empty is needed: a live range record with no ids keeps its array cancellable, no records
      do not. In any snapshot the two forms agree on the whole array exactly when the range has an id
      or is terminal, or another record answers for the array anyway. */
  lemma EmptyRangeDiffers(pre: seq<JobSummary>, range: JobSummary, post: seq<JobSummary>,
                          ids: seq<int>, recs: seq<JobSummary>, t: CancelTarget)
    requires SplitsInto(range, ids, recs)
    requires t.arrayTaskId.None? && Some(t.jobId) == range.arrayJobId
    ensures Cancellable(pre + [range] + post, t) == Cancellable(pre + recs + post, t)
       <==> ids != [] || range.IsTerminal()
            || Cancellable(pre, t) == Ok(true) || Cancellable(post, t) == Ok(true)
  {
    WholeTarget(pre, t);
    WholeTarget(post, t);
    if ids != [] {
      SplitKeepsCancellable(pre, range, post, ids, recs, t);
    } else {
      assert recs == [];
      EmptySplit(pre, range, post, t);
    }
  }

  lemma LiveAlone(job: JobSummary, t: CancelTarget)
    requires t.arrayTaskId.None? && Some(t.jobId) == job.arrayJobId
    ensures Cancellable([job], t) == if job.IsTerminal() then Ok(false) else Ok(true)
  {
    assert [job][1..] == [];
  }

  lemma EmptySplit(pre: seq<JobSummary>, range: JobSummary, post: seq<JobSummary>, t: CancelTarget)
    requires t.arrayTaskId.None? && Some(t.jobId) == range.arrayJobId
    requires Cancellable(pre, t).Ok?
    ensures Cancellable(pre + [range] + post, t) ==
            if Cancellable(pre, t) == Ok(true) || !range.IsTerminal() then Ok(true)
            else Cancellable(post, t)
    ensures Cancellable(pre + [] + post, t) ==
            if Cancellable(pre, t) == Ok(true) then Ok(true) else Cancellable(post, t)
  {
    LiveAlone(range, t);
    var before := Cancellable(pre, t);
    assert if before.value then before == Ok(true) else before == Ok(false);
    CancellableConcat(pre, [range], t);
    assert Cancellable(pre + [range], t) ==
      if Cancellable(pre, t) == Ok(true) || !range.IsTerminal() then Ok(true) else Ok(false);
    CancellableConcat(pre + [range], post, t);
    assert pre + [] + post == pre + post;
    CancellableConcat(pre, post, t);
  }

  /** Such a record exists: a range text that is only a throttle names no task, and normalization
      lets it through. */
  lemma EmptyRangeExists(aid: int)
    ensures Expand("%4") == Ok([])
    ensures ArrayFields(Some(aid), Some("%4"), None) == Ok((Some(aid), None, Some("%4")))
  {
    ExpandOfTerms([], "%4");
    assert TermsText([]) + "%4" == "%4";
  }

  // ---------- rows and the cancel check agree ----------

  ghost predicate AllExclusive(jobs: seq<JobSummary>) {
    forall j | j in jobs :: j.Exclusive()
  }

  /** Array aid has a live task tid. */
  ghost predicate LiveTask(jobs: seq<JobSummary>, aid: int, tid: int) {
    exists t :: t in Tasks(jobs, aid) && t.taskId == tid && !t.job.IsTerminal()
  }

  lemma SyntheticHas(job: JobSummary, ids: seq<int>, tid: int)
    ensures (exists task :: task in SyntheticTasks(job, ids) && task.taskId == tid
                            && !task.job.IsTerminal())
       <==> tid in ids && !job.IsTerminal()
  {
    var tasks := SyntheticTasks(job, ids);
    assert forall i | 0 <= i < |tasks| ::
             tasks[i].taskId == ids[i] && tasks[i].job.IsTerminal() == job.IsTerminal();
    if tid in ids {
      var i :| 0 <= i < |ids| && ids[i] == tid;
      assert tasks[i] in tasks;
    }
  }

  lemma MatchesTask(job: JobSummary, t: CancelTarget)
    requires Parses(job) && job.Exclusive() && t.arrayTaskId.Some?
    ensures Matches(job, t) == Ok(exists task ::
              task in TasksFor(job, t.jobId) && task.taskId == t.arrayTaskId.value
              && !task.job.IsTerminal())
  {
    if IsMember(job, t.jobId) {
      TasksOfMember(job);
      if job.arrayTaskId.None? {
        ExpandEmpty();
        SyntheticHas(job, Expand(job.arrayTaskRange.value).value, t.arrayTaskId.value);
      } else {
        assert TasksFor(job, t.jobId)[0] in TasksFor(job, t.jobId);
      }
    }
  }

  lemma {:induction false} CancellableIffLive(jobs: seq<JobSummary>, t: CancelTarget)
    requires AllParse(jobs) && AllExclusive(jobs) && t.arrayTaskId.Some?
    ensures Cancellable(jobs, t) == Ok(LiveTask(jobs, t.jobId, t.arrayTaskId.value))
  {
    if jobs != [] {
      var rest := jobs[1..];
      assert jobs == [jobs[0]] + rest;
      CancellableIffLive(rest, t);
      MatchesTask(jobs[0], t);
      TasksConcat([jobs[0]], rest, t.jobId);
      TasksOne(jobs[0], t.jobId);
    }
  }

  /** A task target is cancellable iff the fully expanded table has a live row with that array id
      and task id. */
  lemma TaskTargetIffRow(jobs: seq<JobSummary>, expanded: set<int>, t: CancelTarget)
    requires AllParse(jobs) && AllExclusive(jobs) && t.arrayTaskId.Some?
    requires forall aid | Parent(aid) in Heads(jobs) :: aid in expanded
    ensures Cancellable(jobs, t) == Ok(exists row ::
              && row in Collapse(jobs, expanded).value
              && row.TaskRow? && row.taskArray == t.jobId
              && row.task.taskId == t.arrayTaskId.value && !row.task.job.IsTerminal())
  {
    var rows, aid, tid := Collapse(jobs, expanded).value, t.jobId, t.arrayTaskId.value;
    CancellableIffLive(jobs, t);
    StableSortElements(Tasks(jobs, aid), TaskKey);
    if row :| row in rows && row.TaskRow? && row.taskArray == aid && row.task.taskId == tid
              && !row.task.job.IsTerminal() {
      var h := HeadOfRow(jobs, Heads(jobs), expanded, row);
      assert row.task in Tasks(jobs, aid);
    }
    if task :| task in Tasks(jobs, aid) && task.taskId == tid && !task.job.IsTerminal() {
      TasksHaveParent(jobs, aid, task);
      var sorted := SortedTasks(jobs, aid);
      var i :| 0 <= i < |sorted| && sorted[i] == task;
      var row := TaskRows(aid, sorted)[i];
      assert row in RowsOf(jobs, Parent(aid), expanded);
      FlatMapElement(Heads(jobs), (h: Head) => RowsOf(jobs, h, expanded), row);
    }
  }

  lemma TasksHaveParent(jobs: seq<JobSummary>, aid: int, task: Task)
    requires task in Tasks(jobs, aid)
    ensures Parent(aid) in Heads(jobs)
  {
  }

  lemma {:induction false} WholeTarget(jobs: seq<JobSummary>, t: CancelTarget)
    requires t.arrayTaskId.None?
    ensures Cancellable(jobs, t) == Ok(exists j ::
              j in jobs && !j.IsTerminal() && (j.jobId == t.jobId || j.arrayJobId == Some(t.jobId)))
  {
    if jobs != [] {
      WholeTarget(jobs[1..], t);
      assert jobs == [jobs[0]] + jobs[1..];
    }
  }

  lemma {:induction false} PlainHead(jobs: seq<JobSummary>, job: JobSummary)
    requires Plain(job) in Heads(jobs)
    ensures job in jobs
  {
    if jobs != [] {
      var init, last := jobs[..|jobs| - 1], jobs[|jobs| - 1];
      assert jobs == init + [last];
      if Plain(job) in Heads(init) {
        PlainHead(init, job);
      }
    }
  }

  /** Every row a user can pick from an all-active snapshot is cancellable. */
  lemma OwnTargetCancellable(jobs: seq<JobSummary>, expanded: set<int>, row: Row)
    requires AllParse(jobs) && AllExclusive(jobs) && forall j | j in jobs :: j.IsActive()
    requires row in Collapse(jobs, expanded).value
    ensures Cancellable(jobs, row.Target()) == Ok(true)
  {
    var h := HeadOfRow(jobs, Heads(jobs), expanded, row);
    match row {
      case PlainRow(job) =>
        PlainHead(jobs, job);
        ActiveIsNotTerminal(job.state);
        WholeTarget(jobs, row.Target());
      case ArrayRow(aid, _, _, _, _, _) =>
        ParentIffMember(jobs, aid);
        var i :| 0 <= i < |jobs| && IsMember(jobs[i], aid);
        assert jobs[i] in jobs;
        ActiveIsNotTerminal(jobs[i].state);
        WholeTarget(jobs, row.Target());
      case TaskRow(aid, task) =>
        StableSortElements(Tasks(jobs, aid), TaskKey);
        FlatMapElement(jobs, (job: JobSummary) => TasksFor(job, aid), task);
        var job :| job in jobs && task in TasksFor(job, aid);
        SameState(job);
        ActiveIsNotTerminal(job.state);
        CancellableIffLive(jobs, row.Target());
        assert LiveTask(jobs, aid, task.taskId);
    }
  }
}
