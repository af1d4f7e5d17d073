/**
 PyslurmCore's two list queries: terminal jobs of a half-open window, newest first, and the active
 list in the order the collapse expects. The Slurm loaders are parameters.
 */
module Queries {
  import opened Wrappers
  import opened Sorting
  import opened Jobs
  import opened Arrays
  import opened ArrayLaws

  // ---------- history ----------

  predicate InWindow(j: JobSummary, since: int, until: int) {
    j.IsTerminal() && j.endTime.Some? && since <= j.endTime.value < until
  }

  function Finished(records: seq<JobSummary>, since: int, until: int): seq<JobSummary> {
    Filter(records, (j: JobSummary) => InWindow(j, since, until))
  }

  /** (end_time, job_id) with reverse=True. */
  function HistoryKey(j: JobSummary): Key {
    (if j.endTime.Some? then -j.endTime.value else 0, -j.jobId, 0)
  }

  /** history_jobs as a function of the records slurmdbd returned. */
  function History(records: seq<JobSummary>, since: int, until: int): seq<JobSummary> {
    StableSort(Finished(records, since, until), HistoryKey)
  }

  method HistoryJobs(records: seq<JobSummary>, since: int, until: Option<int>, clock: int)
    returns (jobs: seq<JobSummary>, windowStart: int, windowEnd: int)
    ensures windowStart == since && windowEnd == if until.Some? then until.value else clock
    ensures jobs == History(records, windowStart, windowEnd)
  {
    windowStart, windowEnd := since, if until.Some? then until.value else clock;
    jobs := [];
    for i := 0 to |records|
      invariant jobs == Finished(records[..i], windowStart, windowEnd)
    {
      var summary := records[i];
      assert records[..i + 1] == records[..i] + [summary];
      assert [summary][1..] == [];
      FilterConcat(records[..i], [summary], (j: JobSummary) => InWindow(j, windowStart, windowEnd));
      if !summary.IsTerminal() || summary.endTime.None? {
        continue;
      }
      if windowStart <= summary.endTime.value < windowEnd {
        jobs := jobs + [summary];
      }
    }
    assert records[..|records|] == records;
    jobs := StableSort(jobs, HistoryKey);
  }

  /** Newest first by (end_time, job_id). */
  ghost predicate NewestFirst(jobs: seq<JobSummary>) {
    forall i, k | 0 <= i < k < |jobs| && jobs[i].endTime.Some? && jobs[k].endTime.Some? ::
      jobs[i].endTime.value > jobs[k].endTime.value
      || (jobs[i].endTime == jobs[k].endTime && jobs[i].jobId >= jobs[k].jobId)
  }

  lemma HistoryElements(records: seq<JobSummary>, since: int, until: int)
    ensures multiset(History(records, since, until)) == multiset(Finished(records, since, until))
    ensures forall j :: j in History(records, since, until)
              <==> j in records && j.IsTerminal() && j.endTime.Some? && since <= j.endTime.value < until
  {
    StableSortCorrect(Finished(records, since, until), HistoryKey);
    StableSortElements(Finished(records, since, until), HistoryKey);
  }

  lemma HistoryOrder(records: seq<JobSummary>, since: int, until: int)
    ensures NewestFirst(History(records, since, until))
  {
    var jobs := History(records, since, until);
    StableSortCorrect(Finished(records, since, until), HistoryKey);
    forall i, k | 0 <= i < k < |jobs| && jobs[i].endTime.Some? && jobs[k].endTime.Some?
      ensures jobs[i].endTime.value > jobs[k].endTime.value
              || (jobs[i].endTime == jobs[k].endTime && jobs[i].jobId >= jobs[k].jobId)
    {
      assert KeyLeq(HistoryKey(jobs[i]), HistoryKey(jobs[k]));
    }
  }

  /** A window lists exactly its terminal records, each as often as it is stored. */
  lemma HistoryExact(records: seq<JobSummary>, since: int, until: int)
    ensures forall j :: j in History(records, since, until)
              <==> j in records && j.IsTerminal() && j.endTime.Some? && since <= j.endTime.value < until
    ensures multiset(History(records, since, until)) == multiset(Finished(records, since, until))
    ensures NewestFirst(History(records, since, until))
  {
    HistoryElements(records, since, until);
    HistoryOrder(records, since, until);
  }

  lemma FinishedOfKey(records: seq<JobSummary>, since: int, until: int, k: Key)
    ensures OfKey(Finished(records, since, until), HistoryKey, k)
         == Filter(records, (j: JobSummary) => InWindow(j, since, until) && HistoryKey(j) == k)
  {
    OfKeyFilter(records, (j: JobSummary) => InWindow(j, since, until), HistoryKey, k,
                (j: JobSummary) => InWindow(j, since, until) && HistoryKey(j) == k);
  }

  lemma WindowsOfKey(records: seq<JobSummary>, since: int, mid: int, until: int, k: Key)
    requires since <= mid <= until
    ensures OfKey(Finished(records, since, until), HistoryKey, k)
         == OfKey(Finished(records, mid, until), HistoryKey, k)
          + OfKey(Finished(records, since, mid), HistoryKey, k)
  {
    FinishedOfKey(records, since, until, k);
    FinishedOfKey(records, mid, until, k);
    FinishedOfKey(records, since, mid, k);
    var whole := (j: JobSummary) => InWindow(j, since, until) && HistoryKey(j) == k;
    var newer := (j: JobSummary) => InWindow(j, mid, until) && HistoryKey(j) == k;
    var older := (j: JobSummary) => InWindow(j, since, mid) && HistoryKey(j) == k;
    if k.0 <= -mid {
      FilterNone(records, older);
      FilterSame(records, whole, newer);
    } else {
      FilterNone(records, newer);
      FilterSame(records, whole, older);
    }
  }

  lemma WindowsSorted(store: seq<JobSummary>, since: int, mid: int, until: int)
    ensures SortedBy(History(store, mid, until) + History(store, since, mid), HistoryKey)
  {
    var newer, older := History(store, mid, until), History(store, since, mid);
    StableSortCorrect(Finished(store, mid, until), HistoryKey);
    StableSortCorrect(Finished(store, since, mid), HistoryKey);
    HistoryExact(store, mid, until);
    HistoryExact(store, since, mid);
    forall i, k | 0 <= i < |newer| && 0 <= k < |older|
      ensures KeyLeq(HistoryKey(newer[i]), HistoryKey(older[k]))
    {
      assert newer[i] in newer && older[k] in older;
    }
  }

  /** Adjacent windows concatenate to the window they cover: nothing is repeated, nothing is lost,
      and the order is the one list order. */
  lemma HistoryConcat(store: seq<JobSummary>, since: int, mid: int, until: int)
    requires since <= mid <= until
    ensures History(store, since, until) == History(store, mid, until) + History(store, since, mid)
  {
    var newer, older := History(store, mid, until), History(store, since, mid);
    var both := newer + older;
    StableSortCorrect(Finished(store, mid, until), HistoryKey);
    StableSortCorrect(Finished(store, since, mid), HistoryKey);
    WindowsSorted(store, since, mid, until);
    forall k: Key
      ensures OfKey(both, HistoryKey, k) == OfKey(Finished(store, since, until), HistoryKey, k)
    {
      OfKeyConcat(newer, older, HistoryKey, k);
      assert OfKey(newer, HistoryKey, k) == OfKey(Finished(store, mid, until), HistoryKey, k);
      assert OfKey(older, HistoryKey, k) == OfKey(Finished(store, since, mid), HistoryKey, k);
      WindowsOfKey(store, since, mid, until, k);
    }
    StableSortIs(Finished(store, since, until), both, HistoryKey);
  }

  // ---------- active ----------

  /** (array_job_id or job_id, array_task_id or -1, job_id): zero counts as absent. */
  function ActiveKey(j: JobSummary): Key {
    (RowId(j),
     if j.arrayTaskId.Some? && j.arrayTaskId.value != 0 then j.arrayTaskId.value else -1,
     j.jobId)
  }

  function RowId(j: JobSummary): int {
    if j.arrayJobId.Some? && j.arrayJobId.value != 0 then j.arrayJobId.value else j.jobId
  }

  function Active(summaries: seq<JobSummary>): seq<JobSummary> {
    StableSort(Filter(summaries, (j: JobSummary) => j.IsActive()), ActiveKey)
  }

  /** The active list keeps exactly the active records, each as often as it is reported, in
      ascending key order, records of one key as reported. */
  lemma ActiveExact(summaries: seq<JobSummary>)
    ensures forall j :: j in Active(summaries) <==> j in summaries && j.IsActive()
    ensures forall j :: multiset(Active(summaries))[j] ==
              if j.IsActive() then multiset(summaries)[j] else 0
    ensures SortedBy(Active(summaries), ActiveKey)
    ensures forall k: Key :: OfKey(Active(summaries), ActiveKey, k)
                          == Filter(summaries, (j: JobSummary) => j.IsActive() && ActiveKey(j) == k)
  {
    var active := Filter(summaries, (j: JobSummary) => j.IsActive());
    StableSortCorrect(active, ActiveKey);
    StableSortElements(active, ActiveKey);
    forall j: JobSummary ensures multiset(active)[j] == if j.IsActive() then multiset(summaries)[j] else 0 {
      FilterMultiplicity(summaries, (j: JobSummary) => j.IsActive(), j);
    }
    forall k: Key
      ensures OfKey(active, ActiveKey, k)
           == Filter(summaries, (j: JobSummary) => j.IsActive() && ActiveKey(j) == k)
    {
      OfKeyFilter(summaries, (j: JobSummary) => j.IsActive(), ActiveKey, k,
                  (j: JobSummary) => j.IsActive() && ActiveKey(j) == k);
    }
  }

  method ActiveJobs(summaries: seq<JobSummary>) returns (active: seq<JobSummary>)
    ensures active == Active(summaries)
    ensures forall j :: j in active <==> j in summaries && j.IsActive()
    ensures forall j :: multiset(active)[j] == if j.IsActive() then multiset(summaries)[j] else 0
    ensures IsStableSort(active, Filter(summaries, (j: JobSummary) => j.IsActive()), ActiveKey)
  {
    active := Filter(summaries, (j: JobSummary) => j.IsActive());
    StableSortCorrect(active, ActiveKey);
    ActiveExact(summaries);
    active := StableSort(active, ActiveKey);
  }

  /** Normalized records whose array ids are positive, as Slurm numbers them. */
  ghost predicate Numbered(jobs: seq<JobSummary>) {
    forall j | j in jobs :: j.Normal() && (j.arrayJobId.Some? ==> j.arrayJobId.value > 0)
  }

  /** No two rows want the same id: plain jobs are distinct and none carries an array's id. */
  ghost predicate NoIdClash(jobs: seq<JobSummary>) {
    forall i, k | 0 <= i < k < |jobs| && RowId(jobs[i]) == RowId(jobs[k]) ::
      jobs[i].IsArrayMember() && jobs[k].IsArrayMember()
  }

  ghost predicate StrictlyIncreasing(rows: seq<Row>) {
    forall i, k | 0 <= i < k < |rows| :: rows[i].Id() < rows[k].Id()
  }

  lemma ActiveSorted(summaries: seq<JobSummary>)
    requires Numbered(summaries)
    ensures Numbered(Active(summaries))
    ensures forall i, k | 0 <= i <= k < |Active(summaries)| ::
              RowId(Active(summaries)[i]) <= RowId(Active(summaries)[k])
  {
    var active := Active(summaries);
    StableSortCorrect(Filter(summaries, (j: JobSummary) => j.IsActive()), ActiveKey);
    StableSortElements(Filter(summaries, (j: JobSummary) => j.IsActive()), ActiveKey);
    forall i, k | 0 <= i <= k < |active| ensures RowId(active[i]) <= RowId(active[k]) {
      assert KeyLeq(ActiveKey(active[i]), ActiveKey(active[k]));
    }
  }

  /** Within one array the list ascends by task id, then by job id; pending ranges come first, among
      them, by job id, task 0, which the source's key cannot tell from a range. */
  lemma ActiveWithinArray(summaries: seq<JobSummary>, i: nat, k: nat)
    requires Numbered(summaries) && i < k < |Active(summaries)|
    requires Active(summaries)[i].arrayJobId.Some?
    requires Active(summaries)[i].arrayJobId == Active(summaries)[k].arrayJobId
    requires forall j | j in summaries && j.arrayTaskId.Some? :: j.arrayTaskId.value >= 0
    ensures var a, b := Active(summaries)[i], Active(summaries)[k];
            && (a.arrayTaskId.Some? && b.arrayTaskId.Some? ==>
                  a.arrayTaskId.value < b.arrayTaskId.value
                  || (a.arrayTaskId == b.arrayTaskId && a.jobId <= b.jobId))
            && (a.arrayTaskId.None? && b.arrayTaskId.None? ==> a.jobId <= b.jobId)
            && (a.arrayTaskId.Some? && b.arrayTaskId.None? ==>
                  a.arrayTaskId == Some(0) && a.jobId <= b.jobId)
            && (a.arrayTaskId.None? && b.arrayTaskId == Some(0) ==> a.jobId <= b.jobId)
  {
    var active := Active(summaries);
    ActiveSorted(summaries);
    ActiveExact(summaries);
    assert active[i] in active && active[k] in active;
    assert KeyLeq(ActiveKey(active[i]), ActiveKey(active[k]));
  }

  /** The records of one array stand together unless a plain job shares its id. */
  lemma ActiveContiguous(summaries: seq<JobSummary>, aid: int, i: nat, k: nat, m: nat)
    requires Numbered(summaries) && NoIdClash(Active(summaries))
    requires i < k < m < |Active(summaries)|
    requires IsMember(Active(summaries)[i], aid) && IsMember(Active(summaries)[m], aid)
    ensures IsMember(Active(summaries)[k], aid)
  {
    var active := Active(summaries);
    ActiveSorted(summaries);
    assert active[i] in active && active[k] in active && active[m] in active;
    assert RowId(active[i]) <= RowId(active[k]) <= RowId(active[m]);
  }

  /** The unexpanded table over the active list always ascends, and it ascends strictly exactly
      when no id is wanted by two rows. */
  lemma ActiveRowsAscend(summaries: seq<JobSummary>)
    requires Numbered(summaries) && AllParse(Active(summaries))
    ensures var rows := Collapse(Active(summaries), {}).value;
            && (forall i, k | 0 <= i <= k < |rows| :: rows[i].Id() <= rows[k].Id())
            && (StrictlyIncreasing(rows) <==> NoIdClash(Active(summaries)))
  {
    var active := Active(summaries);
    var rows, at := Collapse(active, {}).value, Openers(active);
    ActiveSorted(summaries);
    CollapseOrder(active);
    forall i | 0 <= i < |rows| ensures rows[i].Id() == RowId(active[at[i]]) {
      assert active[at[i]] in active;
    }
    forall i, k | 0 <= i <= k < |rows| ensures rows[i].Id() <= rows[k].Id() {
      assert i == k || at[i] < at[k];
    }
    if NoIdClash(active) {
      forall i, k | 0 <= i < k < |rows| ensures rows[i].Id() < rows[k].Id() {
        DistinctOpeners(active, at[i], at[k]);
      }
    }
    if StrictlyIncreasing(rows) {
      forall i, k | 0 <= i < k < |active| && RowId(active[i]) == RowId(active[k])
        ensures active[i].IsArrayMember() && active[k].IsArrayMember()
      {
        ClashShows(active, rows, i, k);
      }
    }
  }

  lemma DistinctOpeners(jobs: seq<JobSummary>, i: int, k: int)
    requires Numbered(jobs) && NoIdClash(jobs) && 0 <= i < k < |jobs|
    requires i in Openers(jobs) && k in Openers(jobs)
    ensures RowId(jobs[i]) != RowId(jobs[k])
  {
    OpenersExact(jobs);
    assert jobs[i] in jobs && jobs[k] in jobs;
    assert OpensRow(jobs, k);
    if jobs[k].IsArrayMember() {
      assert !IsMember(jobs[i], jobs[k].arrayJobId.value);
    }
  }

  /** The row a record contributes to. */
  lemma OpenerOf(jobs: seq<JobSummary>, k: nat) returns (o: nat)
    requires Numbered(jobs) && k < |jobs|
    ensures o <= k && o in Openers(jobs) && RowId(jobs[o]) == RowId(jobs[k])
    ensures !jobs[k].IsArrayMember() ==> o == k
    ensures jobs[k].IsArrayMember() ==> jobs[o].IsArrayMember()
    decreases k
  {
    OpenersExact(jobs);
    o := k;
    assert jobs[k] in jobs;
    if !OpensRow(jobs, k) {
      var i :| 0 <= i < k && IsMember(jobs[i], jobs[k].arrayJobId.value);
      assert jobs[i] in jobs;
      o := OpenerOf(jobs, i);
    }
  }

  lemma ClashShows(jobs: seq<JobSummary>, rows: seq<Row>, i: nat, k: nat)
    requires Numbered(jobs) && AllParse(jobs) && rows == Collapse(jobs, {}).value
    requires StrictlyIncreasing(rows)
    requires i < k < |jobs| && RowId(jobs[i]) == RowId(jobs[k])
    ensures jobs[i].IsArrayMember() && jobs[k].IsArrayMember()
  {
    CollapseOrder(jobs);
    var at := Openers(jobs);
    var a := OpenerOf(jobs, i);
    var b := OpenerOf(jobs, k);
    var x :| 0 <= x < |at| && at[x] == a;
    var y :| 0 <= y < |at| && at[y] == b;
    assert jobs[a] in jobs && jobs[b] in jobs;
    assert rows[x].Id() == RowId(jobs[a]) && rows[y].Id() == RowId(jobs[b]);
    assert x == y;
  }
}
