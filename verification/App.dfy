/**
 The non-visual state of SlurmMonitorApp around the Active tab: refresh, freeze, cancel and the
 completion handoff. A step is the code between two awaits; the cursor is an input.
 */
module App {
  import opened Wrappers
  import opened Text
  import opened Sorting
  import opened Jobs
  import opened Arrays
  import opened ArrayLaws
  import opened TaskForms
  import opened RowKeys
  import opened Tables

  datatype Event =
    | RefreshBegin
    | RefreshFails
    | RefreshDone(jobs: seq<JobSummary>)   // the answer of session.active_jobs()
    | Toggle(row: Row)                     // space or enter on a row
    | CancelKey(row: Row)                  // c on a row
    | Confirm(yes: bool)                   // the modal closes
    | PerformCancel(worker: nat)           // a cancel worker gets to run

  datatype App = App(
    snapshot: seq<JobSummary>,
    expanded: set<int>,
    displayed: set<int>,              // displayed_ids
    handoff: set<int>,                // _handoff_done
    rows: seq<Row>,                   // what the table shows
    frozen: bool,
    renderPending: bool,
    inflight: bool,
    pending: Option<CancelTarget>,
    workers: seq<CancelTarget>)       // perform_cancel calls not yet run

  const NEW_APP := App([], {}, {}, {}, [], false, false, false, None, [])

  // ---------- the steps ----------

  function Ids(jobs: seq<JobSummary>): set<int> {
    set j | j in jobs :: j.jobId
  }

  function ActiveOnly(jobs: seq<JobSummary>): seq<JobSummary> {
    Filter(jobs, (j: JobSummary) => j.IsActive())
  }

  /** _render_active. A ValueError leaves everything as it was; a repeated row key leaves the rows placed
      so far, and the rest as it was. */
  function Render(s: App): App {
    match Collapse(s.snapshot, s.expanded)
    case ValueError => s
    case Ok(rows) =>
      var placed := Place(rows);
      var drawn := s.(rows := placed.rows);
      if placed.whole
      then drawn.(displayed := Ids(s.snapshot), handoff := {}, renderPending := false) else drawn
  }

  predicate Renders(s: App) {
    var rows := Collapse(s.snapshot, s.expanded);
    rows.Ok? && DistinctKeys(rows.value)
  }

  function Fetched(s: App, jobs: seq<JobSummary>): App {
    s.(snapshot := ActiveOnly(jobs))
  }

  /** A refresh raises out of _render_active unless the table is frozen. */
  predicate Raises(s: App, jobs: seq<JobSummary>) {
    !s.frozen && !Renders(Fetched(s, jobs))
  }

  /** The ids whose disappearance this refresh hands to history. */
  function Asked(s: App, e: Event): set<int> {
    if e.RefreshDone? && !Raises(s, e.jobs)
    then (s.displayed - Ids(ActiveOnly(e.jobs))) - s.handoff
    else {}
  }

  function Toggled(expanded: set<int>, row: Row): set<int> {
    match row
    case PlainRow(_) => expanded
    case ArrayRow(aid, _, _, _, _, _) => if aid in expanded then expanded - {aid} else expanded + {aid}
    case TaskRow(aid, _) => expanded - {aid}
  }

  predicate Enabled(s: App, e: Event) {
    match e
    case RefreshBegin => true
    case RefreshFails => s.inflight
    case RefreshDone(_) => s.inflight
    case Toggle(row) => row in s.rows
    case CancelKey(row) => row in s.rows
    case Confirm(_) => s.frozen
    case PerformCancel(i) => i < |s.workers|
  }

  ghost function Step(s: App, e: Event): App
    requires Enabled(s, e)
  {
    match e
    case RefreshBegin => s.(inflight := true)
    case RefreshFails => s.(inflight := false)
    case RefreshDone(jobs) =>
      var fetched := Fetched(s, jobs).(inflight := false);
      if Raises(s, jobs) then Render(fetched)
      else
        var shown := if s.frozen then fetched.(renderPending := true) else Render(fetched);
        shown.(handoff := shown.handoff + Asked(s, e))
    case Toggle(row) =>
      if s.frozen || row.PlainRow? then s else Render(s.(expanded := Toggled(s.expanded, row)))
    case CancelKey(row) => if s.frozen then s else s.(pending := Some(row.Target()), frozen := true)
    case Confirm(yes) =>
      var closed := s.(pending := None, frozen := false);
      if s.renderPending && !Renders(s) then Render(closed)
      else
        var shown := if s.renderPending then Render(closed) else closed;
        if yes && s.pending.Some? then shown.(workers := s.workers + [s.pending.value]) else shown
    case PerformCancel(i) => s.(workers := s.workers[..i] + s.workers[i + 1..])
  }

  /** The cancel request a step sends. */
  function Sent(s: App, e: Event): Option<CancelTarget>
    requires Enabled(s, e)
  {
    if e.PerformCancel? && Cancellable(s.snapshot, s.workers[e.worker]) == Ok(true)
    then Some(s.workers[e.worker]) else None
  }

  /** The state that a step's call of _render_active, if it makes one, starts from. */
  function Attempt(s: App, e: Event): Option<App> {
    match e
    case RefreshDone(jobs) => if s.frozen then None else Some(Fetched(s, jobs))
    case Toggle(row) =>
      if s.frozen || row.PlainRow? then None else Some(s.(expanded := Toggled(s.expanded, row)))
    case Confirm(_) => if s.renderPending then Some(s) else None
    case _ => None
  }

  /** The step ran _render_active to its end. */
  predicate Rendered(s: App, e: Event) {
    Attempt(s, e).Some? && Renders(Attempt(s, e).value)
  }

  /** The step ran it as far as the table. */
  predicate Drew(s: App, e: Event) {
    Attempt(s, e).Some? && AllParse(Attempt(s, e).value.snapshot)
  }

  ghost predicate Trace(states: seq<App>, events: seq<Event>) {
    && |states| == |events| + 1
    && states[0] == NEW_APP
    && forall k | 0 <= k < |events| :: StepAt(states, events, k)
  }

  ghost predicate StepAt(states: seq<App>, events: seq<Event>, k: nat)
    requires k < |events| && |states| == |events| + 1
  {
    Enabled(states[k], events[k]) && states[k + 1] == Step(states[k], events[k])
  }

  // ---------- what is on screen ----------

  /** A snapshot renders exactly when its ranges parse, no two rows of the unexpanded table want one
      id, and no expanded array lists a task id twice. */
  lemma RendersIff(s: App)
    ensures Renders(s) <==>
              AllParse(s.snapshot) && NoKeyClash(s.snapshot, Heads(s.snapshot), s.expanded)
  {
    KeysDistinctIff(s.snapshot, Heads(s.snapshot), s.expanded);
  }

  ghost predicate Fresh(s: App) {
    && (forall j | j in s.snapshot :: j.IsActive())
    && (!s.frozen && s.renderPending ==> !Renders(s))
    && (!(s.frozen && s.renderPending) && AllParse(s.snapshot) ==>
          s.rows == Place(Collapse(s.snapshot, s.expanded).value).rows)
    && (!s.renderPending && Renders(s) ==> s.displayed == Ids(s.snapshot))
  }

  lemma RenderDraws(s: App)
    requires AllParse(s.snapshot)
    ensures var t := Render(s);
            && t.rows == Place(Collapse(s.snapshot, s.expanded).value).rows
            && (Renders(s) ==> Collapse(s.snapshot, s.expanded) == Ok(t.rows)
                               && t.displayed == Ids(s.snapshot) && !t.renderPending)
            && (!Renders(s) ==> t == s.(rows := t.rows))
  {
    PlaceWhole(Collapse(s.snapshot, s.expanded).value);
  }

  lemma FreshRefresh(s: App, jobs: seq<JobSummary>)
    requires Fresh(s) && s.inflight
    ensures Fresh(Step(s, RefreshDone(jobs)))
  {
    var fetched := Fetched(s, jobs).(inflight := false);
    if AllParse(fetched.snapshot) {
      RenderDraws(fetched);
    }
  }

  lemma FreshToggle(s: App, row: Row)
    requires Fresh(s) && row in s.rows
    ensures Fresh(Step(s, Toggle(row)))
  {
    var toggled := s.(expanded := Toggled(s.expanded, row));
    if AllParse(toggled.snapshot) {
      RenderDraws(toggled);
    }
  }

  lemma FreshConfirm(s: App, yes: bool)
    requires Fresh(s) && s.frozen
    ensures Fresh(Step(s, Confirm(yes)))
  {
    var closed := s.(pending := None, frozen := false);
    if AllParse(closed.snapshot) {
      RenderDraws(closed);
    }
  }

  lemma FreshStep(s: App, e: Event)
    requires Fresh(s) && Enabled(s, e)
    ensures Fresh(Step(s, e))
  {
    match e {
      case RefreshDone(jobs) => FreshRefresh(s, jobs);
      case Toggle(row) => FreshToggle(s, row);
      case Confirm(yes) => FreshConfirm(s, yes);
      case _ =>
    }
  }

  /** Over every run, while no confirmation is open: if the latest snapshot renders, the table is that
      snapshot collapsed under the expanded set, and the displayed ids are its ids; if only its keys
      clash, the table is as much of it as could be placed. A snapshot that does not render leaves no
      trace once a later one does. */
  lemma {:induction false} ScreenIsSnapshot(states: seq<App>, events: seq<Event>, n: nat)
    requires Trace(states, events) && n <= |events|
    ensures Fresh(states[n])
    ensures var s := states[n];
            && ((!s.frozen || !s.renderPending) && Renders(s) ==>
                  Collapse(s.snapshot, s.expanded) == Ok(s.rows) && s.displayed == Ids(s.snapshot))
            && ((!s.frozen || !s.renderPending) && AllParse(s.snapshot) ==>
                  s.rows == Place(Collapse(s.snapshot, s.expanded).value).rows)
  {
    if n > 0 {
      ScreenIsSnapshot(states, events, n - 1);
      assert StepAt(states, events, n - 1);
      FreshStep(states[n - 1], events[n - 1]);
    }
    if AllParse(states[n].snapshot) {
      PlaceWhole(Collapse(states[n].snapshot, states[n].expanded).value);
    }
  }

  /** The rows were drawn at moment m, and nothing has been drawn since. */
  ghost predicate DrawnSince(states: seq<App>, events: seq<Event>, m: nat, n: nat)
    requires |states| == |events| + 1 && n <= |events|
  {
    && m <= n && (forall q | m <= q < n :: !Drew(states[q], events[q]))
    && AllParse(states[m].snapshot)
    && states[n].rows == Place(Collapse(states[m].snapshot, states[m].expanded).value).rows
  }

  /** The displayed ids are from a render that ended at moment m, and none has ended since. */
  ghost predicate ShownSince(states: seq<App>, events: seq<Event>, m: nat, n: nat)
    requires |states| == |events| + 1 && n <= |events|
  {
    && m <= n && Still(states, events, m, n)
    && Renders(states[m]) && states[n].displayed == Ids(states[m].snapshot)
  }

  lemma AttemptIsNext(s: App, e: Event)
    requires Enabled(s, e) && Attempt(s, e).Some?
    ensures var a, t := Attempt(s, e).value, Step(s, e);
            && t.snapshot == a.snapshot && t.expanded == a.expanded
            && (AllParse(a.snapshot) ==> t.rows == Place(Collapse(a.snapshot, a.expanded).value).rows)
            && (Renders(a) ==> t.displayed == Ids(a.snapshot) && Drew(s, e))
  {
    var a := Attempt(s, e).value;
    if AllParse(a.snapshot) {
      PlaceWhole(Collapse(a.snapshot, a.expanded).value);
    }
  }

  lemma OthersKeepRows(s: App, e: Event)
    requires Enabled(s, e) && !Drew(s, e)
    ensures Step(s, e).rows == s.rows
  {
  }

  /** Only a render that ends changes the displayed ids, and it forgets who was handed over. */
  lemma HandoffStep(s: App, e: Event)
    requires Enabled(s, e)
    ensures var t := Step(s, e);
            if Rendered(s, e) then t.handoff == Asked(s, e) && t.displayed !! Asked(s, e)
            else t.displayed == s.displayed && t.handoff == s.handoff + Asked(s, e)
  {
    match Attempt(s, e) {
      case Some(a) => if AllParse(a.snapshot) { PlaceWhole(Collapse(a.snapshot, a.expanded).value); }
      case None =>
    }
  }

  lemma DrawnStays(states: seq<App>, events: seq<Event>, m: nat, n: nat)
    requires |states| == |events| + 1 && n < |events| && DrawnSince(states, events, m, n)
    requires !Drew(states[n], events[n]) && states[n + 1].rows == states[n].rows
    ensures DrawnSince(states, events, m, n + 1)
  {
  }

  lemma DrawnNext(states: seq<App>, events: seq<Event>, m: nat, n: nat)
    requires Trace(states, events) && n < |events| && m <= n && DrawnSince(states, events, m, n)
    ensures DrawnSince(states, events, if Drew(states[n], events[n]) then n + 1 else m, n + 1)
  {
    assert StepAt(states, events, n);
    if Drew(states[n], events[n]) {
      AttemptIsNext(states[n], events[n]);
    } else {
      OthersKeepRows(states[n], events[n]);
      DrawnStays(states, events, m, n);
    }
  }

  lemma DrewWhole(s: App, e: Event)
    requires Enabled(s, e)
    ensures Drew(s, e) ==> (Renders(Step(s, e)) <==> Rendered(s, e))
    ensures Rendered(s, e) ==> Drew(s, e)
  {
    if Attempt(s, e).Some? {
      AttemptIsNext(s, e);
    }
  }

  lemma NothingDrawn(states: seq<App>, events: seq<Event>)
    requires Trace(states, events)
    ensures DrawnSince(states, events, 0, 0) && ShownSince(states, events, 0, 0) && Renders(states[0])
  {
    assert Collapse([], {}) == Ok([]);
  }

  lemma ShownNext(states: seq<App>, events: seq<Event>, d: nat, n: nat)
    requires Trace(states, events) && n < |events| && d <= n && ShownSince(states, events, d, n)
    ensures ShownSince(states, events, if Rendered(states[n], events[n]) then n + 1 else d, n + 1)
  {
    assert StepAt(states, events, n);
    if Rendered(states[n], events[n]) {
      AttemptIsNext(states[n], events[n]);
    } else {
      HandoffStep(states[n], events[n]);
    }
  }

  /** The last draw and the last render that ended, and whether they are one. */
  ghost predicate LastDraw(states: seq<App>, events: seq<Event>, m: nat, d: nat, n: nat)
    requires |states| == |events| + 1 && n <= |events|
  {
    && d <= m <= n && DrawnSince(states, events, m, n) && ShownSince(states, events, d, n)
    && (d == m <==> Renders(states[m]))
  }

  lemma LastDrawNext(states: seq<App>, events: seq<Event>, m: nat, d: nat, n: nat)
    requires Trace(states, events) && n < |events| && LastDraw(states, events, m, d, n)
    ensures LastDraw(states, events, if Drew(states[n], events[n]) then n + 1 else m,
                     if Rendered(states[n], events[n]) then n + 1 else d, n + 1)
  {
    DrawnNext(states, events, m, n);
    ShownNext(states, events, d, n);
    assert StepAt(states, events, n);
    DrewWhole(states[n], events[n]);
  }

  /** In every reachable state the rows are those of the last draw and the displayed ids those of the
      last render that ended: one and the same moment iff the last draw was whole. */
  lemma {:induction false} RowsWereRendered(states: seq<App>, events: seq<Event>, n: nat)
    returns (m: nat, d: nat)
    requires Trace(states, events) && n <= |events|
    ensures d <= m <= n && DrawnSince(states, events, m, n) && ShownSince(states, events, d, n)
    ensures d == m <==> Renders(states[m])
  {
    if n == 0 {
      m, d := 0, 0;
      NothingDrawn(states, events);
    } else {
      m, d := RowsWereRendered(states, events, n - 1);
      LastDrawNext(states, events, m, d, n - 1);
      m := if Drew(states[n - 1], events[n - 1]) then n else m;
      d := if Rendered(states[n - 1], events[n - 1]) then n else d;
    }
  }

  /** A row that the cancel key can pick is cancellable at that moment, if the latest snapshot parses
      and is normalized. */
  lemma ChosenRowIsLive(states: seq<App>, events: seq<Event>, n: nat, row: Row)
    requires Trace(states, events) && n <= |events|
    requires AllParse(states[n].snapshot) && AllExclusive(states[n].snapshot)
    requires !states[n].frozen && row in states[n].rows
    ensures Cancellable(states[n].snapshot, row.Target()) == Ok(true)
  {
    var s := states[n];
    ScreenIsSnapshot(states, events, n);
    PlaceWhole(Collapse(s.snapshot, s.expanded).value);
    OwnTargetCancellable(s.snapshot, s.expanded, row);
  }

  lemma RowOnScreen(s: App, row: Row)
    requires Fresh(s) && Renders(s) && !s.frozen && row in s.rows && row.ArrayRow?
    ensures Collapse(s.snapshot, s.expanded) == Ok(s.rows) && !s.renderPending
    ensures s.displayed == Ids(s.snapshot)
    ensures Parent(row.arrayJobId) in Heads(s.snapshot)
    ensures row.expanded == (row.arrayJobId in s.expanded)
    ensures row.tasks == SortedTasks(s.snapshot, row.arrayJobId)
  {
    PlaceWhole(Collapse(s.snapshot, s.expanded).value);
    var h := HeadOfRow(s.snapshot, Heads(s.snapshot), s.expanded, row);
  }

  lemma ShownUnder(jobs: seq<JobSummary>, expanded: set<int>, aid: int)
    ensures ShownTasks(Rows(jobs, Heads(jobs), expanded), aid) ==
            if Parent(aid) in Heads(jobs) && aid in expanded then TaskRows(aid, SortedTasks(jobs, aid))
            else []
  {
    HeadsDistinct(jobs);
    ShownTasksOf(jobs, Heads(jobs), expanded, aid);
  }

  /** What a toggle of a parent on screen would render. */
  function AfterToggle(s: App, row: Row): App {
    s.(expanded := Toggled(s.expanded, row))
  }

  /** Folding always renders; opening does iff the array lists no task id twice. */
  lemma ToggleRendersIff(s: App, row: Row)
    requires Fresh(s) && Renders(s) && !s.frozen && row in s.rows && row.ArrayRow?
    ensures Renders(AfterToggle(s, row)) <==> row.expanded || DistinctTasks(row.tasks)
  {
    var t, aid := AfterToggle(s, row), row.arrayJobId;
    var heads := Heads(s.snapshot);
    RowOnScreen(s, row);
    RendersIff(s);
    RendersIff(t);
    var i :| 0 <= i < |heads| && heads[i] == Parent(aid);
    assert OwnTasksDistinct(s.snapshot, heads[i], t.expanded) <==> row.expanded || DistinctTasks(row.tasks);
    forall k | 0 <= k < |heads| && heads[k] != Parent(aid)
      ensures OwnTasksDistinct(s.snapshot, heads[k], t.expanded)
    {
      assert OwnTasksDistinct(s.snapshot, heads[k], s.expanded);
    }
  }

  /** If it renders, toggling a parent changes which task rows are shown for that array only, and
      shows all of its tasks or none. */
  lemma ToggleShows(s: App, row: Row, aid: int)
    requires Fresh(s) && Renders(s) && !s.frozen && row in s.rows && row.ArrayRow?
    requires Renders(AfterToggle(s, row))
    ensures var t := Step(s, Toggle(row));
            && Folded(t.rows) == Folded(s.rows)
            && ShownTasks(t.rows, aid) ==
                 if aid != row.arrayJobId then ShownTasks(s.rows, aid)
                 else if row.expanded then [] else TaskRows(aid, row.tasks)
  {
    var t := Step(s, Toggle(row));
    RowOnScreen(s, row);
    RenderDraws(AfterToggle(s, row));
    FoldRows(s.snapshot, Heads(s.snapshot), s.expanded);
    FoldRows(s.snapshot, Heads(s.snapshot), t.expanded);
    ShownUnder(s.snapshot, s.expanded, aid);
    ShownUnder(s.snapshot, t.expanded, aid);
  }

  /** Toggling a task row folds its array and no other; toggling a plain job does nothing. */
  lemma ToggleTaskFolds(s: App, row: Row, aid: int)
    requires Fresh(s) && Renders(s) && !s.frozen && row in s.rows && row.TaskRow?
    requires Renders(AfterToggle(s, row))
    ensures var t := Step(s, Toggle(row));
            && Folded(t.rows) == Folded(s.rows)
            && ShownTasks(t.rows, aid) == if aid == row.taskArray then [] else ShownTasks(s.rows, aid)
  {
    var t := Step(s, Toggle(row));
    PlaceWhole(Collapse(s.snapshot, s.expanded).value);
    RenderDraws(AfterToggle(s, row));
    FoldRows(s.snapshot, Heads(s.snapshot), s.expanded);
    FoldRows(s.snapshot, Heads(s.snapshot), t.expanded);
    ShownUnder(s.snapshot, s.expanded, aid);
    ShownUnder(s.snapshot, t.expanded, aid);
  }

  lemma TogglePlain(s: App, row: Row)
    requires row in s.rows && (row.PlainRow? || s.frozen)
    ensures Step(s, Toggle(row)) == s
  {
  }

  lemma RenderBack(s: App, t: App)
    requires Renders(s) && Collapse(s.snapshot, s.expanded) == Ok(s.rows)
    requires s.displayed == Ids(s.snapshot) && !s.renderPending
    requires t == s.(rows := t.rows, handoff := t.handoff)
    ensures Render(t) == s.(handoff := {})
  {
    PlaceWhole(s.rows);
  }

  lemma RenderKeeps(s: App)
    requires s.displayed == Ids(s.snapshot) && !s.renderPending
    ensures var t := Render(s); t == s.(rows := t.rows, handoff := t.handoff)
  {
  }

  /** Toggling the same parent again brings the table back, even if opening it did not render. */
  lemma ToggleTwice(s: App, row: Row, again: Row)
    requires Fresh(s) && Renders(s) && !s.frozen && row in s.rows && row.ArrayRow?
    requires again in Step(s, Toggle(row)).rows && again.ArrayRow?
    requires again.arrayJobId == row.arrayJobId
    ensures Step(Step(s, Toggle(row)), Toggle(again)) == s.(handoff := {})
  {
    var t := Step(s, Toggle(row));
    RowOnScreen(s, row);
    RenderKeeps(AfterToggle(s, row));
    assert Toggled(t.expanded, again) == s.expanded;
    RenderBack(s, t.(expanded := s.expanded));
  }

  // ---------- what a refresh brings ----------

  /** The answer of the last refresh that ended, none at first. */
  function LastAnswer(events: seq<Event>): seq<JobSummary> {
    if events == [] then []
    else if events[|events| - 1].RefreshDone? then events[|events| - 1].jobs
    else LastAnswer(events[..|events| - 1])
  }

  lemma SnapshotStep(s: App, e: Event)
    requires Enabled(s, e)
    ensures Step(s, e).snapshot == if e.RefreshDone? then ActiveOnly(e.jobs) else s.snapshot
  {
    match Attempt(s, e) {
      case Some(_) => AttemptIsNext(s, e);
      case None =>
    }
  }

  lemma {:induction false} SnapshotSelects(states: seq<App>, events: seq<Event>, n: nat)
    requires Trace(states, events) && n <= |events|
    ensures Selects(states[n].snapshot, LastAnswer(events[..n]), (j: JobSummary) => j.IsActive())
  {
    var active := (j: JobSummary) => j.IsActive();
    if n == 0 {
      assert SelectsAt([], [], active, []);
    } else {
      SnapshotSelects(states, events, n - 1);
      assert StepAt(states, events, n - 1);
      SnapshotStep(states[n - 1], events[n - 1]);
      assert events[..n][..n - 1] == events[..n - 1];
      if events[n - 1].RefreshDone? {
        FilterSelects(events[n - 1].jobs, active);
      }
    }
  }

  /** Over every run the snapshot is exactly the active records of the last answer, each as often and
      in the order it was reported; and when it renders, the displayed ids are exactly theirs. */
  lemma SnapshotIsAnswer(states: seq<App>, events: seq<Event>, n: nat)
    requires Trace(states, events) && n <= |events|
    ensures var s, answer := states[n], LastAnswer(events[..n]);
            && Selects(s.snapshot, answer, (j: JobSummary) => j.IsActive())
            && ((!s.frozen || !s.renderPending) && Renders(s) ==>
                  forall id :: id in s.displayed <==>
                    exists j :: j in answer && j.IsActive() && j.jobId == id)
  {
    var s, answer := states[n], LastAnswer(events[..n]);
    SnapshotSelects(states, events, n);
    ScreenIsSnapshot(states, events, n);
    SelectedElements(s.snapshot, answer, (j: JobSummary) => j.IsActive());
  }

  lemma SelectedElements(r: seq<JobSummary>, s: seq<JobSummary>, p: JobSummary -> bool)
    requires Selects(r, s, p)
    ensures forall j :: j in r <==> j in s && p(j)
  {
    var at :| SelectsAt(r, s, p, at);
    forall j ensures j in r <==> j in s && p(j) {
      if j in r {
        var i :| 0 <= i < |r| && r[i] == j;
        assert at[i] in at;
      }
      if j in s && p(j) {
        var n :| 0 <= n < |s| && s[n] == j;
        assert n in at;
        var i :| 0 <= i < |at| && at[i] == n;
        assert r[i] == j;
      }
    }
  }

  /** A refresh can always begin and end, one at a time; one that fails changes nothing else. */
  lemma RefreshRuns(s: App, jobs: seq<JobSummary>)
    requires !s.inflight
    ensures var begun := Step(s, RefreshBegin);
            && begun == s.(inflight := true)
            && Enabled(begun, RefreshDone(jobs)) && Enabled(begun, RefreshFails)
            && Step(begun, RefreshFails) == s
            && !Step(begun, RefreshDone(jobs)).inflight
            && Step(begun, RefreshBegin) == begun
  {
  }

  // ---------- cancel targets ----------

  /** While the confirmation is open nothing but its answer changes the rows, what is expanded or
      displayed, or the pending target. */
  lemma FrozenStep(s: App, e: Event)
    requires Enabled(s, e) && s.frozen && !e.Confirm?
    ensures var t := Step(s, e);
            && t.frozen && t.pending == s.pending && t.rows == s.rows
            && t.expanded == s.expanded && t.displayed == s.displayed
  {
  }

  /** The modal opened at step i for this target and has been open ever since, over still rows. */
  ghost predicate OpenSince(states: seq<App>, events: seq<Event>, i: nat, n: nat, target: CancelTarget)
    requires |states| == |events| + 1
  {
    && i < n <= |events|
    && events[i].CancelKey? && !states[i].frozen
    && events[i].row in states[i].rows && events[i].row.Target() == target
    && forall q | i < q <= n ::
         states[q].frozen && states[q].pending == Some(target) && states[q].rows == states[i].rows
  }

  /** ... and was answered yes at step m. */
  ghost predicate ConfirmedAt(states: seq<App>, events: seq<Event>, i: nat, m: nat, target: CancelTarget)
    requires |states| == |events| + 1
  {
    m < |events| && OpenSince(states, events, i, m, target) && events[m] == Confirm(true)
  }

  lemma ConfirmThaws(s: App, yes: bool)
    requires s.frozen
    ensures var t := Step(s, Confirm(yes)); !t.frozen && t.pending.None?
  {
  }

  /** Only the cancel key opens the modal, and it takes the target from a row on screen. */
  ghost predicate FreezesRight(s: App, e: Event, t: App) {
    && t.pending.Some? == t.frozen
    && (s.frozen && t.frozen ==> t.pending == s.pending && t.rows == s.rows)
    && (!s.frozen && t.frozen ==>
          e.CancelKey? && e.row in s.rows && t.pending == Some(e.row.Target()) && t.rows == s.rows)
  }

  lemma FreezeStep(s: App, e: Event)
    requires Enabled(s, e) && s.pending.Some? == s.frozen
    ensures FreezesRight(s, e, Step(s, e))
  {
    if e.Confirm? {
      ConfirmThaws(s, e.yes);
    } else if s.frozen {
      FrozenStep(s, e);
    }
  }

  ghost predicate OpenedBefore(states: seq<App>, events: seq<Event>, n: nat, target: CancelTarget)
    requires |states| == |events| + 1
  {
    exists i :: 0 <= i < n && OpenSince(states, events, i, n, target)
  }

  lemma OpenStays(states: seq<App>, events: seq<Event>, i: nat, n: nat, target: CancelTarget)
    requires |states| == |events| + 1 && n < |events| && OpenSince(states, events, i, n, target)
    requires states[n + 1].frozen && states[n + 1].pending == Some(target)
    requires states[n + 1].rows == states[n].rows
    ensures OpenSince(states, events, i, n + 1, target)
  {
  }

  lemma OpensNow(states: seq<App>, events: seq<Event>, n: nat, target: CancelTarget)
    requires |states| == |events| + 1 && n < |events| && !states[n].frozen
    requires events[n].CancelKey? && events[n].row in states[n].rows && events[n].row.Target() == target
    requires states[n + 1].frozen && states[n + 1].pending == Some(target)
    requires states[n + 1].rows == states[n].rows
    ensures OpenSince(states, events, n, n + 1, target)
  {
  }

  lemma OpenNext(states: seq<App>, events: seq<Event>, n: nat)
    requires |states| == |events| + 1 && n < |events|
    requires FreezesRight(states[n], events[n], states[n + 1])
    requires states[n].pending.Some? == states[n].frozen
    requires states[n].frozen ==> OpenedBefore(states, events, n, states[n].pending.value)
    ensures states[n + 1].frozen ==> OpenedBefore(states, events, n + 1, states[n + 1].pending.value)
  {
    if states[n + 1].frozen {
      var target := states[n + 1].pending.value;
      if states[n].frozen {
        var i :| 0 <= i < n && OpenSince(states, events, i, n, target);
        OpenStays(states, events, i, n, target);
      } else {
        OpensNow(states, events, n, target);
      }
    }
  }

  lemma {:induction false} FrozenHasOpener(states: seq<App>, events: seq<Event>, n: nat)
    requires Trace(states, events) && n <= |events|
    ensures states[n].pending.Some? == states[n].frozen
    ensures states[n].frozen ==> OpenedBefore(states, events, n, states[n].pending.value)
  {
    if n > 0 {
      FrozenHasOpener(states, events, n - 1);
      assert StepAt(states, events, n - 1);
      FreezeStep(states[n - 1], events[n - 1]);
      OpenNext(states, events, n - 1);
    }
  }

  lemma {:induction false} WorkersConfirmed(states: seq<App>, events: seq<Event>, n: nat,
                                            target: CancelTarget)
    requires Trace(states, events) && n <= |events| && target in states[n].workers
    ensures exists i, m :: 0 <= i < m < n && ConfirmedAt(states, events, i, m, target)
  {
    if n > 0 {
      assert StepAt(states, events, n - 1);
      var s, e := states[n - 1], events[n - 1];
      if target in s.workers {
        WorkersConfirmed(states, events, n - 1, target);
        var i, m :| 0 <= i < m < n - 1 && ConfirmedAt(states, events, i, m, target);
        assert ConfirmedAt(states, events, i, m, target);
      } else {
        assert e == Confirm(true) && s.pending == Some(target);
        FrozenHasOpener(states, events, n - 1);
        var i :| 0 <= i < n - 1 && OpenSince(states, events, i, n - 1, target);
        assert ConfirmedAt(states, events, i, n - 1, target);
      }
    }
  }

  /** A cancel is sent only after a yes, with exactly the ids captured from a shown row when the
      modal opened, over rows that did not move meanwhile, and only if the latest snapshot still
      holds the target in a non-terminal state. */
  lemma CancelIsChosenRow(states: seq<App>, events: seq<Event>, k: nat, target: CancelTarget)
    requires Trace(states, events) && k < |events|
    requires Enabled(states[k], events[k]) && Sent(states[k], events[k]) == Some(target)
    ensures Cancellable(states[k].snapshot, target) == Ok(true)
    ensures exists i, m :: 0 <= i < m < k && ConfirmedAt(states, events, i, m, target)
  {
    assert target in states[k].workers;
    WorkersConfirmed(states, events, k, target);
  }

  ghost function Yeses(events: seq<Event>): nat {
    if events == [] then 0
    else Yeses(events[..|events| - 1]) + if events[|events| - 1] == Confirm(true) then 1 else 0
  }

  ghost function SentCount(states: seq<App>, events: seq<Event>): nat
    requires Trace(states, events)
  {
    if events == [] then 0
    else
      var n := |events| - 1;
      assert StepAt(states, events, n);
      TracePrefix(states, events);
      SentCount(states[..n + 1], events[..n])
      + if Sent(states[n], events[n]).Some? then 1 else 0
  }

  lemma TracePrefix(states: seq<App>, events: seq<Event>)
    requires Trace(states, events) && events != []
    ensures Trace(states[..|events|], events[..|events| - 1])
  {
    var n := |events| - 1;
    var ss, es := states[..n + 1], events[..n];
    forall k | 0 <= k < n ensures StepAt(ss, es, k) {
      assert StepAt(states, events, k);
    }
  }

  /** No yes sends two cancels. */
  lemma {:induction false} OneCancelPerYes(states: seq<App>, events: seq<Event>)
    requires Trace(states, events)
    ensures SentCount(states, events) + |states[|events|].workers| <= Yeses(events)
  {
    if events != [] {
      var n := |events| - 1;
      TracePrefix(states, events);
      OneCancelPerYes(states[..n + 1], events[..n]);
      assert StepAt(states, events, n);
    }
  }

  /** A yes is not lost: it queues the captured target if the render it waited for, if any, succeeds;
      a no queues nothing; and the modal is closed either way. */
  lemma AnswerQueues(s: App, yes: bool)
    requires s.frozen && s.pending.Some?
    ensures var t := Step(s, Confirm(yes));
            && !t.frozen && t.pending.None?
            && t.workers == s.workers
                 + if yes && (s.renderPending ==> Renders(s)) then [s.pending.value] else []
  {
  }

  /** A queued target is sent exactly if the snapshot of that moment holds it live, and leaves the
      queue either way. */
  lemma QueuedIsSentIff(s: App, i: nat)
    requires i < |s.workers|
    ensures Sent(s, PerformCancel(i)) ==
            if Cancellable(s.snapshot, s.workers[i]) == Ok(true) then Some(s.workers[i]) else None
    ensures var t := Step(s, PerformCancel(i));
            t == s.(workers := t.workers)
            && multiset(t.workers) == multiset(s.workers) - multiset{s.workers[i]}
  {
    assert s.workers == s.workers[..i] + [s.workers[i]] + s.workers[i + 1..];
  }

  /** From every reachable state: the cancel key on a shown row, a yes, and the worker's turn send
      exactly that row's target, if the snapshot parses and is normalized. */
  lemma YesCancelsRow(states: seq<App>, events: seq<Event>, n: nat, row: Row)
    requires Trace(states, events) && n <= |events|
    requires AllParse(states[n].snapshot) && AllExclusive(states[n].snapshot)
    requires !states[n].frozen && !states[n].renderPending && row in states[n].rows
    ensures var s := states[n];
            var modal := Step(s, CancelKey(row));
            && modal.frozen && modal.pending == Some(row.Target()) && modal.rows == s.rows
            && var closed := Step(modal, Confirm(true));
               && Enabled(closed, PerformCancel(|s.workers|))
               && Sent(closed, PerformCancel(|s.workers|)) == Some(row.Target())
  {
    ChosenRowIsLive(states, events, n, row);
    AnswerQueues(Step(states[n], CancelKey(row)), true);
  }

  // ---------- completion handoff ----------

  /** After a refresh that did not raise, a displayed id that left the snapshot is handed over. */
  lemma RefreshHandsOver(s: App, jobs: seq<JobSummary>)
    requires s.inflight && !Raises(s, jobs)
    ensures var t := Step(s, RefreshDone(jobs));
            && (forall id | id in t.displayed :: id in Ids(t.snapshot) || id in t.handoff)
            && Asked(s, RefreshDone(jobs)) <= t.handoff
            && Asked(s, RefreshDone(jobs)) !! s.handoff
  {
  }

  /** No step from i up to but not including n renders. */
  ghost predicate Still(states: seq<App>, events: seq<Event>, i: nat, n: nat)
    requires |states| == |events| + 1
  {
    n <= |events| && forall q | i <= q < n :: !Rendered(states[q], events[q])
  }

  /** Every id that is displayed and marked as handed over was asked for since the last render. */
  lemma {:induction false} HandoffWasAsked(states: seq<App>, events: seq<Event>, n: nat, id: int)
    requires Trace(states, events) && n <= |events|
    requires id in states[n].handoff && id in states[n].displayed
    ensures exists q :: 0 <= q < n && id in Asked(states[q], events[q]) && Still(states, events, q, n)
  {
    if n > 0 {
      assert StepAt(states, events, n - 1);
      var s, e := states[n - 1], events[n - 1];
      HandoffStep(s, e);
      if id in s.handoff && !Rendered(s, e) {
        HandoffWasAsked(states, events, n - 1, id);
        var q :| 0 <= q < n - 1 && id in Asked(states[q], events[q]) && Still(states, events, q, n - 1);
        assert Still(states, events, q, n);
      } else {
        assert id in Asked(s, e) && Still(states, events, n - 1, n);
      }
    }
  }

  /** The id is not displayed, or it was handed over. */
  ghost predicate Settled(s: App, id: int) {
    id !in s.displayed || id in s.handoff
  }

  lemma SettledStep(s: App, e: Event, id: int)
    requires Enabled(s, e)
    requires id in Asked(s, e) || (Settled(s, id) && !Rendered(s, e))
    ensures Settled(Step(s, e), id)
  {
    HandoffStep(s, e);
  }

  lemma {:induction false} AskedStays(states: seq<App>, events: seq<Event>, i: nat, n: nat, id: int)
    requires Trace(states, events) && i < n <= |events|
    requires id in Asked(states[i], events[i]) && Still(states, events, i + 1, n)
    ensures Settled(states[n], id)
  {
    assert StepAt(states, events, n - 1);
    if n - 1 > i {
      AskedStays(states, events, i, n - 1, id);
      assert !Rendered(states[n - 1], events[n - 1]);
    }
    SettledStep(states[n - 1], events[n - 1], id);
  }

  /** Each displayed id that disappears asks for a history refresh, and between two renders it asks
      exactly once. */
  lemma HandoffOnce(states: seq<App>, events: seq<Event>, j: nat, id: int)
    requires Trace(states, events) && j < |events|
    requires events[j].RefreshDone? && !Raises(states[j], events[j].jobs)
    requires id in states[j].displayed && id !in Ids(ActiveOnly(events[j].jobs))
    ensures exists q :: 0 <= q <= j && id in Asked(states[q], events[q]) && Still(states, events, q, j)
    ensures forall p, q | 0 <= p < q <= j && Still(states, events, p + 1, q) ::
              !(id in Asked(states[p], events[p]) && id in Asked(states[q], events[q]))
  {
    if id in states[j].handoff {
      HandoffWasAsked(states, events, j, id);
    } else {
      assert id in Asked(states[j], events[j]) && Still(states, events, j, j);
    }
    forall p, q | 0 <= p < q <= j && Still(states, events, p + 1, q)
                  && id in Asked(states[p], events[p])
      ensures id !in Asked(states[q], events[q])
    {
      AskedStays(states, events, p, q, id);
    }
  }

  // ---------- the class ----------

  /** How many tasks a histogram counts. */
  method TotalOf(counts: map<string, nat>) returns (n: nat)
    ensures n == Total(counts)
  {
    n := 0;
    var rest := counts;
    while rest != map[]
      invariant n + Total(rest) == Total(counts)
      decreases |rest|
    {
      HasKey(rest);
      var k :| k in rest;
      TotalWithout(rest, k);
      n, rest := n + rest[k], rest - {k};
    }
  }

  /** row.cancel_target. */
  method TargetOf(row: Row) returns (target: CancelTarget)
    ensures target == row.Target()
  {
    match row {
      case PlainRow(job) => target := CancelTarget(job.jobId, None, 1, job.DisplayId());
      case ArrayRow(aid, _, _, counts, _, _) =>
        var n := TotalOf(counts);
        target := CancelTarget(aid, None, n, IntText(aid));
      case TaskRow(aid, t) =>
        target := CancelTarget(aid, Some(t.taskId), 1, IntText(aid) + "_" + IntText(t.taskId));
    }
  }

  class SlurmMonitorApp {
    var snapshot: seq<JobSummary>
    var expanded: set<int>
    var displayed: set<int>
    var handoff: set<int>
    const table: ActiveTable
    var frozen: bool
    var renderPending: bool
    var inflight: bool
    var pending: Option<CancelTarget>
    var workers: seq<CancelTarget>

    ghost predicate Valid()
      reads this, table
    {
      table.Valid()
    }

    ghost function View(): App
      reads this, table
      requires Valid()
    {
      App(snapshot, expanded, displayed, handoff, table.Shown(), frozen, renderPending, inflight, pending,
          workers)
    }

    constructor ()
      ensures Valid() && fresh(table) && View() == NEW_APP
    {
      table := new ActiveTable();
      snapshot, expanded, displayed, handoff := [], {}, {}, {};
      frozen, renderPending, inflight, pending, workers := false, false, false, None, [];
    }

    /** _render_active; false when collapse_arrays or the table raises. */
    method RenderActive() returns (ok: bool)
      requires Valid()
      modifies this`displayed, this`handoff, this`renderPending, table
      ensures Valid()
      ensures ok == Renders(old(View())) && View() == Render(old(View()))
    {
      var collapsed := CollapseArrays(snapshot, expanded);
      if collapsed.ValueError? {
        return false;
      }
      PlaceWhole(collapsed.value);
      var whole := table.RenderRows(collapsed.value);
      if !whole {
        return false;
      }
      displayed := set j | j in snapshot :: j.jobId;
      handoff, renderPending := {}, false;
      return true;
    }

    /** refresh_active up to the request; false when one is already in flight. */
    method BeginRefresh() returns (go: bool)
      requires Valid()
      modifies this`inflight
      ensures Valid() && View() == Step(old(View()), RefreshBegin)
      ensures go == !old(inflight)
    {
      go := !inflight;
      inflight := true;
    }

    /** The request failed. */
    method FailRefresh()
      requires Valid() && Enabled(View(), RefreshFails)
      modifies this`inflight
      ensures Valid() && View() == Step(old(View()), RefreshFails)
    {
      inflight := false;
    }

    /** A render, or the note that one is due. */
    method ShowOrQueue() returns (ok: bool)
      requires Valid()
      modifies this, table
      ensures Valid() && ok == (old(frozen) || Renders(old(View())))
      ensures View() == if old(frozen) then old(View()).(renderPending := true) else Render(old(View()))
    {
      if frozen {
        renderPending := true;
        return true;
      }
      ok := RenderActive();
    }

    /** refresh_active from the answer on; true when it goes on to refresh_history. */
    method OnActiveJobs(jobs: seq<JobSummary>) returns (handOff: bool)
      requires Valid() && Enabled(View(), RefreshDone(jobs))
      modifies this, table
      ensures Valid() && View() == Step(old(View()), RefreshDone(jobs))
      ensures handOff <==> Asked(old(View()), RefreshDone(jobs)) != {}
    {
      snapshot := Filter(jobs, (j: JobSummary) => j.IsActive());
      var newIds := set j | j in snapshot :: j.jobId;
      var gone := (displayed - newIds) - handoff;
      var ok := ShowOrQueue();
      inflight := false;
      if !ok {
        return false;
      }
      assert gone == Asked(old(View()), RefreshDone(jobs));
      if gone != {} {
        handoff := handoff + gone;
        return true;
      }
      assert handoff + gone == handoff;
      return false;
    }

    method ToggleExpand(row: Row)
      requires Valid() && Enabled(View(), Toggle(row))
      modifies this, table
      ensures Valid() && View() == Step(old(View()), Toggle(row))
    {
      if frozen {
        return;
      }
      match row {
        case PlainRow(_) => return;
        case ArrayRow(aid, _, _, _, _, _) =>
          expanded := if aid in expanded then expanded - {aid} else expanded + {aid};
        case TaskRow(aid, _) =>
          expanded := expanded - {aid};
      }
      var ok := RenderActive();
    }

    method CancelJob(row: Row)
      requires Valid() && Enabled(View(), CancelKey(row))
      modifies this, table
      ensures Valid() && View() == Step(old(View()), CancelKey(row))
    {
      if frozen {
        return;
      }
      var target := TargetOf(row);
      pending, frozen := Some(target), true;
    }

    method ConfirmDone(yes: bool)
      requires Valid() && Enabled(View(), Confirm(yes))
      modifies this, table
      ensures Valid() && View() == Step(old(View()), Confirm(yes))
    {
      var target := pending;
      pending, frozen := None, false;
      if renderPending {
        var ok := RenderActive();
        if !ok {
          return;
        }
      }
      if yes && target.Some? {
        workers := workers + [target.value];
      }
    }

    /** perform_cancel up to session.cancel. */
    method RunWorker(i: nat) returns (sent: Option<CancelTarget>)
      requires Valid() && Enabled(View(), PerformCancel(i))
      modifies this, table
      ensures Valid() && View() == Step(old(View()), PerformCancel(i))
      ensures sent == Sent(old(View()), PerformCancel(i))
    {
      var target := workers[i];
      workers := workers[..i] + workers[i + 1..];
      var live := TargetIsCancellable(snapshot, target);
      return if live == Ok(true) then Some(target) else None;
    }
  }
}
