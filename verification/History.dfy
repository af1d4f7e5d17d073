/**
 The History tab's windows: the default window is replaced on every refresh, extensions reach
 further back one window at a time. The accounting store does not change and the clock does not run
 backwards; times and widths are in one unit.
 */
module History {
  import opened Wrappers
  import opened Sorting
  import opened Jobs
  import opened Queries

  const MAX_HISTORY_DAYS := 366

  datatype Tab = Tab(
    base: seq<JobSummary>,       // history_base
    older: seq<JobSummary>,      // history_older
    oldest: Option<int>,         // history_oldest
    refreshing: Option<int>,     // the `since` of the refresh in flight
    extending: Option<int>)      // the `until` of the extension in flight

  const NEW_TAB := Tab([], [], None, None, None)

  datatype Event =
    | RefreshBegin(now: int) | RefreshFails | RefreshDone(serverNow: int)
    | ExtendBegin(now: int) | ExtendFails | ExtendDone

  /** window_days is at least 1; `day` is the number of clock units in a day. */
  datatype Settings = Settings(windowDays: int, day: int)

  predicate Valid(c: Settings) {
    c.windowDays >= 1 && c.day >= 1
  }

  function Width(c: Settings): int {
    c.windowDays * c.day
  }

  predicate Enabled(s: Tab, e: Event) {
    match e
    case RefreshBegin(_) => true
    case RefreshFails => s.refreshing.Some?
    case RefreshDone(_) => s.refreshing.Some?
    case ExtendBegin(_) => true
    case ExtendFails => s.extending.Some?
    case ExtendDone => s.extending.Some?
  }

  function Kept(jobs: seq<JobSummary>): seq<JobSummary> {
    Filter(jobs, (j: JobSummary) => j.IsTerminal() || !j.IsActive())
  }

  function Step(c: Settings, store: seq<JobSummary>, s: Tab, e: Event): Tab
    requires Enabled(s, e)
  {
    match e
    case RefreshBegin(now) =>
      if s.refreshing.Some? then s else s.(refreshing := Some(now - Width(c)))
    case RefreshFails => s.(refreshing := None)
    case RefreshDone(serverNow) =>
      var since := s.refreshing.value;
      s.(base := Kept(History(store, since, serverNow)),
         oldest := if s.oldest.None? || s.oldest.value > since then Some(since) else s.oldest,
         refreshing := None)
    case ExtendBegin(now) =>
      if s.extending.Some? || s.oldest.None? then s
      else if now - s.oldest.value > MAX_HISTORY_DAYS * c.day then s
      else s.(extending := s.oldest)
    case ExtendFails => s.(extending := None)
    case ExtendDone =>
      var until := s.extending.value;
      var since := until - Width(c);
      s.(oldest := Some(since), older := s.older + History(store, since, until), extending := None)
  }

  /** Every clock reading is at least the one before. */
  predicate IsRun(c: Settings, store: seq<JobSummary>, s: Tab, clock: int, events: seq<Event>)
    decreases |events|
  {
    events == [] ||
    (Enabled(s, events[0]) && Reading(events[0], clock) >= clock
     && IsRun(c, store, Step(c, store, s, events[0]), Reading(events[0], clock), events[1..]))
  }

  function Reading(e: Event, clock: int): int {
    match e
    case RefreshBegin(now) => now
    case ExtendBegin(now) => now
    case _ => clock
  }

  function Run(c: Settings, store: seq<JobSummary>, s: Tab, clock: int, events: seq<Event>): Tab
    requires IsRun(c, store, s, clock, events)
    decreases |events|
  {
    if events == [] then s
    else Run(c, store, Step(c, store, s, events[0]), Reading(events[0], clock), events[1..])
  }

  function LastReading(clock: int, events: seq<Event>): int
    decreases |events|
  {
    if events == [] then clock else LastReading(Reading(events[0], clock), events[1..])
  }

  /** The `since` of the first refresh that succeeds. */
  function FirstSince(c: Settings, store: seq<JobSummary>, s: Tab, clock: int, events: seq<Event>)
    : Option<int>
    requires IsRun(c, store, s, clock, events)
    decreases |events|
  {
    if events == [] then None
    else if events[0].RefreshDone? then s.refreshing
    else FirstSince(c, store, Step(c, store, s, events[0]), Reading(events[0], clock), events[1..])
  }

  /** The window of the last refresh that succeeds. */
  function LastWindow(c: Settings, store: seq<JobSummary>, s: Tab, clock: int, events: seq<Event>)
    : Option<(int, int)>
    requires IsRun(c, store, s, clock, events)
    decreases |events|
  {
    if events == [] then None
    else
      var later :=
        LastWindow(c, store, Step(c, store, s, events[0]), Reading(events[0], clock), events[1..]);
      if later.None? && events[0].RefreshDone?
      then Some((s.refreshing.value, events[0].serverNow)) else later
  }

  function Extensions(events: seq<Event>): nat {
    if events == [] then 0 else (if events[0].ExtendDone? then 1 else 0) + Extensions(events[1..])
  }

  // ---------- before the first refresh ----------

  ghost predicate Empty(c: Settings, s: Tab, clock: int) {
    s.base == [] && s.older == [] && s.oldest.None? && s.extending.None?
    && (s.refreshing.Some? ==> s.refreshing.value <= clock - Width(c))
  }

  // ---------- after it ----------

  /** n extensions have succeeded since the first refresh covered [first, ...). */
  ghost predicate Tiled(c: Settings, store: seq<JobSummary>, s: Tab, clock: int, first: int, n: nat) {
    && s.oldest == Some(first - n * Width(c))
    && s.older == History(store, first - n * Width(c), first)
    && (s.extending.Some? ==> s.extending == s.oldest && (n + 1) * Width(c) <= MAX_HISTORY_DAYS * c.day)
    && n * Width(c) <= MAX_HISTORY_DAYS * c.day
    && first <= clock - Width(c)
    && (s.refreshing.Some? ==> s.refreshing.value >= first)
    && (forall j | j in s.base :: j.IsTerminal() && j.endTime.Some? && j.endTime.value >= first)
    && NewestFirst(s.base)
  }

  lemma WidthPositive(c: Settings)
    requires Valid(c)
    ensures Width(c) >= 1
  {
  }

  lemma {:induction false} EmptyHistory(store: seq<JobSummary>, at: int)
    ensures History(store, at, at) == []
  {
    var window := (j: JobSummary) => InWindow(j, at, at);
    FilterNone(store, window);
  }

  /** A history answer holds terminal jobs only, so all of it is kept. */
  lemma BaseInWindow(store: seq<JobSummary>, since: int, serverNow: int)
    ensures Kept(History(store, since, serverNow)) == History(store, since, serverNow)
    ensures NewestFirst(Kept(History(store, since, serverNow)))
    ensures forall j | j in Kept(History(store, since, serverNow)) ::
              j.IsTerminal() && j.endTime.Some? && j.endTime.value >= since
  {
    HistoryExact(store, since, serverNow);
    FilterAll(History(store, since, serverNow), (j: JobSummary) => j.IsTerminal() || !j.IsActive());
  }

  lemma ExtendTiles(c: Settings, store: seq<JobSummary>, first: int, n: nat)
    requires Valid(c)
    ensures History(store, first - n * Width(c), first)
          + History(store, first - (n + 1) * Width(c), first - n * Width(c))
         == History(store, first - (n + 1) * Width(c), first)
    ensures (first - n * Width(c)) - Width(c) == first - (n + 1) * Width(c)
  {
    WidthPositive(c);
    assert (n + 1) * Width(c) == n * Width(c) + Width(c);
    assert n * Width(c) >= 0;
    HistoryConcat(store, first - (n + 1) * Width(c), first - n * Width(c), first);
  }

  lemma TiledRefresh(c: Settings, store: seq<JobSummary>, s: Tab, clock: int, first: int, n: nat,
                     serverNow: int)
    requires Valid(c) && Tiled(c, store, s, clock, first, n) && s.refreshing.Some?
    ensures Tiled(c, store, Step(c, store, s, RefreshDone(serverNow)), clock, first, n)
  {
    WidthPositive(c);
    assert n * Width(c) >= 0;
    BaseInWindow(store, s.refreshing.value, serverNow);
  }

  lemma TiledExtend(c: Settings, store: seq<JobSummary>, s: Tab, clock: int, first: int, n: nat)
    requires Valid(c) && Tiled(c, store, s, clock, first, n) && s.extending.Some?
    ensures Tiled(c, store, Step(c, store, s, ExtendDone), clock, first, n + 1)
  {
    ExtendTiles(c, store, first, n);
  }

  lemma TiledStep(c: Settings, store: seq<JobSummary>, s: Tab, clock: int, first: int, n: nat, e: Event)
    requires Valid(c) && Tiled(c, store, s, clock, first, n)
    requires Enabled(s, e) && Reading(e, clock) >= clock
    ensures Tiled(c, store, Step(c, store, s, e), Reading(e, clock), first,
                  if e.ExtendDone? then n + 1 else n)
  {
    match e {
      case RefreshDone(serverNow) => TiledRefresh(c, store, s, clock, first, n, serverNow);
      case ExtendBegin(now) => assert (n + 1) * Width(c) == n * Width(c) + Width(c);
      case ExtendDone => TiledExtend(c, store, s, clock, first, n);
      case _ =>
    }
  }

  lemma {:induction false} TiledRun(c: Settings, store: seq<JobSummary>, s: Tab, clock: int,
                                    first: int, n: nat, events: seq<Event>)
    requires Valid(c) && Tiled(c, store, s, clock, first, n)
    requires IsRun(c, store, s, clock, events)
    ensures Tiled(c, store, Run(c, store, s, clock, events), LastReading(clock, events), first,
                  n + Extensions(events))
    decreases |events|
  {
    if events == [] {
      assert Tiled(c, store, s, clock, first, n + 0);
    } else {
      var e := events[0];
      TiledStep(c, store, s, clock, first, n, e);
      TiledRun(c, store, Step(c, store, s, e), Reading(e, clock), first,
               if e.ExtendDone? then n + 1 else n, events[1..]);
    }
  }

  lemma FirstRefresh(c: Settings, store: seq<JobSummary>, s: Tab, clock: int, serverNow: int)
    requires Valid(c) && Empty(c, s, clock) && s.refreshing.Some?
    ensures Tiled(c, store, Step(c, store, s, RefreshDone(serverNow)), clock, s.refreshing.value, 0)
  {
    WidthPositive(c);
    EmptyHistory(store, s.refreshing.value);
    BaseInWindow(store, s.refreshing.value, serverNow);
  }

  lemma {:induction false} WindowsRun(c: Settings, store: seq<JobSummary>, s: Tab, clock: int,
                                      events: seq<Event>)
    requires Valid(c) && Empty(c, s, clock) && IsRun(c, store, s, clock, events)
    ensures var t := Run(c, store, s, clock, events);
            match FirstSince(c, store, s, clock, events)
            case None => t.base == [] && t.older == [] && t.oldest.None? && Extensions(events) == 0
            case Some(first) =>
              Tiled(c, store, t, LastReading(clock, events), first, Extensions(events))
    decreases |events|
  {
    if events != [] {
      var e := events[0];
      if e.RefreshDone? {
        FirstRefresh(c, store, s, clock, e.serverNow);
        TiledRun(c, store, Step(c, store, s, e), clock, s.refreshing.value, 0, events[1..]);
      } else {
        WindowsRun(c, store, Step(c, store, s, e), Reading(e, clock), events[1..]);
      }
    }
  }

  lemma Cancel(a: int, b: int, day: int)
    requires day >= 1 && a * day <= b * day
    ensures a <= b
  {
  }

  lemma QuotientBound(n: nat, d: int, total: nat)
    requires d >= 1 && n * d <= total
    ensures n <= total / d
  {
    assert total == (total / d) * d + total % d;
    assert n * d < (total / d + 1) * d;
    Cancel(n * d + 1, (total / d + 1) * d, 1);
    if n >= total / d + 1 {
      Monotone(total / d + 1, n, d);
      assert false;
    }
  }

  lemma Monotone(a: int, b: int, d: int)
    requires a <= b && d >= 0
    ensures a * d <= b * d
  {
  }

  lemma CountBound(c: Settings, n: nat)
    requires Valid(c) && n * Width(c) <= MAX_HISTORY_DAYS * c.day
    ensures n <= MAX_HISTORY_DAYS / c.windowDays
  {
    assert n * Width(c) == (n * c.windowDays) * c.day;
    Cancel(n * c.windowDays, MAX_HISTORY_DAYS, c.day);
    QuotientBound(n, c.windowDays, MAX_HISTORY_DAYS);
  }

  /** In every run the default list is exactly the store's list for the window of the last refresh
      that succeeded. */
  lemma {:induction false} DefaultIsLastWindow(c: Settings, store: seq<JobSummary>, s: Tab,
                                               clock: int, events: seq<Event>)
    requires IsRun(c, store, s, clock, events)
    ensures Run(c, store, s, clock, events).base ==
            match LastWindow(c, store, s, clock, events)
            case None => s.base
            case Some((since, until)) => History(store, since, until)
    decreases |events|
  {
    if events != [] {
      var e := events[0];
      DefaultIsLastWindow(c, store, Step(c, store, s, e), Reading(e, clock), events[1..]);
      if e.RefreshDone? {
        BaseInWindow(store, s.refreshing.value, e.serverNow);
      }
    }
  }

  lemma TiledLists(c: Settings, store: seq<JobSummary>, t: Tab, now: int, first: int, n: nat)
    requires Valid(c) && Tiled(c, store, t, now, first, n)
    ensures n <= MAX_HISTORY_DAYS / c.windowDays
    ensures t.oldest == Some(first - n * Width(c)) && t.older == History(store, t.oldest.value, first)
    ensures forall j :: j in t.older <==>
              j in store && j.IsTerminal() && j.endTime.Some?
              && t.oldest.value <= j.endTime.value < first
    ensures multiset(t.older) == multiset(Finished(store, t.oldest.value, first))
    ensures forall j | j in t.base :: j !in t.older
  {
    CountBound(c, n);
    var oldest := first - n * Width(c);
    OlderLists(store, oldest, first, t.older);
    ListsApart(t.base, t.older, first);
  }

  lemma ListsApart(base: seq<JobSummary>, older: seq<JobSummary>, first: int)
    requires forall j | j in base :: j.endTime.Some? && j.endTime.value >= first
    requires forall j | j in older :: j.endTime.Some? && j.endTime.value < first
    ensures forall j | j in base :: j !in older
  {
  }

  lemma OlderLists(store: seq<JobSummary>, oldest: int, first: int, older: seq<JobSummary>)
    requires older == History(store, oldest, first)
    ensures forall j :: j in older <==>
              j in store && j.IsTerminal() && j.endTime.Some? && oldest <= j.endTime.value < first
    ensures multiset(older) == multiset(Finished(store, oldest, first))
  {
    HistoryExact(store, oldest, first);
  }

  /** Over every run of refreshes and extensions: with S the start of the first window, the
      extension list is exactly the store's list for [history_oldest, S), so it holds each terminal
      job of that span as often as the store does; none of them is in the default window's list;
      and no more than 366 / window_days extensions ever succeed. */
  lemma ExtensionsTile(c: Settings, store: seq<JobSummary>, clock: int, events: seq<Event>)
    requires Valid(c) && IsRun(c, store, NEW_TAB, clock, events)
    ensures Extensions(events) <= 366 / c.windowDays
    ensures var t := Run(c, store, NEW_TAB, clock, events);
            match FirstSince(c, store, NEW_TAB, clock, events)
            case None => t.base == [] && t.older == []
            case Some(first) =>
              && t.oldest == Some(first - Extensions(events) * Width(c))
              && t.older == History(store, t.oldest.value, first)
              && (forall j :: j in t.older <==>
                    j in store && j.IsTerminal() && j.endTime.Some?
                    && t.oldest.value <= j.endTime.value < first)
              && multiset(t.older) == multiset(Finished(store, t.oldest.value, first))
              && (forall j | j in t.base :: j !in t.older)
  {
    WindowsRun(c, store, NEW_TAB, clock, events);
    var t := Run(c, store, NEW_TAB, clock, events);
    match FirstSince(c, store, NEW_TAB, clock, events) {
      case None =>
      case Some(first) =>
        TiledLists(c, store, t, LastReading(clock, events), first, Extensions(events));
    }
  }

  // ---------- the bound is reached ----------

  /** n extensions, each answered at once, at one clock reading. */
  function Extending(now: int, n: nat): seq<Event> {
    if n == 0 then [] else [ExtendBegin(now), ExtendDone] + Extending(now, n - 1)
  }

  ghost predicate CanExtend(c: Settings, s: Tab, now: int, n: nat) {
    && s.extending.None? && s.oldest.Some?
    && (n > 0 ==> now - s.oldest.value + (n - 1) * Width(c) <= MAX_HISTORY_DAYS * c.day)
  }

  lemma ExtendOnce(c: Settings, store: seq<JobSummary>, s: Tab, now: int, n: nat)
    requires Valid(c) && n > 0 && CanExtend(c, s, now, n)
    ensures var t := Step(c, store, s, ExtendBegin(now));
            t.extending.Some? && CanExtend(c, Step(c, store, t, ExtendDone), now, n - 1)
  {
  }

  lemma {:induction false} ExtendingRuns(c: Settings, store: seq<JobSummary>, s: Tab, now: int, n: nat)
    requires Valid(c) && CanExtend(c, s, now, n)
    ensures IsRun(c, store, s, now, Extending(now, n)) && Extensions(Extending(now, n)) == n
    decreases n
  {
    if n > 0 {
      var events, rest := Extending(now, n), Extending(now, n - 1);
      ExtendOnce(c, store, s, now, n);
      var t := Step(c, store, s, events[0]);
      ExtendingRuns(c, store, Step(c, store, t, ExtendDone), now, n - 1);
      assert events[1..][0] == ExtendDone && events[1..][1..] == rest;
      assert Extensions(events[1..]) == 1 + Extensions(rest);
      assert IsRun(c, store, t, now, events[1..]);
    }
  }

  lemma BoundFits(c: Settings, n: nat)
    requires Valid(c) && n * c.windowDays <= MAX_HISTORY_DAYS
    ensures Width(c) + (n - 1) * Width(c) <= MAX_HISTORY_DAYS * c.day
  {
  }

  /** floor(366 / window_days) extensions do succeed in some run, so the bound above is exact. */
  lemma ExtensionBoundReached(c: Settings, store: seq<JobSummary>, now: int)
    requires Valid(c)
    ensures exists events :: IsRun(c, store, NEW_TAB, now, events)
              && Extensions(events) == 366 / c.windowDays
  {
    var n := MAX_HISTORY_DAYS / c.windowDays;
    BoundFits(c, n);
    AfterFirstRefresh(c, store, now, n);
    var events := [RefreshBegin(now), RefreshDone(now)] + Extending(now, n);
    assert IsRun(c, store, NEW_TAB, now, events);
  }

  lemma AfterFirstRefresh(c: Settings, store: seq<JobSummary>, now: int, n: nat)
    requires Valid(c) && Width(c) + (n - 1) * Width(c) <= MAX_HISTORY_DAYS * c.day
    ensures var events := [RefreshBegin(now), RefreshDone(now)] + Extending(now, n);
            IsRun(c, store, NEW_TAB, now, events) && Extensions(events) == n
  {
    var begun := Step(c, store, NEW_TAB, RefreshBegin(now));
    var loaded := Step(c, store, begun, RefreshDone(now));
    assert loaded.oldest == Some(now - Width(c));
    ExtendingRuns(c, store, loaded, now, n);
    var tail := Extending(now, n);
    var events := [RefreshBegin(now), RefreshDone(now)] + tail;
    assert events[1..][0] == RefreshDone(now) && events[1..][1..] == tail;
    assert IsRun(c, store, begun, now, events[1..]);
    assert Extensions(events[1..]) == n;
  }

  // ---------- failures ----------

  /** A request that fails leaves the lists as they were and the way free for the next. */
  lemma FailureFrees(c: Settings, store: seq<JobSummary>, s: Tab, now: int)
    ensures s.refreshing.Some? ==>
              var t := Step(c, store, s, RefreshFails);
              t == s.(refreshing := None)
              && Step(c, store, t, RefreshBegin(now)).refreshing == Some(now - Width(c))
    ensures s.extending.Some? ==> Step(c, store, s, ExtendFails) == s.(extending := None)
    ensures s.extending.None? && s.oldest.Some? ==>
              (Step(c, store, s, ExtendBegin(now)).extending.Some?
               <==> now - s.oldest.value <= MAX_HISTORY_DAYS * c.day)
  {
  }

  /** A refresh only ever moves the oldest bound back, whatever the clock does. */
  lemma RefreshLowersOldest(c: Settings, store: seq<JobSummary>, s: Tab, serverNow: int)
    requires s.refreshing.Some?
    ensures var t, since := Step(c, store, s, RefreshDone(serverNow)), s.refreshing.value;
            && t.oldest.Some? && t.oldest.value <= since
            && (s.oldest.Some? ==> t.oldest.value <= s.oldest.value)
            && (t.oldest == Some(since) || t.oldest == s.oldest)
            && t.older == s.older && t.extending == s.extending && t.refreshing.None?
  {
  }

  // ---------- asks for a refresh ----------

  /** The start of the window that an ask for a refresh queries, if it does. */
  function Queried(c: Settings, s: Tab, now: int): Option<int> {
    if s.refreshing.Some? then None else Some(now - Width(c))
  }

  /** An ask issues a query iff no refresh is in flight; otherwise it leaves no trace at all: the run
      that had it and the run that had not go on alike. */
  lemma AskQueriesIff(c: Settings, store: seq<JobSummary>, s: Tab, now: int)
    ensures Queried(c, s, now).Some? <==> s.refreshing.None?
    ensures var t := Step(c, store, s, RefreshBegin(now));
            if s.refreshing.None? then t == s.(refreshing := Queried(c, s, now)) else t == s
  {
  }

  lemma RunOne(c: Settings, store: seq<JobSummary>, s: Tab, clock: int, e: Event, rest: seq<Event>)
    requires Enabled(s, e) && Reading(e, clock) >= clock
    requires IsRun(c, store, Step(c, store, s, e), Reading(e, clock), rest)
    ensures IsRun(c, store, s, clock, [e] + rest)
    ensures Run(c, store, s, clock, [e] + rest)
         == Run(c, store, Step(c, store, s, e), Reading(e, clock), rest)
  {
    assert ([e] + rest)[1..] == rest;
  }

  function LostAsk(began: int, asked: int, serverNow: int): seq<Event> {
    [RefreshBegin(began)] + ([RefreshBegin(asked)] + ([RefreshDone(serverNow)] + []))
  }

  lemma LostAskRun(c: Settings, store: seq<JobSummary>, began: int, asked: int, serverNow: int)
    requires began <= asked
    ensures IsRun(c, store, NEW_TAB, began, LostAsk(began, asked, serverNow))
    ensures Run(c, store, NEW_TAB, began, LostAsk(began, asked, serverNow)).base
         == Kept(History(store, began - Width(c), serverNow))
  {
    var begun := Step(c, store, NEW_TAB, RefreshBegin(began));
    var done := Step(c, store, begun, RefreshDone(serverNow));
    var two := [RefreshDone(serverNow)] + [];
    var three := [RefreshBegin(asked)] + two;
    assert IsRun(c, store, done, asked, []) && Run(c, store, done, asked, []) == done;
    RunOne(c, store, begun, asked, RefreshDone(serverNow), []);
    RunOne(c, store, begun, began, RefreshBegin(asked), two);
    RunOne(c, store, NEW_TAB, began, RefreshBegin(began), three);
  }

  lemma NotListed(store: seq<JobSummary>, since: int, until: int, job: JobSummary)
    requires job.endTime.Some? && job.endTime.value >= until
    ensures job !in Kept(History(store, since, until))
  {
    HistoryExact(store, since, until);
  }

  /** So a job that ends after the agent has answered the refresh in flight, and whose disappearance
      then asks for a refresh, does not show when that answer comes. */
  lemma AskLost(c: Settings, store: seq<JobSummary>, began: int, asked: int, serverNow: int,
                job: JobSummary)
    requires began <= asked
    requires job.endTime.Some? && job.endTime.value >= serverNow
    ensures IsRun(c, store, NEW_TAB, began, LostAsk(began, asked, serverNow))
    ensures job !in Run(c, store, NEW_TAB, began, LostAsk(began, asked, serverNow)).base
  {
    LostAskRun(c, store, began, asked, serverNow);
    NotListed(store, began - Width(c), serverNow, job);
  }

  // ---------- rendering ----------

  /** Newest first; a job without an end time would go to the top. */
  function RenderKey(j: JobSummary): Key {
    if j.endTime.None? then (0, -j.jobId, 0) else (1, -j.endTime.value, 0)
  }

  function Shown(s: Tab): seq<JobSummary> {
    StableSort(s.base + s.older, RenderKey)
  }

  /** Whatever the lists hold, the table shows all of it, jobs without an end time first and by
      descending id, then newest first. */
  lemma ShownSorted(s: Tab)
    ensures multiset(Shown(s)) == multiset(s.base + s.older)
    ensures forall i, k | 0 <= i < k < |Shown(s)| ::
              var a, b := Shown(s)[i], Shown(s)[k];
              && (b.endTime.None? ==> a.endTime.None? && a.jobId >= b.jobId)
              && (a.endTime.Some? && b.endTime.Some? ==> a.endTime.value >= b.endTime.value)
  {
    StableSortCorrect(s.base + s.older, RenderKey);
    forall i, k | 0 <= i < k < |Shown(s)|
      ensures KeyLeq(RenderKey(Shown(s)[i]), RenderKey(Shown(s)[k]))
    {
    }
  }

  lemma InOrder(t: Tab, first: int)
    requires NewestFirst(t.base) && NewestFirst(t.older)
    requires forall j | j in t.base :: j.endTime.Some? && j.endTime.value >= first
    requires forall j | j in t.older :: j.endTime.Some? && j.endTime.value < first
    ensures Shown(t) == t.base + t.older
  {
    var all := t.base + t.older;
    forall i, k | 0 <= i <= k < |all| ensures KeyLeq(RenderKey(all[i]), RenderKey(all[k])) {
      Ended(t, first, i);
      Ended(t, first, k);
      if i >= |t.base| {
        assert all[i] == t.older[i - |t.base|] && all[k] == t.older[k - |t.base|];
      }
    }
    StableSortIs(all, all, RenderKey);
  }

  lemma TiledInOrder(c: Settings, store: seq<JobSummary>, t: Tab, now: int, first: int, n: nat)
    requires Tiled(c, store, t, now, first, n)
    ensures Shown(t) == t.base + t.older && NewestFirst(t.base) && NewestFirst(t.older)
  {
    HistoryExact(store, t.oldest.value, first);
    InOrder(t, first);
  }

  /** In every run the sort moves nothing: the table lists the default window as slurmdbd's list
      has it, then the extensions in the order they were loaded, and the whole is newest first. */
  lemma ShownInOrder(c: Settings, store: seq<JobSummary>, clock: int, events: seq<Event>)
    requires Valid(c) && IsRun(c, store, NEW_TAB, clock, events)
    ensures var t := Run(c, store, NEW_TAB, clock, events);
            Shown(t) == t.base + t.older && NewestFirst(t.base) && NewestFirst(t.older)
  {
    WindowsRun(c, store, NEW_TAB, clock, events);
    var t := Run(c, store, NEW_TAB, clock, events);
    match FirstSince(c, store, NEW_TAB, clock, events) {
      case None => InOrder(t, 0);
      case Some(first) =>
        TiledInOrder(c, store, t, LastReading(clock, events), first, Extensions(events));
    }
  }

  lemma Ended(t: Tab, first: int, i: nat)
    requires i < |t.base| + |t.older|
    requires forall j | j in t.base :: j.endTime.Some? && j.endTime.value >= first
    requires forall j | j in t.older :: j.endTime.Some? && j.endTime.value < first
    ensures (t.base + t.older)[i].endTime.Some?
    ensures i < |t.base| <==> (t.base + t.older)[i].endTime.value >= first
  {
  }

  // ---------- the tab ----------

  class HistoryTab {
    const settings: Settings
    var historyBase: seq<JobSummary>
    var historyOlder: seq<JobSummary>
    var historyOldest: Option<int>
    var refreshing: Option<int>    // _history_inflight, with the coroutine's `since`
    var extending: Option<int>     // _extending, with the coroutine's `until`
    var shown: seq<JobSummary>     // the table's jobs, in row order

    ghost function View(): Tab
      reads this
    {
      Tab(historyBase, historyOlder, historyOldest, refreshing, extending)
    }

    ghost predicate Rendered()
      reads this
    {
      shown == Shown(View())
    }

    constructor (settings: Settings)
      ensures this.settings == settings && View() == NEW_TAB && Rendered()
    {
      this.settings := settings;
      historyBase, historyOlder, shown := [], [], [];
      historyOldest, refreshing, extending := None, None, None;
    }

    /** refresh_history up to the request; None when one is already in flight. */
    method BeginRefresh(now: int, ghost store: seq<JobSummary>) returns (since: Option<int>)
      requires Rendered()
      modifies this`refreshing
      ensures Rendered() && View() == Step(settings, store, old(View()), RefreshBegin(now))
      ensures since == if old(refreshing).None? then Some(now - Width(settings)) else None
    {
      if refreshing.Some? {
        return None;
      }
      since := Some(now - settings.windowDays * settings.day);
      refreshing := since;
    }

    method FinishRefresh(jobs: seq<JobSummary>, ghost store: seq<JobSummary>, ghost serverNow: int)
      requires Enabled(View(), RefreshDone(serverNow))
      requires jobs == History(store, refreshing.value, serverNow)
      modifies this
      ensures Rendered() && View() == Step(settings, store, old(View()), RefreshDone(serverNow))
    {
      var since := refreshing.value;
      historyBase := Filter(jobs, (j: JobSummary) => j.IsTerminal() || !j.IsActive());
      if historyOldest.None? || historyOldest.value > since {
        historyOldest := Some(since);
      }
      RenderHistory();
      refreshing := None;
    }

    /** extend_history up to the request: the window to ask for, or None. */
    method BeginExtend(now: int, ghost store: seq<JobSummary>) returns (window: Option<(int, int)>)
      requires Rendered()
      modifies this`extending
      ensures Rendered() && View() == Step(settings, store, old(View()), ExtendBegin(now))
      ensures window.Some? <==> old(extending).None? && extending.Some?
      ensures window.Some? ==> window == Some((extending.value - Width(settings), extending.value))
    {
      if extending.Some? || historyOldest.None? {
        return None;
      }
      if now - historyOldest.value > MAX_HISTORY_DAYS * settings.day {
        return None;
      }
      extending := historyOldest;
      var until := historyOldest.value;
      window := Some((until - settings.windowDays * settings.day, until));
    }

    method FinishExtend(jobs: seq<JobSummary>, ghost store: seq<JobSummary>)
      requires Enabled(View(), ExtendDone)
      requires jobs == History(store, extending.value - Width(settings), extending.value)
      modifies this
      ensures Rendered() && View() == Step(settings, store, old(View()), ExtendDone)
    {
      historyOldest := Some(extending.value - settings.windowDays * settings.day);
      historyOlder := historyOlder + jobs;
      RenderHistory();
      extending := None;
    }

    /** Either request failed; its flag is cleared and nothing else changes. */
    method Fail(refresh: bool, ghost store: seq<JobSummary>)
      requires Rendered() && Enabled(View(), if refresh then RefreshFails else ExtendFails)
      modifies this`refreshing, this`extending
      ensures Rendered()
      ensures View() == Step(settings, store, old(View()), if refresh then RefreshFails else ExtendFails)
    {
      if refresh {
        refreshing := None;
      } else {
        extending := None;
      }
    }

    method RenderHistory()
      modifies this`shown
      ensures Rendered()
    {
      shown := StableSort(historyBase + historyOlder, RenderKey);
    }
  }
}
