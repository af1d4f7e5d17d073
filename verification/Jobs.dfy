/** JobSummary, its state classes and the normalization of its array fields. */
module Jobs {
  import opened Wrappers
  import opened Text
  import opened TaskRanges

  // ---------- states ----------

  const ACTIVE_STATES: set<string> := {
    "PENDING", "RUNNING", "SUSPENDED", "COMPLETING", "CONFIGURING",
    "REQUEUED", "RESIZING", "SIGNALING", "STAGE_OUT", "STOPPED"
  }

  const TERMINAL_STATES: set<string> := {
    "COMPLETED", "CANCELLED", "FAILED", "TIMEOUT", "NODE_FAIL", "OUT_OF_MEMORY",
    "PREEMPTED", "BOOT_FAIL", "DEADLINE", "REVOKED", "SPECIAL_EXIT", "LAUNCH_FAILED"
  }

  /** The first blank-separated word; empty for a blank text. */
  function FirstWord(s: string): string {
    Word(TrimLeft(s))
  }

  function Word(s: string): string {
    if s == "" || IsSpace(s[0]) then "" else [s[0]] + Word(s[1..])
  }

  function Upper(s: string): string {
    seq(|s|, i requires 0 <= i < |s| =>
      if 'a' <= s[i] <= 'z' then 'A' + (s[i] - 'a') else s[i])
  }

  predicate IsActiveState(state: string) {
    Upper(FirstWord(state)) in ACTIVE_STATES
  }

  predicate IsTerminalState(state: string) {
    Upper(FirstWord(state)) in TERMINAL_STATES
  }

  lemma ActiveIsNotTerminal(state: string)
    ensures !(IsActiveState(state) && IsTerminalState(state))
  {
  }

  lemma {:induction false} WordOf(word: string, suffix: string)
    requires forall i | 0 <= i < |word| :: !IsSpace(word[i])
    requires suffix == "" || IsSpace(suffix[0])
    ensures Word(word + suffix) == word
  {
    if word == "" {
      assert word + suffix == suffix;
    } else {
      assert (word + suffix)[1..] == word[1..] + suffix;
      WordOf(word[1..], suffix);
    }
  }

  /** Only the first word of a state counts, in any case: "cancelled by 123" is as terminal as
      "CANCELLED". */
  lemma StateByWord(blank: string, word: string, suffix: string)
    requires forall i | 0 <= i < |blank| :: IsSpace(blank[i])
    requires word != "" && forall i | 0 <= i < |word| :: !IsSpace(word[i])
    requires suffix == "" || IsSpace(suffix[0])
    ensures IsTerminalState(blank + (word + suffix)) <==> Upper(word) in TERMINAL_STATES
    ensures IsActiveState(blank + (word + suffix)) <==> Upper(word) in ACTIVE_STATES
  {
    WordOf(word, suffix);
    assert (word + suffix)[0] == word[0];
    SkipsBlank(blank, word + suffix);
  }

  lemma {:induction false} SkipsBlank(blank: string, s: string)
    requires forall i | 0 <= i < |blank| :: IsSpace(blank[i])
    requires s != "" && !IsSpace(s[0])
    ensures TrimLeft(blank + s) == s
  {
    if blank == "" {
      assert blank + s == s;
    } else {
      assert (blank + s)[1..] == blank[1..] + s;
      SkipsBlank(blank[1..], s);
    }
  }

  /** The same letter, in either case. */
  predicate SameLetter(a: char, b: char) {
    a == b || ('a' <= a <= 'z' && b == 'A' + (a - 'a')) || ('a' <= b <= 'z' && a == 'A' + (b - 'a'))
  }

  ghost predicate SameLetters(s: string, t: string) {
    |s| == |t| && forall i | 0 <= i < |s| :: SameLetter(s[i], t[i])
  }

  lemma {:induction false} WordCaseless(s: string, t: string)
    requires SameLetters(s, t)
    ensures SameLetters(Word(s), Word(t))
  {
    if s != "" && !IsSpace(s[0]) {
      assert SameLetters(s[1..], t[1..]);
      WordCaseless(s[1..], t[1..]);
    }
  }

  lemma {:induction false} TrimCaseless(s: string, t: string)
    requires SameLetters(s, t)
    ensures SameLetters(TrimLeft(s), TrimLeft(t))
  {
    if s != "" && IsSpace(s[0]) {
      assert SameLetters(s[1..], t[1..]);
      TrimCaseless(s[1..], t[1..]);
    }
  }

  /** Case does not matter in a state. */
  lemma StatesCaseless(s: string, t: string)
    requires SameLetters(s, t)
    ensures IsActiveState(s) == IsActiveState(t) && IsTerminalState(s) == IsTerminalState(t)
  {
    TrimCaseless(s, t);
    WordCaseless(TrimLeft(s), TrimLeft(t));
    assert Upper(FirstWord(s)) == Upper(FirstWord(t));
  }

  /** slurmctld's job states and flags, each on its side. */
  lemma StatesListed()
    ensures {"PENDING", "RUNNING", "SUSPENDED"} <= ACTIVE_STATES
    ensures {"COMPLETING", "CONFIGURING", "REQUEUED", "RESIZING"} <= ACTIVE_STATES
    ensures {"SIGNALING", "STAGE_OUT", "STOPPED"} <= ACTIVE_STATES
    ensures {"COMPLETED", "CANCELLED", "FAILED", "TIMEOUT", "NODE_FAIL"} <= TERMINAL_STATES
    ensures {"OUT_OF_MEMORY", "PREEMPTED", "BOOT_FAIL", "DEADLINE"} <= TERMINAL_STATES
    ensures {"REVOKED", "SPECIAL_EXIT", "LAUNCH_FAILED"} <= TERMINAL_STATES
  {
  }

  // ---------- records ----------

  /** One row of either table. Times are counted from a fixed epoch. */
  datatype JobSummary = JobSummary(
    jobId: int,
    name: string,
    state: string,
    partition: Option<string>,
    endTime: Option<int>,
    arrayJobId: Option<int>,
    arrayTaskId: Option<int>,
    arrayTaskRange: Option<string>)
  {
    predicate IsArrayMember() {
      arrayJobId.Some? && (arrayTaskId.Some? || arrayTaskRange.Some?)
    }

    predicate IsActive() {
      IsActiveState(state)
    }

    predicate IsTerminal() {
      IsTerminalState(state)
    }

    /** 123, 123_4 or 123_[1-10]. */
    function DisplayId(): string {
      if arrayJobId.Some? && arrayTaskId.Some? then
        IntText(arrayJobId.value) + "_" + IntText(arrayTaskId.value)
      else if arrayJobId.Some? && arrayTaskRange.Some? then
        IntText(arrayJobId.value) + "_[" + arrayTaskRange.value + "]"
      else
        IntText(jobId)
    }

    /** What normalization produces: an array record is one task or one non-empty range. */
    predicate Normal() {
      match (arrayJobId, arrayTaskId, arrayTaskRange)
      case (None, None, None) => true
      case (Some(_), Some(_), None) => true
      case (Some(_), None, Some(range)) => range != ""
      case _ => false
    }

    /** The weaker half of Normal: no record is both a task and a range. */
    predicate Exclusive() {
      !(arrayTaskId.Some? && arrayTaskRange.Some?)
    }
  }

  lemma IdsTell(a: int, b: int, x: string, y: string)
    requires IntText(a) + "_" + x == IntText(b) + "_" + y
    ensures a == b && x == y
  {
    IntTextLacks(a);
    IntTextLacks(b);
    CutAt(IntText(a), '_', x);
    CutAt(IntText(b), '_', y);
    IntTextInjective(a, b);
  }

  lemma BracketTells(x: string, y: string)
    ensures "[" + x + "]" == "[" + y + "]" <==> x == y
  {
    if "[" + x + "]" == "[" + y + "]" {
      var s := "[" + x + "]";
      assert s[1..|s| - 1] == x == y;
    }
  }

  lemma TaskIsNoRange(id: int, range: string)
    ensures IntText(id) != "[" + range + "]"
  {
    assert IntText(id)[0] == '-' || '0' <= IntText(id)[0] <= '9';
  }

  /** Two normalized jobs show one id exactly when they are the same job, task or range of an array. */
  lemma DisplayIdTells(a: JobSummary, b: JobSummary)
    requires a.Normal() && b.Normal()
    ensures a.DisplayId() == b.DisplayId() <==>
              a.arrayJobId == b.arrayJobId && a.arrayTaskId == b.arrayTaskId
              && a.arrayTaskRange == b.arrayTaskRange && (a.arrayJobId.None? ==> a.jobId == b.jobId)
  {
    if a.DisplayId() == b.DisplayId() {
      IntTextLacks(a.jobId);
      IntTextLacks(b.jobId);
      assert a.arrayJobId.Some? <==> '_' in a.DisplayId();
      assert b.arrayJobId.Some? <==> '_' in b.DisplayId();
      if a.arrayJobId.None? {
        IntTextInjective(a.jobId, b.jobId);
      } else {
        var x, y := MemberText(a), MemberText(b);
        MemberShown(a);
        MemberShown(b);
        IdsTell(a.arrayJobId.value, b.arrayJobId.value, x, y);
        MemberTells(a, b);
      }
    }
  }

  /** What stands behind the array's id. */
  function MemberText(job: JobSummary): string {
    if job.arrayTaskId.Some? then IntText(job.arrayTaskId.value)
    else if job.arrayTaskRange.Some? then "[" + job.arrayTaskRange.value + "]"
    else ""
  }

  lemma MemberShown(job: JobSummary)
    requires job.Normal() && job.arrayJobId.Some?
    ensures job.DisplayId() == IntText(job.arrayJobId.value) + "_" + MemberText(job)
  {
    if job.arrayTaskId.None? {
      var a, r := IntText(job.arrayJobId.value), job.arrayTaskRange.value;
      assert a + "_[" + r + "]" == a + "_" + ("[" + r + "]");
    }
  }

  lemma MemberTells(a: JobSummary, b: JobSummary)
    requires a.Normal() && b.Normal() && a.arrayJobId.Some? && b.arrayJobId.Some?
    requires MemberText(a) == MemberText(b)
    ensures a.arrayTaskId == b.arrayTaskId && a.arrayTaskRange == b.arrayTaskRange
  {
    if a.arrayTaskId.Some? && b.arrayTaskId.Some? {
      IntTextInjective(a.arrayTaskId.value, b.arrayTaskId.value);
    } else if a.arrayTaskId.Some? {
      TaskIsNoRange(a.arrayTaskId.value, b.arrayTaskRange.value);
    } else if b.arrayTaskId.Some? {
      TaskIsNoRange(b.arrayTaskId.value, a.arrayTaskRange.value);
    } else {
      BracketTells(a.arrayTaskRange.value, b.arrayTaskRange.value);
    }
  }

  predicate IsHexMask(text: string) {
    |text| >= 2 && text[0] == '0' && text[1] in "xX"
  }

  /** _array_fields: which of the three array fields a raw record fills. `waiting` is
      array_tasks_waiting, `taskId` is None for task 0. */
  function ArrayFields(arrayId: Option<int>, waiting: Option<string>, taskId: Option<int>)
    : Result<(Option<int>, Option<int>, Option<string>)>
  {
    if arrayId.None? then Ok((None, None, None))
    else
      var raw := if waiting.Some? then waiting.value else "";
      match (if IsHexMask(raw) then BitmaskText(raw) else Ok(raw))
      case ValueError => ValueError
      case Ok(range) =>
        if range != "" then Ok((arrayId, None, Some(range)))
        else Ok((arrayId, Some(if taskId.Some? then taskId.value else 0), None))
  }

  /** Whatever Slurm reports, a normalized record is one task or one range, never both, and a
      bitmask keeps exactly its tasks. */
  lemma ArrayFieldsNormal(job: JobSummary, arrayId: Option<int>, waiting: Option<string>,
                          taskId: Option<int>)
    requires ArrayFields(arrayId, waiting, taskId)
          == Ok((job.arrayJobId, job.arrayTaskId, job.arrayTaskRange))
    ensures job.Normal() && job.Exclusive() && job.arrayJobId == arrayId
    ensures forall bits: nat | arrayId.Some? && waiting == Some("0x" + Digits(bits, 16)) && bits > 0 ::
              job.arrayTaskRange.Some? && Expand(job.arrayTaskRange.value) == Ok(SetBits(bits))
  {
    forall bits: nat | arrayId.Some? && waiting == Some("0x" + Digits(bits, 16)) && bits > 0
      ensures job.arrayTaskRange.Some? && Expand(job.arrayTaskRange.value) == Ok(SetBits(bits))
    {
      HexBitmaskRoundTrip(bits);
      HasBit(bits);
      ExpandEmpty();
    }
  }

  lemma {:induction false} HasBit(bits: nat)
    requires bits > 0
    ensures SetBits(bits) != []
  {
    var i := LowBit(bits);
    SetBitsExact(bits, i);
  }

  lemma {:induction false} LowBit(bits: nat) returns (i: nat)
    requires bits > 0
    ensures Bit(bits, i)
  {
    if bits % 2 == 1 {
      i := 0;
    } else {
      i := LowBit(bits / 2);
      i := i + 1;
    }
  }
}
