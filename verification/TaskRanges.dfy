/**
 The three ways Slurm names a set of array tasks: one id, a range text such as "1-3,7,9-21:4%2",
 and slurmdbd's hex bitmask. expand_task_range parses the text, task_range_from_bitmask prints it.
 */
module TaskRanges {
  import opened Wrappers
  import opened Text
  import Sorting

  // ---------- sets of ids as ascending lists ----------

  ghost predicate Ascending(s: seq<int>) {
    forall i, j | 0 <= i < j < |s| :: s[i] < s[j]
  }

  ghost function Elements(s: seq<int>): set<int> {
    set x | x in s
  }

  lemma {:induction false} HasLeast(ids: set<int>)
    requires ids != {}
    ensures exists m :: m in ids && forall y | y in ids :: m <= y
    decreases |ids|
  {
    var x := Sorting.Element(ids);
    var rest := ids - {x};
    assert forall y | y in ids :: y == x || y in rest;
    if rest != {} {
      HasLeast(rest);
      var m :| m in rest && forall y | y in rest :: m <= y;
      var least := if x < m then x else m;
      assert least in ids && forall y | y in ids :: least <= y;
    } else {
      assert forall y | y in ids :: x <= y;
    }
  }

  /** The ids in ascending order. */
  function SortedIds(ids: set<int>): (s: seq<int>)
    ensures Ascending(s) && forall x :: x in s <==> x in ids
    decreases |ids|
  {
    if ids == {} then []
    else
      HasLeast(ids);
      var m :| m in ids && forall y | y in ids :: m <= y;
      [m] + SortedIds(ids - {m})
  }

  /** An ascending list is determined by its elements. */
  lemma {:induction false} AscendingUnique(a: seq<int>, b: seq<int>)
    requires Ascending(a) && Ascending(b)
    requires forall x :: x in a <==> x in b
    ensures a == b
  {
    if |a| > 0 { assert a[0] in a; }
    if |b| > 0 { assert b[0] in b; }
    if |a| > 0 {
      assert a[0] in b && b[0] in a;
      forall x ensures x in a[1..] <==> x in b[1..] {
        assert x in a[1..] <==> x in a && x != a[0];
        assert x in b[1..] <==> x in b && x != b[0];
      }
      AscendingUnique(a[1..], b[1..]);
      assert a == [a[0]] + a[1..] && b == [b[0]] + b[1..];
    }
  }

  // ---------- expand_task_range ----------

  predicate OnStride(i: int, lo: int, step: int)
    requires step >= 1
  {
    (i - lo) % step == 0
  }

  /** Every step-th id from lo to hi. */
  function Stride(lo: int, hi: int, step: int): set<int>
    requires step >= 1
  {
    set i | lo <= i <= hi && OnStride(i, lo, step)
  }

  predicate Within(lo: int, i: int, hi: int) {
    lo <= i <= hi
  }

  function Interval(lo: int, hi: int): set<int> {
    set i | lo <= i <= hi && Within(lo, i, hi)
  }

  lemma StrideOne(lo: int, hi: int)
    ensures Stride(lo, hi, 1) == Interval(lo, hi)
  {
  }

  function BodyIds(body: string, step: int): Result<set<int>>
    requires step >= 1
  {
    match Cut(body, '-')
    case None => (
      match ParseInt(body, 10)
      case None => ValueError
      case Some(id) => Ok({id}))
    case Some((lowText, highText)) =>
      match (ParseInt(lowText, 10), ParseInt(highText, 10))
      case (Some(lo), Some(hi)) => if hi < lo then ValueError else Ok(Stride(lo, hi, step))
      case _ => ValueError
  }

  /** The ids of one comma-separated part: an id, a range, or a range with a step. */
  function PartIds(part: string): Result<set<int>> {
    match Cut(part, ':')
    case None => BodyIds(part, 1)
    case Some((body, stepText)) =>
      match ParseInt(stepText, 10)
      case None => ValueError
      case Some(step) => if step < 1 then ValueError else BodyIds(body, step)
  }

  function FieldIds(field: string): Result<set<int>> {
    var part := Trim(field);
    if part == "" then Ok({}) else PartIds(part)
  }

  function Plus(a: Result<set<int>>, b: Result<set<int>>): Result<set<int>> {
    if a.Ok? && b.Ok? then Ok(a.value + b.value) else ValueError
  }

  function PartsIds(fields: seq<string>): Result<set<int>> {
    if fields == [] then Ok({}) else Plus(FieldIds(fields[0]), PartsIds(fields[1..]))
  }

  function RangeIds(spec: string): Result<set<int>> {
    PartsIds(Split(Trim(Before(spec, '%')), ','))
  }

  /** expand_task_range as a function of its text. */
  function Expand(spec: string): Result<seq<int>> {
    match RangeIds(spec)
    case ValueError => ValueError
    case Ok(ids) => Ok(SortedIds(ids))
  }

  lemma {:induction false} PartsIdsConcat(a: seq<string>, b: seq<string>)
    ensures PartsIds(a + b) == Plus(PartsIds(a), PartsIds(b))
  {
    if a == [] {
      assert a + b == b;
      assert PartsIds(b).Ok? ==> {} + PartsIds(b).value == PartsIds(b).value;
    } else {
      assert (a + b)[1..] == a[1..] + b;
      PartsIdsConcat(a[1..], b);
      var x, y, z := FieldIds(a[0]), PartsIds(a[1..]), PartsIds(b);
      assert Plus(x, Plus(y, z)) == Plus(Plus(x, y), z) by {
        if x.Ok? && y.Ok? && z.Ok? {
          assert x.value + (y.value + z.value) == (x.value + y.value) + z.value;
        }
      }
    }
  }

  lemma PartsIdsOne(field: string)
    ensures PartsIds([field]) == FieldIds(field)
  {
    var f := FieldIds(field);
    assert [field][1..] == [];
    assert f.Ok? ==> f.value + {} == f.value;
  }

  lemma CutSeq(fields: seq<string>, k: nat)
    requires k < |fields|
    ensures fields[..k + 1] == fields[..k] + [fields[k]]
    ensures fields == fields[..k + 1] + fields[k + 1..]
  {
  }

  lemma PartsIdsSnoc(fields: seq<string>, k: nat)
    requires k < |fields|
    ensures PartsIds(fields[..k + 1]) == Plus(PartsIds(fields[..k]), FieldIds(fields[k]))
    ensures PartsIds(fields[..k + 1]).ValueError? ==> PartsIds(fields).ValueError?
  {
    CutSeq(fields, k);
    PartsIdsConcat(fields[..k], [fields[k]]);
    PartsIdsOne(fields[k]);
    PartsIdsConcat(fields[..k + 1], fields[k + 1..]);
  }

  /** The loop of expand_task_range. */
  method ExpandTaskRange(spec: string) returns (r: Result<seq<int>>)
    ensures r == Expand(spec)
  {
    var fields := Split(Trim(Before(spec, '%')), ',');
    var ids: set<int> := {};
    for i := 0 to |fields|
      invariant PartsIds(fields[..i]) == Ok(ids)
    {
      PartsIdsSnoc(fields, i);
      var part := Trim(fields[i]);
      if part != "" {
        var added := ExpandPart(part);
        if added.ValueError? {
          return ValueError;
        }
        ids := ids + added.value;
      } else {
        assert ids + {} == ids;
      }
    }
    assert fields[..|fields|] == fields;
    return Ok(SortedIds(ids));
  }

  /** The body of that loop: one part with its optional step. */
  method ExpandPart(part: string) returns (r: Result<set<int>>)
    ensures r == PartIds(part)
  {
    var body, step := part, 1;
    var stepped := Cut(part, ':');
    if stepped.Some? {
      var parsed := ParseInt(stepped.value.1, 10);
      if parsed.None? || parsed.value < 1 {
        return ValueError;
      }
      body, step := stepped.value.0, parsed.value;
    }
    var bounds := Cut(body, '-');
    if bounds.Some? {
      var lo, hi := ParseInt(bounds.value.0, 10), ParseInt(bounds.value.1, 10);
      if lo.None? || hi.None? || hi.value < lo.value {
        return ValueError;
      }
      return Ok(Stride(lo.value, hi.value, step));
    }
    var id := ParseInt(body, 10);
    return if id.None? then ValueError else Ok({id.value});
  }

  // ---------- what the text means ----------

  lemma ExpandEmpty()
    ensures Expand("") == Ok([])
  {
  }

  /** One part of a range text, before it is printed. */
  datatype Term = One(id: nat) | Span(lo: nat, hi: nat) | Strided(lo: nat, hi: nat, step: nat)

  function TermText(t: Term): string {
    match t
    case One(id) => NatText(id)
    case Span(lo, hi) => NatText(lo) + "-" + NatText(hi)
    case Strided(lo, hi, step) => NatText(lo) + "-" + NatText(hi) + ":" + NatText(step)
  }

  predicate TermOk(t: Term) {
    match t
    case One(_) => true
    case Span(lo, hi) => lo <= hi
    case Strided(lo, hi, step) => lo <= hi && step >= 1
  }

  function TermIds(t: Term): set<int>
    requires TermOk(t)
  {
    match t
    case One(id) => {id}
    case Span(lo, hi) => Interval(lo, hi)
    case Strided(lo, hi, step) => Stride(lo, hi, step)
  }

  function TermsText(ts: seq<Term>): string {
    Join(TermTexts(ts), ',')
  }

  function TermsIds(ts: seq<Term>): set<int>
    requires AllOk(ts)
  {
    if ts == [] then {} else TermsIds(ts[..|ts| - 1]) + TermIds(ts[|ts| - 1])
  }

  /** A text over digits and dashes that starts and ends with a digit is one untrimmed part. */
  lemma SpanText(lo: nat, hi: nat)
    ensures var s := NatText(lo) + "-" + NatText(hi);
            && BodyIds(NatText(lo), 1) == Ok({lo})
            && (forall step | step >= 1 ::
                 BodyIds(s, step) == if hi < lo then ValueError else Ok(Stride(lo, hi, step)))
            && (forall c | c in s :: c == '-' || '0' <= c <= '9')
            && '0' <= s[0] <= '9' && '0' <= s[|s| - 1] <= '9'
  {
    ParseNatText(lo);
    ParseNatText(hi);
    CutAt(NatText(lo), '-', NatText(hi));
    var s := NatText(lo) + "-" + NatText(hi);
    assert '-' !in NatText(lo);
    assert Cut(s, '-') == Some((NatText(lo), NatText(hi)));
  }

  /** The separators of the list and of the throttle never occur in a term, and nothing is trimmed. */
  ghost predicate IsPart(s: string) {
    ',' !in s && '%' !in s && Trim(s) == s != ""
  }

  lemma PartIdsOfTerm(t: Term)
    ensures PartIds(TermText(t)) == if TermOk(t) then Ok(TermIds(t)) else ValueError
    ensures IsPart(TermText(t))
  {
    match t {
      case One(id) => OneIsPart(id);
      case Span(lo, hi) => SpanIsPart(lo, hi);
      case Strided(lo, hi, step) => StridedIsPart(lo, hi, step);
    }
  }

  lemma OneIsPart(id: nat)
    ensures PartIds(NatText(id)) == Ok({id}) && IsPart(NatText(id))
  {
    SpanText(id, id);
    assert ':' !in NatText(id);
    TrimDigits(NatText(id));
  }

  lemma SpanIsPart(lo: nat, hi: nat)
    ensures var s := NatText(lo) + "-" + NatText(hi);
            && PartIds(s) == (if lo <= hi then Ok(Interval(lo, hi)) else ValueError)
            && IsPart(s)
  {
    var s := NatText(lo) + "-" + NatText(hi);
    SpanText(lo, hi);
    StrideOne(lo, hi);
    assert ':' !in s;
    TrimDigits(s);
  }

  lemma StridedIsPart(lo: nat, hi: nat, step: nat)
    ensures var s := NatText(lo) + "-" + NatText(hi) + ":" + NatText(step);
            && PartIds(s) == (if lo <= hi && step >= 1 then Ok(Stride(lo, hi, step)) else ValueError)
            && IsPart(s)
  {
    var body := NatText(lo) + "-" + NatText(hi);
    SpanText(lo, hi);
    SteppedPart(body, step);
  }

  lemma SteppedPart(body: string, step: nat)
    requires body != "" && '0' <= body[0] <= '9'
    requires forall c | c in body :: c == '-' || '0' <= c <= '9'
    ensures var s := body + ":" + NatText(step);
            PartIds(s) == (if step < 1 then ValueError else BodyIds(body, step)) && IsPart(s)
  {
    var stepText := NatText(step);
    ParseNatText(step);
    CutAt(body, ':', stepText);
    SteppedIsPart(body, stepText);
  }

  lemma SteppedIsPart(body: string, stepText: string)
    requires body != "" && '0' <= body[0] <= '9' && stepText != ""
    requires forall c | c in body || c in stepText :: c == '-' || '0' <= c <= '9'
    ensures IsPart(body + ":" + stepText)
  {
    var s := body + ":" + stepText;
    assert s[0] == body[0] && s[|s| - 1] == stepText[|stepText| - 1];
    assert stepText[|stepText| - 1] in stepText;
    TrimDigits(s);
  }

  function TermTexts(ts: seq<Term>): seq<string> {
    seq(|ts|, i requires 0 <= i < |ts| => TermText(ts[i]))
  }

  lemma TermTextsSnoc(ts: seq<Term>)
    requires ts != []
    ensures var n, texts := |ts| - 1, TermTexts(ts);
            texts[..n] == TermTexts(ts[..n]) && texts[..n + 1] == texts && texts[n] == TermText(ts[n])
  {
  }

  predicate AllOk(ts: seq<Term>) {
    forall t | t in ts :: TermOk(t)
  }

  lemma AllOkSnoc(ts: seq<Term>)
    requires ts != []
    ensures AllOk(ts) <==> AllOk(ts[..|ts| - 1]) && TermOk(ts[|ts| - 1])
  {
  }

  lemma {:induction false} PartsIdsOfTerms(ts: seq<Term>)
    ensures PartsIds(TermTexts(ts)) == if AllOk(ts) then Ok(TermsIds(ts)) else ValueError
  {
    if ts != [] {
      var n := |ts| - 1;
      TermTextsSnoc(ts);
      PartsIdsSnoc(TermTexts(ts), n);
      PartsIdsOfTerms(ts[..n]);
      PartIdsOfTerm(ts[n]);
      assert FieldIds(TermText(ts[n])) == PartIds(TermText(ts[n]));
      AllOkSnoc(ts);
    }
  }

  lemma {:induction false} JoinLacks(parts: seq<string>, c: char, d: char)
    requires c != d && forall i | 0 <= i < |parts| :: d !in parts[i]
    ensures d !in Join(parts, c)
  {
    if |parts| > 1 {
      JoinLacks(parts[1..], c, d);
    }
  }

  lemma {:induction false} JoinUntrimmed(parts: seq<string>, c: char)
    requires |parts| >= 1 && !IsSpace(c)
    requires forall i | 0 <= i < |parts| :: parts[i] != "" && Trim(parts[i]) == parts[i]
    ensures Join(parts, c) != "" && Trim(Join(parts, c)) == Join(parts, c)
  {
    if |parts| > 1 {
      JoinUntrimmed(parts[1..], c);
      var rest := Join(parts[1..], c);
      EndsOfTrimmed(parts[0]);
      EndsOfTrimmed(rest);
      TrimDigits(Join(parts, c));
    }
  }

  lemma EndsOfTrimmed(s: string)
    requires s != "" && Trim(s) == s
    ensures !IsSpace(s[0]) && !IsSpace(s[|s| - 1])
  {
    TrimLeftShortens(s);
    TrimRightShortens(TrimLeft(s));
  }

  lemma TrimLeftShortens(s: string)
    ensures |TrimLeft(s)| <= |s|
    ensures s != "" && IsSpace(s[0]) ==> |TrimLeft(s)| < |s|
  {
  }

  lemma TrimRightShortens(s: string)
    ensures |TrimRight(s)| <= |s|
    ensures s != "" && IsSpace(s[|s| - 1]) ==> |TrimRight(s)| < |s|
  {
  }

  lemma BeforeThrottle(text: string, throttle: string)
    requires '%' !in text && (throttle == "" || throttle[0] == '%')
    ensures Before(text + throttle, '%') == text
  {
    if throttle == "" {
      assert text + throttle == text;
    } else {
      assert text + throttle == text + ['%'] + throttle[1..];
      CutAt(text, '%', throttle[1..]);
    }
  }

  lemma TermsParts(ts: seq<Term>)
    ensures forall i | 0 <= i < |ts| :: IsPart(TermTexts(ts)[i])
    ensures '%' !in TermsText(ts)
  {
    forall i | 0 <= i < |ts| ensures IsPart(TermTexts(ts)[i]) {
      PartIdsOfTerm(ts[i]);
    }
    JoinLacks(TermTexts(ts), ',', '%');
  }

  /** The printed list splits back into its terms. */
  lemma TermsSplit(ts: seq<Term>)
    requires ts != []
    ensures Split(Trim(TermsText(ts)), ',') == TermTexts(ts)
  {
    TermsParts(ts);
    JoinUntrimmed(TermTexts(ts), ',');
    SplitJoin(TermTexts(ts), ',');
  }

  /** The printer and the parser agree on every range text, with or without a throttle suffix:
      well-formed terms expand to the ascending list of their ids, and one descending range or
      zero step makes the whole text an error. */
  lemma ExpandOfTerms(ts: seq<Term>, throttle: string)
    requires throttle == "" || throttle[0] == '%'
    ensures Expand(TermsText(ts) + throttle) ==
            if AllOk(ts) then Ok(SortedIds(TermsIds(ts))) else ValueError
  {
    TermsParts(ts);
    BeforeThrottle(TermsText(ts), throttle);
    PartsIdsOfTerms(ts);
    if ts == [] {
      ExpandEmpty();
    } else {
      TermsSplit(ts);
    }
  }

  // ---------- task_range_from_bitmask ----------

  /** Bit i of a number in two's complement. */
  predicate Bit(bits: int, i: nat)
    decreases i
  {
    if i == 0 then bits % 2 == 1 else Bit(bits / 2, i - 1)
  }

  function BitLength(bits: nat): nat {
    if bits == 0 then 0 else 1 + BitLength(bits / 2)
  }

  /** The positions below n where a bit is set. */
  function BitsBelow(bits: int, n: nat): (s: seq<nat>)
    ensures forall i: nat :: i in s <==> i < n && Bit(bits, i)
    ensures forall k | 0 <= k < |s| :: s[k] < n
    ensures Ascending(s)
  {
    if n == 0 then []
    else if Bit(bits, n - 1) then BitsBelow(bits, n - 1) + [n - 1]
    else BitsBelow(bits, n - 1)
  }

  function SetBits(bits: int): seq<nat> {
    BitsBelow(bits, BitLength(if bits < 0 then -bits else bits))
  }

  lemma {:induction false} BitBelowLength(bits: nat, i: nat)
    requires Bit(bits, i)
    ensures i < BitLength(bits)
  {
    if i > 0 {
      BitBelowLength(bits / 2, i - 1);
    }
  }

  lemma {:induction false} SetBitsExact(bits: nat, i: nat)
    ensures i in SetBits(bits) <==> Bit(bits, i)
  {
    if Bit(bits, i) {
      BitBelowLength(bits, i);
    }
  }

  /** Consecutive ids gathered into runs; a run of one id is printed without a dash. */
  function RunTerm(first: nat, last: nat): Term {
    if first == last then One(first) else Span(first, last)
  }

  datatype Run = Run(first: nat, last: nat)

  /** What one more task does to the runs. */
  function Extend(runs: seq<Run>, t: nat): seq<Run> {
    if runs != [] && runs[|runs| - 1].last + 1 == t
    then runs[..|runs| - 1] + [Run(runs[|runs| - 1].first, t)]
    else runs + [Run(t, t)]
  }

  function Runs(tasks: seq<nat>): (runs: seq<Run>)
    ensures tasks == [] <==> runs == []
    ensures tasks != [] ==> runs[|runs| - 1].last == tasks[|tasks| - 1]
  {
    if tasks == [] then []
    else
      Extend(Runs(tasks[..|tasks| - 1]), tasks[|tasks| - 1])
  }

  function RunTerms(runs: seq<Run>): seq<Term> {
    seq(|runs|, i requires 0 <= i < |runs| => RunTerm(runs[i].first, runs[i].last))
  }

  /** Ascending, and between two neighbours at least one id is absent. */
  ghost predicate MaximalRuns(runs: seq<Run>) {
    && (forall r | r in runs :: r.first <= r.last)
    && (forall i, j | 0 <= i < j < |runs| :: runs[i].last + 1 < runs[j].first)
  }

  lemma RunTermsSnoc(runs: seq<Run>, r: Run)
    requires r.first <= r.last && forall q | q in runs :: q.first <= q.last
    ensures AllOk(RunTerms(runs)) && AllOk(RunTerms(runs + [r]))
    ensures TermsIds(RunTerms(runs + [r])) == TermsIds(RunTerms(runs)) + Interval(r.first, r.last)
  {
    var terms := RunTerms(runs + [r]);
    assert terms[..|runs|] == RunTerms(runs);
    forall i | 0 <= i < |terms| ensures TermOk(terms[i]) {
      assert (runs + [r])[i] in runs + [r];
    }
    assert TermIds(terms[|runs|]) == Interval(r.first, r.last);
  }

  ghost predicate Covers(runs: seq<Run>, ids: set<int>) {
    && MaximalRuns(runs)
    && AllOk(RunTerms(runs))
    && TermsIds(RunTerms(runs)) == ids
  }

  lemma ExtendMaximal(runs: seq<Run>, t: nat)
    requires MaximalRuns(runs)
    requires runs != [] ==> runs[|runs| - 1].last < t
    ensures MaximalRuns(Extend(runs, t))
  {
  }

  lemma ExtendCovers(runs: seq<Run>, ids: set<int>, t: nat)
    requires Covers(runs, ids)
    requires runs != [] ==> runs[|runs| - 1].last < t
    ensures Covers(Extend(runs, t), ids + {t})
  {
    ExtendMaximal(runs, t);
    if runs != [] && runs[|runs| - 1].last + 1 == t {
      ExtendJoins(runs, t);
    } else {
      RunTermsSnoc(runs, Run(t, t));
      assert Interval(t, t) == {t};
    }
  }

  lemma ExtendJoins(runs: seq<Run>, t: nat)
    requires MaximalRuns(runs) && AllOk(RunTerms(runs))
    requires runs != [] && runs[|runs| - 1].last + 1 == t
    ensures AllOk(RunTerms(Extend(runs, t)))
    ensures TermsIds(RunTerms(Extend(runs, t))) == TermsIds(RunTerms(runs)) + {t}
  {
    var closed, open := runs[..|runs| - 1], runs[|runs| - 1];
    assert runs == closed + [open];
    assert open in runs;
    LastRunGrows(closed, open, t);
  }

  lemma LastRunGrows(closed: seq<Run>, open: Run, t: nat)
    requires open.first <= open.last && open.last + 1 == t
    requires forall q | q in closed :: q.first <= q.last
    ensures AllOk(RunTerms(closed + [open])) && AllOk(RunTerms(closed + [Run(open.first, t)]))
    ensures TermsIds(RunTerms(closed + [Run(open.first, t)]))
         == TermsIds(RunTerms(closed + [open])) + {t}
  {
    RunTermsSnoc(closed, open);
    RunTermsSnoc(closed, Run(open.first, t));
    assert Interval(open.first, t) == Interval(open.first, open.last) + {t};
  }

  /** The runs are maximal and cover exactly the tasks. */
  lemma {:induction false} RunsMaximal(tasks: seq<nat>)
    requires Ascending(tasks)
    ensures Covers(Runs(tasks), Elements(tasks))
  {
    if tasks != [] {
      var init, t := tasks[..|tasks| - 1], tasks[|tasks| - 1];
      RunsMaximal(init);
      assert Elements(tasks) == Elements(init) + {t} by { assert tasks == init + [t]; }
      ExtendCovers(Runs(init), Elements(init), t);
    }
  }

  /** task_range_from_bitmask as a function of its text. */
  function BitmaskText(text: string): Result<string> {
    match ParseInt(text, 16)
    case None => ValueError
    case Some(bits) => Ok(TermsText(RunTerms(Runs(SetBits(bits)))))
  }

  method TaskRangeFromBitmask(text: string) returns (r: Result<string>)
    ensures r == BitmaskText(text)
  {
    var parsed := ParseInt(text, 16);
    if parsed.None? {
      return ValueError;
    }
    var printed := PrintRuns(SetBits(parsed.value));
    return Ok(printed);
  }

  /** One id stands alone, more are written with a dash. */
  lemma RunTexts(first: nat, last: nat)
    requires first <= last
    ensures first == last ==> RunText(first, last) == NatText(first)
    ensures first < last ==> RunText(first, last) == NatText(first) + "-" + NatText(last)
  {
  }

  /** A negative mask names the bits below its magnitude's length. */
  lemma NegativeBitmask(bits: int, i: nat)
    requires bits < 0
    ensures i in SetBits(bits) <==> i < BitLength(-bits) && Bit(bits, i)
  {
  }

  lemma RunsStep(tasks: seq<nat>, k: nat)
    requires k < |tasks|
    ensures Runs(tasks[..k + 1]) == Extend(Runs(tasks[..k]), tasks[k])
  {
    assert tasks[..k + 1][..k] == tasks[..k];
  }

  function RunText(first: nat, last: nat): string {
    TermText(RunTerm(first, last))
  }

  /** `ranges` holds the texts of all runs but the last, which is still open. */
  ghost predicate Closed(ranges: seq<string>, runs: seq<Run>, start: nat, prev: nat) {
    && |runs| == |ranges| + 1
    && runs[|ranges|] == Run(start, prev)
    && forall i | 0 <= i < |ranges| :: ranges[i] == RunText(runs[i].first, runs[i].last)
  }

  lemma ClosedStep(ranges: seq<string>, runs: seq<Run>, start: nat, prev: nat, t: nat)
    requires Closed(ranges, runs, start, prev)
    ensures t == prev + 1 ==> Closed(ranges, Extend(runs, t), start, t)
    ensures t != prev + 1 ==> Closed(ranges + [RunText(start, prev)], Extend(runs, t), t, t)
  {
  }

  lemma ClosedTexts(ranges: seq<string>, runs: seq<Run>, start: nat, prev: nat)
    requires Closed(ranges, runs, start, prev)
    ensures ranges + [RunText(start, prev)] == TermTexts(RunTerms(runs))
  {
  }

  /** Its loop: one pass that extends the open run or closes it. */
  method PrintRuns(tasks: seq<nat>) returns (text: string)
    ensures text == TermsText(RunTerms(Runs(tasks)))
  {
    var ranges: seq<string> := [];
    var start: Option<nat>, prev: nat := None, 0;
    for k := 0 to |tasks|
      invariant start.None? ==> k == 0 && ranges == []
      invariant start.Some? ==> Closed(ranges, Runs(tasks[..k]), start.value, prev)
    {
      var t := tasks[k];
      RunsStep(tasks, k);
      if start.None? {
        start, prev := Some(t), t;
      } else {
        ClosedStep(ranges, Runs(tasks[..k]), start.value, prev, t);
        if t == prev + 1 {
          prev := t;
        } else {
          ranges := ranges + [RunText(start.value, prev)];
          start, prev := Some(t), t;
        }
      }
    }
    assert tasks[..|tasks|] == tasks;
    if start.Some? {
      ClosedTexts(ranges, Runs(tasks), start.value, prev);
      ranges := ranges + [RunText(start.value, prev)];
    }
    return Join(ranges, ',');
  }

  /** For every bitmask, expanding the printed text gives exactly the sorted positions of its set
      bits. */
  lemma BitmaskRoundTrip(bits: nat)
    ensures Expand(TermsText(RunTerms(Runs(SetBits(bits))))) == Ok(SetBits(bits))
    ensures Ascending(SetBits(bits)) && forall i: nat :: i in SetBits(bits) <==> Bit(bits, i)
    ensures MaximalRuns(Runs(SetBits(bits)))
  {
    var tasks := SetBits(bits);
    var terms := RunTerms(Runs(tasks));
    RunsMaximal(tasks);
    ExpandOfTerms(terms, "");
    assert TermsText(terms) + "" == TermsText(terms);
    AscendingUnique(SortedIds(TermsIds(terms)), tasks);
    forall i: nat ensures i in SetBits(bits) <==> Bit(bits, i) {
      SetBitsExact(bits, i);
    }
  }

  /** The same round trip from slurmdbd's text "0x..." on: all three notations name one set. */
  lemma HexBitmaskRoundTrip(bits: nat)
    ensures BitmaskText("0x" + Digits(bits, 16)).Ok?
    ensures Expand(BitmaskText("0x" + Digits(bits, 16)).value) == Ok(SetBits(bits))
    ensures forall i: nat :: i in SetBits(bits) <==> Bit(bits, i)
  {
    ParseHexText(bits);
    BitmaskRoundTrip(bits);
  }
}
