/**
 Range texts that are not as the printer writes them: blanks and empty parts are ignored, and a text
 that is no list of ranges is refused.
 */
module RangeTexts {
  import opened Wrappers
  import opened Text
  import opened TaskRanges

  // ---------- blanks ----------

  predicate Blank(s: string) {
    forall i | 0 <= i < |s| :: IsSpace(s[i])
  }

  lemma {:induction false} TrimLeftBlank(pad: string, s: string)
    requires Blank(pad)
    ensures TrimLeft(pad + s) == TrimLeft(s)
  {
    if pad == "" {
      assert pad + s == s;
    } else {
      assert (pad + s)[1..] == pad[1..] + s;
      TrimLeftBlank(pad[1..], s);
    }
  }

  lemma {:induction false} TrimRightBlank(s: string, pad: string)
    requires Blank(pad)
    ensures TrimRight(s + pad) == TrimRight(s)
  {
    if pad == "" {
      assert s + pad == s;
    } else {
      var init := pad[..|pad| - 1];
      assert (s + pad)[..|s + pad| - 1] == s + init;
      TrimRightBlank(s, init);
    }
  }

  lemma {:induction false} TrimLeftAll(pad: string)
    requires Blank(pad)
    ensures TrimLeft(pad) == ""
  {
    if pad != "" {
      TrimLeftAll(pad[1..]);
    }
  }

  /** Blanks around a trimmed text are what Trim takes away. */
  lemma TrimPadded(left: string, s: string, right: string)
    requires Blank(left) && Blank(right) && Trim(s) == s
    ensures Trim(left + s + right) == s
  {
    if s == "" {
      assert left + s + right == left + right;
      TrimLeftBlank(left, right);
      TrimLeftAll(right);
    } else {
      EndsOfTrimmed(s);
      assert left + s + right == left + (s + right);
      TrimLeftBlank(left, s + right);
      assert TrimLeft(s + right) == s + right;
      TrimRightBlank(s, right);
      TrimDigits(s);
    }
  }

  /** So int() takes a number with blanks around it. */
  lemma ParsePadded(left: string, n: nat, right: string)
    requires Blank(left) && Blank(right)
    ensures ParseInt(left + NatText(n) + right, 10) == Some(n)
  {
    TrimDigits(NatText(n));
    TrimPadded(left, NatText(n), right);
    ParseNatText(n);
  }

  lemma SplitOther(s: string, x: char, c: char)
    requires x != c
    ensures Split([x] + s, c) == [[x] + Split(s, c)[0]] + Split(s, c)[1..]
  {
    assert ([x] + s)[1..] == s;
  }

  lemma SplitAt(s: string, c: char)
    ensures Split([c] + s, c) == [""] + Split(s, c)
  {
    assert ([c] + s)[1..] == s;
  }

  /** The last part with one more character. */
  function AddLast(parts: seq<string>, x: char): seq<string>
    requires parts != []
  {
    parts[..|parts| - 1] + [parts[|parts| - 1] + [x]]
  }

  lemma AddLastCons(head: string, rest: seq<string>, x: char)
    requires rest != []
    ensures AddLast([head] + rest, x) == [head] + AddLast(rest, x)
  {
  }

  lemma AddLastHead(y: char, rest: seq<string>, x: char)
    requires rest != []
    ensures var longer := AddLast(rest, x);
            AddLast([[y] + rest[0]] + rest[1..], x) == [[y] + longer[0]] + longer[1..]
  {
    if |rest| == 1 {
      assert [y] + (rest[0] + [x]) == ([y] + rest[0]) + [x];
    }
  }

  lemma {:induction false} SplitSnoc(s: string, x: char, c: char)
    requires x != c
    ensures Split(s + [x], c) == AddLast(Split(s, c), x)
  {
    if s == "" {
      assert s + [x] == [x] + "";
      SplitOther("", x, c);
      assert [x] + "" == "" + [x];
    } else {
      var y, rest := s[0], Split(s[1..], c);
      assert s + [x] == [y] + (s[1..] + [x]) && s == [y] + s[1..];
      SplitSnoc(s[1..], x, c);
      if y == c {
        SplitAt(s[1..] + [x], c);
        SplitAt(s[1..], c);
        AddLastCons("", rest, x);
      } else {
        SplitOther(s[1..] + [x], y, c);
        SplitOther(s[1..], y, c);
        AddLastHead(y, rest, x);
      }
    }
  }

  lemma FieldBlank(left: string, field: string, right: string)
    requires Blank(left) && Blank(right)
    ensures FieldIds(left + field + right) == FieldIds(field)
  {
    assert left + field + right == left + (field + right);
    TrimLeftBlank(left, field + right);
    TrimFieldRight(field, right);
  }

  lemma {:induction false} TrimFieldRight(field: string, right: string)
    requires Blank(right)
    ensures Trim(field + right) == Trim(field)
  {
    if field == "" {
      assert field + right == right;
      TrimLeftAll(right);
    } else if IsSpace(field[0]) {
      assert (field + right)[1..] == field[1..] + right;
      TrimFieldRight(field[1..], right);
    } else {
      TrimRightBlank(field, right);
    }
  }

  lemma PartsHead(fields: seq<string>, head: string)
    requires fields != [] && FieldIds(head) == FieldIds(fields[0])
    ensures PartsIds([head] + fields[1..]) == PartsIds(fields)
  {
    assert ([head] + fields[1..])[1..] == fields[1..];
  }

  lemma PartsLast(fields: seq<string>, last: string)
    requires fields != [] && FieldIds(last) == FieldIds(fields[|fields| - 1])
    ensures PartsIds(fields[..|fields| - 1] + [last]) == PartsIds(fields)
  {
    var n := |fields| - 1;
    PartsIdsConcat(fields[..n], [last]);
    PartsIdsOne(last);
    PartsIdsSnoc(fields, n);
    assert fields[..n + 1] == fields;
  }

  lemma {:induction false} PartsOfTrimLeft(s: string)
    ensures PartsIds(Split(TrimLeft(s), ',')) == PartsIds(Split(s, ','))
  {
    if s != "" && IsSpace(s[0]) {
      PartsOfTrimLeft(s[1..]);
      var rest := Split(s[1..], ',');
      FieldBlank([s[0]], rest[0], "");
      assert [s[0]] + rest[0] + "" == [s[0]] + rest[0];
      PartsHead(rest, [s[0]] + rest[0]);
    }
  }

  lemma {:induction false} PartsOfTrimRight(s: string)
    ensures PartsIds(Split(TrimRight(s), ',')) == PartsIds(Split(s, ','))
  {
    if s != "" && IsSpace(s[|s| - 1]) {
      var init, x := s[..|s| - 1], s[|s| - 1];
      PartsOfTrimRight(init);
      assert s == init + [x];
      SplitSnoc(init, x, ',');
      var parts := Split(init, ',');
      FieldBlank("", parts[|parts| - 1], [x]);
      assert "" + parts[|parts| - 1] + [x] == parts[|parts| - 1] + [x];
      PartsLast(parts, parts[|parts| - 1] + [x]);
    }
  }

  lemma PartsOfTrim(s: string)
    ensures PartsIds(Split(Trim(s), ',')) == PartsIds(Split(s, ','))
  {
    PartsOfTrimLeft(s);
    PartsOfTrimRight(TrimLeft(s));
  }

  // ---------- texts with blanks and empty parts ----------

  /** One part as a person may write it: a term or nothing, with blanks around it. */
  datatype Field = Field(left: string, term: Option<Term>, right: string)

  function FieldText(f: Field): string {
    f.left + (if f.term.Some? then TermText(f.term.value) else "") + f.right
  }

  function FieldTexts(fs: seq<Field>): seq<string> {
    seq(|fs|, i requires 0 <= i < |fs| => FieldText(fs[i]))
  }

  predicate FieldOk(f: Field) {
    Blank(f.left) && Blank(f.right)
  }

  function TermsOf(fs: seq<Field>): seq<Term> {
    if fs == [] then []
    else TermsOf(fs[..|fs| - 1])
         + if fs[|fs| - 1].term.Some? then [fs[|fs| - 1].term.value] else []
  }

  lemma FieldMeans(f: Field)
    requires FieldOk(f)
    ensures FieldIds(FieldText(f)) ==
            match f.term
            case None => Ok({})
            case Some(t) => if TermOk(t) then Ok(TermIds(t)) else ValueError
    ensures ',' !in FieldText(f) && '%' !in FieldText(f)
  {
    match f.term {
      case None => FieldBlank(f.left, "", f.right);
      case Some(t) =>
        PartIdsOfTerm(t);
        FieldBlank(f.left, TermText(t), f.right);
    }
  }

  lemma TermsOkSnoc(ts: seq<Term>, t: Term)
    ensures AllOk(ts + [t]) <==> AllOk(ts) && TermOk(t)
    ensures AllOk(ts + [t]) ==> TermsIds(ts + [t]) == TermsIds(ts) + TermIds(t)
  {
    AllOkSnoc(ts + [t]);
    assert (ts + [t])[..|ts|] == ts;
  }

  lemma {:induction false} PartsIdsOfFields(fs: seq<Field>)
    requires forall f | f in fs :: FieldOk(f)
    ensures PartsIds(FieldTexts(fs)) ==
            if AllOk(TermsOf(fs)) then Ok(TermsIds(TermsOf(fs))) else ValueError
  {
    if fs != [] {
      var n := |fs| - 1;
      var texts := FieldTexts(fs);
      assert texts[..n] == FieldTexts(fs[..n]) && texts[..n + 1] == texts;
      PartsIdsSnoc(texts, n);
      PartsIdsOfFields(fs[..n]);
      FieldMeans(fs[n]);
      if fs[n].term.Some? {
        TermsOkSnoc(TermsOf(fs[..n]), fs[n].term.value);
      } else {
        assert TermsOf(fs[..n]) + [] == TermsOf(fs[..n]);
        assert AllOk(TermsOf(fs[..n])) ==> TermsIds(TermsOf(fs[..n])) + {} == TermsIds(TermsOf(fs[..n]));
      }
    }
  }

  lemma FieldsLack(fs: seq<Field>)
    requires forall f | f in fs :: FieldOk(f)
    ensures forall i | 0 <= i < |fs| :: ',' !in FieldTexts(fs)[i]
    ensures '%' !in Join(FieldTexts(fs), ',')
  {
    forall i | 0 <= i < |fs| ensures ',' !in FieldTexts(fs)[i] && '%' !in FieldTexts(fs)[i] {
      FieldMeans(fs[i]);
    }
    JoinLacks(FieldTexts(fs), ',', '%');
  }

  /** The parser's meaning on every list of parts, however it is spaced and whatever parts are empty:
      the ascending list of what the terms name, or an error iff one of them descends or has step
      zero. */
  lemma ExpandOfFields(fs: seq<Field>, throttle: string)
    requires fs != [] && forall f | f in fs :: FieldOk(f)
    requires throttle == "" || throttle[0] == '%'
    ensures Expand(Join(FieldTexts(fs), ',') + throttle) ==
            if AllOk(TermsOf(fs)) then Ok(SortedIds(TermsIds(TermsOf(fs)))) else ValueError
  {
    var text := Join(FieldTexts(fs), ',');
    FieldsLack(fs);
    BeforeThrottle(text, throttle);
    PartsOfTrim(text);
    SplitJoin(FieldTexts(fs), ',');
    PartsIdsOfFields(fs);
  }

  // ---------- texts that are refused ----------

  /** A character that no range text has before its throttle. */
  predicate Foreign(c: char) {
    !IsSpace(c) && !('0' <= c <= '9') && c !in ",-:%_+"
  }

  lemma {:induction false} RunRefuses(s: string, c: char, high: nat)
    requires Foreign(c) && c in s
    ensures DigitRun(s, 10, high).None?
    decreases |s|
  {
    if DigitValue(s[0], 10).Some? && |s| > 1 {
      var v := high * 10 + DigitValue(s[0], 10).value;
      if s[1] == '_' {
        assert s == [s[0], s[1]] + s[2..];
        if s[2..] != "" { RunRefuses(s[2..], c, v); }
      } else {
        assert s == [s[0]] + s[1..];
        RunRefuses(s[1..], c, v);
      }
    }
  }

  lemma {:induction false} TrimKeeps(s: string, c: char)
    requires !IsSpace(c) && c in s
    ensures c in TrimLeft(s) && c in TrimRight(s)
    decreases |s|
  {
    assert s == [s[0]] + s[1..] == s[..|s| - 1] + [s[|s| - 1]];
    if IsSpace(s[0]) { TrimKeeps(s[1..], c); }
    if IsSpace(s[|s| - 1]) { TrimKeeps(s[..|s| - 1], c); }
  }

  lemma IntRefuses(text: string, c: char)
    requires Foreign(c) && c in text
    ensures ParseInt(text, 10).None?
  {
    TrimKeeps(text, c);
    TrimKeeps(TrimLeft(text), c);
    var t := Trim(text);
    assert t == [t[0]] + t[1..];
    var body := if t[0] in "+-" then t[1..] else t;
    assert c in body;
    RunRefuses(body, c, 0);
  }

  lemma BodyRefuses(body: string, step: int, c: char)
    requires step >= 1 && Foreign(c) && c in body
    ensures BodyIds(body, step).ValueError?
  {
    match Cut(body, '-') {
      case None => IntRefuses(body, c);
      case Some((low, high)) =>
        if c in low { IntRefuses(low, c); } else { IntRefuses(high, c); }
    }
  }

  lemma FieldRefuses(field: string, c: char)
    requires Foreign(c) && c in field
    ensures FieldIds(field).ValueError?
  {
    TrimKeeps(field, c);
    TrimKeeps(TrimLeft(field), c);
    var part := Trim(field);
    match Cut(part, ':') {
      case None => BodyRefuses(part, 1, c);
      case Some((body, stepText)) =>
        if c in stepText {
          IntRefuses(stepText, c);
        } else if ParseInt(stepText, 10).Some? && ParseInt(stepText, 10).value >= 1 {
          BodyRefuses(body, ParseInt(stepText, 10).value, c);
        }
    }
  }

  lemma {:induction false} SomeFieldHas(s: string, c: char) returns (i: nat)
    requires c != ',' && c in s
    ensures i < |Split(s, ',')| && c in Split(s, ',')[i]
  {
    assert s == [s[0]] + s[1..];
    if s[0] == c {
      i := 0;
    } else {
      var j := SomeFieldHas(s[1..], c);
      i := if s[0] == ',' then j + 1 else j;
    }
  }

  lemma {:induction false} PartsRefuse(fields: seq<string>, i: nat)
    requires i < |fields| && FieldIds(fields[i]).ValueError?
    ensures PartsIds(fields).ValueError?
  {
    if i > 0 {
      PartsRefuse(fields[1..], i - 1);
    }
  }

  /** A text with any foreign character before the throttle is refused, wherever it stands. */
  lemma ForeignRefused(spec: string, c: char)
    requires Foreign(c) && c in Before(spec, '%')
    ensures Expand(spec).ValueError?
  {
    var body := Before(spec, '%');
    PartsOfTrim(body);
    var i := SomeFieldHas(body, c);
    FieldRefuses(Split(body, ',')[i], c);
    PartsRefuse(Split(body, ','), i);
  }

  lemma OpenRangeRefused(bound: string)
    requires '-' !in bound && ':' !in bound
    ensures PartIds(bound + "-").ValueError? && PartIds("-" + bound).ValueError?
  {
    assert ParseInt("", 10) == None;
    CutAt(bound, '-', "");
    assert bound + "-" + "" == bound + "-";
    CutAt("", '-', bound);
    assert "" + "-" + bound == "-" + bound;
  }

  lemma OpenStepRefused(part: string)
    requires ':' !in part
    ensures PartIds(part + ":").ValueError?
  {
    assert ParseInt("", 10) == None;
    CutAt(part, ':', "");
    assert part + ":" + "" == part + ":";
  }

  /** So is one that lacks a bound or a step. */
  lemma IncompleteRefused(n: nat, part: string)
    requires ':' !in part
    ensures PartIds(NatText(n) + "-").ValueError?
    ensures PartIds("-" + NatText(n)).ValueError?
    ensures PartIds(part + ":").ValueError?
  {
    assert '-' !in NatText(n) && ':' !in NatText(n);
    OpenRangeRefused(NatText(n));
    OpenStepRefused(part);
  }
}
