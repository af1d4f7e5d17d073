/**
 Python's string primitives on ASCII text: str(int), int(text, base), strip, split and join.
 The theorems are the round trips the task-range and file-name code relies on.
 */
module Text {
  import opened Wrappers

  // ---------- strip ----------

  predicate IsSpace(c: char) {
    c == ' ' || '\t' <= c <= '\r' || '\U{1c}' <= c <= '\U{1f}'
  }

  function TrimLeft(s: string): string {
    if s != "" && IsSpace(s[0]) then TrimLeft(s[1..]) else s
  }

  function TrimRight(s: string): string {
    if s != "" && IsSpace(s[|s| - 1]) then TrimRight(s[..|s| - 1]) else s
  }

  function Trim(s: string): string {
    TrimRight(TrimLeft(s))
  }

  // ---------- split and join ----------

  /** The parts between separators, one more than there are separators. */
  function Split(s: string, c: char): (parts: seq<string>)
    ensures |parts| >= 1
  {
    if s == "" then [""]
    else if s[0] == c then [""] + Split(s[1..], c)
    else
      var rest := Split(s[1..], c);
      [[s[0]] + rest[0]] + rest[1..]
  }

  function Join(parts: seq<string>, c: char): string {
    if |parts| == 0 then ""
    else if |parts| == 1 then parts[0]
    else parts[0] + [c] + Join(parts[1..], c)
  }

  /** What stands before and after the first separator, if there is one. */
  function Cut(s: string, c: char): (r: Option<(string, string)>)
    ensures r.Some? <==> c in s
    ensures r.Some? ==> s == r.value.0 + [c] + r.value.1 && c !in r.value.0
  {
    if s == "" then None
    else if s[0] == c then Some(("", s[1..]))
    else match Cut(s[1..], c)
      case None => None
      case Some((a, b)) => Some(([s[0]] + a, b))
  }

  /** Everything before the first c, or all of s. */
  function Before(s: string, c: char): string {
    match Cut(s, c)
    case None => s
    case Some((a, _)) => a
  }

  lemma {:induction false} CutAt(a: string, c: char, b: string)
    requires c !in a
    ensures Cut(a + [c] + b, c) == Some((a, b))
  {
    var s := a + [c] + b;
    if a == "" {
    } else {
      CutAt(a[1..], c, b);
      assert s[1..] == a[1..] + [c] + b;
      assert [a[0]] + a[1..] == a;
    }
  }

  lemma {:induction false} SplitPrefix(a: string, c: char, rest: string)
    requires c !in a
    ensures Split(a + [c] + rest, c) == [a] + Split(rest, c)
  {
    var s := a + [c] + rest;
    if a == "" {
      assert s[1..] == rest;
    } else {
      assert s[1..] == a[1..] + [c] + rest;
      SplitPrefix(a[1..], c, rest);
      assert [a[0]] + a[1..] == a;
    }
  }

  lemma {:induction false} SplitWhole(a: string, c: char)
    requires c !in a
    ensures Split(a, c) == [a]
  {
    if a != "" {
      SplitWhole(a[1..], c);
      assert [a[0]] + a[1..] == a;
    }
  }

  /** Splitting undoes joining when no part holds the separator. */
  lemma {:induction false} SplitJoin(parts: seq<string>, c: char)
    requires |parts| >= 1
    requires forall i | 0 <= i < |parts| :: c !in parts[i]
    ensures Split(Join(parts, c), c) == parts
  {
    if |parts| == 1 {
      SplitWhole(parts[0], c);
    } else {
      SplitPrefix(parts[0], c, Join(parts[1..], c));
      SplitJoin(parts[1..], c);
    }
  }

  // ---------- integers ----------

  function DigitChar(d: nat): (c: char)
    requires d < 16
    ensures '0' <= c <= '9' || 'A' <= c <= 'F'
    ensures d < 10 ==> '0' <= c <= '9'
  {
    if d < 10 then '0' + d as char else 'A' + (d - 10) as char
  }

  /** The digits of n, most significant first: str(n) in base 10, the part of hex(n) after 0x in
      base 16. */
  function Digits(n: nat, base: nat): (s: string)
    requires base == 10 || base == 16
    ensures |s| > 0
    ensures forall i | 0 <= i < |s| :: '0' <= s[i] <= '9' || (base == 16 && 'A' <= s[i] <= 'F')
  {
    if n < base then [DigitChar(n)] else Digits(n / base, base) + [DigitChar(n % base)]
  }

  function NatText(n: nat): (s: string)
    ensures |s| > 0
    ensures forall i | 0 <= i < |s| :: '0' <= s[i] <= '9'
  {
    Digits(n, 10)
  }

  function IntText(n: int): string {
    if n < 0 then "-" + NatText(-n) else NatText(n)
  }

  function DigitValue(c: char, base: nat): (r: Option<nat>)
    ensures r.Some? ==> r.value < base
  {
    var v: int :=
      if '0' <= c <= '9' then c as int - '0' as int
      else if 'a' <= c <= 'f' then c as int - 'a' as int + 10
      else if 'A' <= c <= 'F' then c as int - 'A' as int + 10
      else base;
    if v < base then Some(v) else None
  }

  /** A run of digits, single underscores allowed between two of them; `high` is what stands to
      the left. */
  function DigitRun(s: string, base: nat, high: nat): Option<nat> {
    if s == "" then None
    else match DigitValue(s[0], base)
      case None => None
      case Some(d) =>
        var v := high * base + d;
        if |s| == 1 then Some(v)
        else if s[1] == '_' then DigitRun(s[2..], base, v)
        else DigitRun(s[1..], base, v)
  }

  /** Python's integer parser for base 10 or 16: blanks around, one sign, the 0x prefix in base 16. */
  function ParseInt(text: string, base: nat): Option<int> {
    var t := Trim(text);
    var signed := t != "" && t[0] in "+-";
    var body := if signed then t[1..] else t;
    var prefixed := base == 16 && |body| >= 2 && body[0] == '0' && body[1] in "xX";
    var digits :=
      if !prefixed then body
      else if |body| > 2 && body[2] == '_' then body[3..] else body[2..];
    match DigitRun(digits, base, 0)
    case None => None
    case Some(v) => var n: int := v; Some(if signed && t[0] == '-' then -n else n)
  }

  predicate DigitsOnly(s: string, base: nat) {
    forall i | 0 <= i < |s| :: s[i] != '_' && DigitValue(s[i], base).Some?
  }

  lemma {:induction false} DigitRunSnoc(s: string, base: nat, high: nat, d: nat)
    requires s != "" && DigitsOnly(s, base) && d < base <= 16
    ensures DigitRun(s, base, high).Some?
    ensures DigitRun(s + [DigitChar(d)], base, high) == Some(DigitRun(s, base, high).value * base + d)
  {
    var t := s + [DigitChar(d)];
    var v := high * base + DigitValue(s[0], base).value;
    if |s| == 1 {
      assert t[1..] == [DigitChar(d)];
      assert DigitRun(t, base, high) == DigitRun(t[1..], base, v);
    } else {
      assert t[1..] == s[1..] + [DigitChar(d)];
      DigitRunSnoc(s[1..], base, v, d);
    }
  }

  lemma {:induction false} DigitRunOfDigits(n: nat, base: nat)
    requires base == 10 || base == 16
    ensures DigitRun(Digits(n, base), base, 0) == Some(n)
  {
    if n >= base {
      DigitRunOfDigits(n / base, base);
      DigitRunSnoc(Digits(n / base, base), base, 0, n % base);
    }
  }

  lemma TrimDigits(s: string)
    requires s != "" && !IsSpace(s[0]) && !IsSpace(s[|s| - 1])
    ensures Trim(s) == s
  {
  }

  /** Parsing a printed decimal gives the number back. */
  lemma ParseNatText(n: nat)
    ensures ParseInt(NatText(n), 10) == Some(n)
  {
    TrimDigits(NatText(n));
    DigitRunOfDigits(n, 10);
  }

  /** And so does parsing a printed hexadecimal. */
  lemma ParseHexText(n: nat)
    ensures ParseInt("0x" + Digits(n, 16), 16) == Some(n)
  {
    var t := "0x" + Digits(n, 16);
    TrimDigits(t);
    DigitRunOfDigits(n, 16);
    assert t[2..] == Digits(n, 16);
  }

  /** str is injective, so numbered names never collide. */
  lemma NatTextInjective(m: nat, n: nat)
    requires NatText(m) == NatText(n)
    ensures m == n
  {
    DigitRunOfDigits(m, 10);
    DigitRunOfDigits(n, 10);
  }

  function LowerHex(s: string): string {
    seq(|s|, i requires 0 <= i < |s| => if 'A' <= s[i] <= 'F' then 'a' + (s[i] - 'A') else s[i])
  }

  lemma {:induction false} RunCaseless(s: string, high: nat)
    ensures DigitRun(LowerHex(s), 16, high) == DigitRun(s, 16, high)
    decreases |s|
  {
    if s != "" && DigitValue(s[0], 16).Some? && |s| > 1 {
      var v := high * 16 + DigitValue(s[0], 16).value;
      assert LowerHex(s)[2..] == LowerHex(s[2..]) && LowerHex(s)[1..] == LowerHex(s[1..]);
      RunCaseless(s[2..], v);
      RunCaseless(s[1..], v);
    }
  }

  lemma LowerDigits(n: nat)
    ensures var lower := LowerHex(Digits(n, 16));
            lower != "" && forall i | 0 <= i < |lower| :: !IsSpace(lower[i]) && lower[i] != '_'
  {
  }

  /** Hexadecimal digits count in either case, and so does the x of the prefix. */
  lemma ParseHexCaseless(n: nat, x: char)
    requires x == 'x' || x == 'X'
    ensures ParseInt(['0', x] + Digits(n, 16), 16) == Some(n)
    ensures ParseInt(['0', x] + LowerHex(Digits(n, 16)), 16) == Some(n)
  {
    DigitRunOfDigits(n, 16);
    RunCaseless(Digits(n, 16), 0);
    LowerDigits(n);
    PrefixedHex(Digits(n, 16), x, n);
    PrefixedHex(LowerHex(Digits(n, 16)), x, n);
  }

  lemma PrefixedHex(digits: string, x: char, n: nat)
    requires (x == 'x' || x == 'X') && digits != "" && DigitRun(digits, 16, 0) == Some(n)
    requires forall i | 0 <= i < |digits| :: !IsSpace(digits[i]) && digits[i] != '_'
    ensures ParseInt(['0', x] + digits, 16) == Some(n)
    ensures ParseInt(['0', x, '_'] + digits, 16) == Some(n)
  {
    var t, u := ['0', x] + digits, ['0', x, '_'] + digits;
    TrimDigits(t);
    TrimDigits(u);
    assert t[2..] == digits && u[3..] == digits;
  }

  lemma IntTextLacks(n: int)
    ensures '_' !in IntText(n)
  {
  }

  /** int() takes back what str() writes, negative numbers too, and a plus sign. */
  lemma ParseIntText(n: int)
    ensures ParseInt(IntText(n), 10) == Some(n)
    ensures n >= 0 ==> ParseInt("+" + NatText(n), 10) == Some(n)
  {
    if n < 0 {
      var t := "-" + NatText(-n);
      TrimDigits(t);
      DigitRunOfDigits(-n, 10);
      assert t[1..] == NatText(-n);
    } else {
      var t := "+" + NatText(n);
      ParseNatText(n);
      TrimDigits(t);
      DigitRunOfDigits(n, 10);
      assert t[1..] == NatText(n);
    }
  }

  /** A single underscore between two digits does not count. */
  lemma {:induction false} RunUnderscore(s: string, t: string, base: nat, high: nat)
    requires DigitsOnly(s, base) && DigitsOnly(t, base) && s != "" && t != ""
    ensures DigitRun(s + "_" + t, base, high) == DigitRun(s + t, base, high)
  {
    var a, b := s + "_" + t, s + t;
    if |s| == 1 {
      assert a[2..] == t && b[1..] == t;
      assert t[0] != '_';
    } else {
      assert a[1..] == s[1..] + "_" + t && b[1..] == s[1..] + t;
      RunUnderscore(s[1..], t, base, high * base + DigitValue(s[0], base).value);
    }
  }

  /** Tabs and line ends are blanks as spaces are. */
  lemma ControlsAreSpace(c: char)
    ensures IsSpace(c) <==> c in " \t\n\r" || c == '\U{0b}' || c == '\U{0c}' || '\U{1c}' <= c <= '\U{1f}'
  {
  }

  lemma IntTextInjective(m: int, n: int)
    requires IntText(m) == IntText(n)
    ensures m == n
  {
    var a, b := IntText(m), IntText(n);
    assert m < 0 <==> a[0] == '-';
    assert n < 0 <==> b[0] == '-';
    if m < 0 {
      assert a[1..] == NatText(-m) && b[1..] == NatText(-n);
      NatTextInjective(-m, -n);
    } else {
      NatTextInjective(m, n);
    }
  }
}
