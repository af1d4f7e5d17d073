/**
 expand_stdio: sbatch file-name patterns. The regular expression %(\d*)([%jJAauxNnts]) is replaced
 in one left-to-right pass.
 */
module Stdio {
  import opened Wrappers
  import opened Text
  import opened Jobs

  const CODES: string := "%jJAauxNnts"

  /** The facts about a job that a file name can mention. */
  datatype Facts = Facts(
    jobId: int,
    arrayJobId: Option<int>,
    arrayTaskId: Option<int>,
    user: Option<string>,
    name: Option<string>,
    firstNode: Option<string>)

  predicate IsDigit(c: char) {
    '0' <= c <= '9'
  }

  predicate AllDigits(s: string) {
    s != "" && forall i | 0 <= i < |s| :: IsDigit(s[i])
  }

  /** What one code stands for; None when the job does not have it. */
  function Value(code: char, f: Facts): Option<string> {
    if code == 'j' || code == 'J' then Some(IntText(f.jobId))
    else if code == 'A' then
      Some(IntText(if f.arrayJobId.Some? then f.arrayJobId.value else f.jobId))
    else if code == 'a' then
      Some(if f.arrayTaskId.Some? then IntText(f.arrayTaskId.value) else "4294967294")
    else if code == 'u' then f.user
    else if code == 'x' then f.name
    else if code == 'N' then f.firstNode
    else if code == 'n' || code == 't' then Some("0")
    else Some("batch")
  }

  function Zeros(n: nat): (s: string)
    ensures |s| == n
  {
    if n == 0 then "" else "0" + Zeros(n - 1)
  }

  /** A value of digits, padded with zeros on the left to the width. */
  function Zfill(value: string, width: nat): string {
    if |value| >= width then value else Zeros(width - |value|) + value
  }

  /** The replacement of one match; `width` is the digits between % and the code. */
  function Image(width: string, code: char, f: Facts): string {
    if code == '%' then "%"
    else match Value(code, f)
      case None => "%" + width + [code]
      case Some(value) =>
        var n := DigitRun(width, 10, 0);
        if n.Some? && AllDigits(value) then Zfill(value, n.value) else value
  }

  // ---------- the pass ----------

  function LeadingDigits(s: string): (n: nat)
    ensures n <= |s|
    ensures forall i | 0 <= i < n :: IsDigit(s[i])
    ensures n < |s| ==> !IsDigit(s[n])
  {
    if s != "" && IsDigit(s[0]) then 1 + LeadingDigits(s[1..]) else 0
  }

  /** The width of the match that starts s, if one does. */
  function MatchAt(s: string): (r: Option<string>)
    ensures r.Some? ==> |s| >= |r.value| + 2 && s[0] == '%' && s[1..|r.value| + 1] == r.value
                        && s[|r.value| + 1] in CODES
                        && forall i | 0 <= i < |r.value| :: IsDigit(r.value[i])
  {
    if s == "" || s[0] != '%' then None
    else
      var n := LeadingDigits(s[1..]);
      if n + 1 < |s| && s[n + 1] in CODES then Some(s[1..n + 1]) else None
  }

  /** re.sub: a match is replaced and skipped, any other character is copied. */
  function Substitute(s: string, f: Facts): string {
    if s == "" then ""
    else match MatchAt(s)
      case Some(width) => Image(width, s[|width| + 1], f) + Substitute(s[|width| + 2..], f)
      case None => [s[0]] + Substitute(s[1..], f)
  }

  function RightStripSlash(s: string): string {
    if s != "" && s[|s| - 1] == '/' then RightStripSlash(s[..|s| - 1]) else s
  }

  function Anchored(path: string, workingDirectory: Option<string>): string {
    if !("/" <= path) && workingDirectory.Some? && workingDirectory.value != ""
    then RightStripSlash(workingDirectory.value) + "/" + path
    else path
  }

  function ExpandStdio(pattern: Option<string>, f: Facts, workingDirectory: Option<string>)
    : Option<string>
  {
    if pattern.None? || pattern.value == "" then None
    else Some(Anchored(Substitute(pattern.value, f), workingDirectory))
  }

  // ---------- single pass ----------

  datatype Token = Literal(c: char) | Pattern(width: string, code: char)

  function TokenText(t: Token): string {
    match t
    case Literal(c) => [c]
    case Pattern(width, code) => "%" + width + [code]
  }

  function TokenImage(t: Token, f: Facts): string {
    match t
    case Literal(c) => [c]
    case Pattern(width, code) => Image(width, code, f)
  }

  function TokensImage(ts: seq<Token>, f: Facts): string {
    if ts == [] then "" else TokenImage(ts[0], f) + TokensImage(ts[1..], f)
  }

  predicate IsPattern(t: Token) {
    t.Pattern? && t.code in CODES && forall i | 0 <= i < |t.width| :: IsDigit(t.width[i])
  }

  /** ts cuts s into patterns and single characters, a character only where no pattern starts. */
  predicate Segments(ts: seq<Token>, s: string) {
    if ts == [] then s == ""
    else
      var text := TokenText(ts[0]);
      && text <= s
      && Starts(ts[0], s)
      && Segments(ts[1..], s[|text|..])
  }

  lemma {:induction false} LeadingDigitsOf(w: string, rest: string)
    requires forall i | 0 <= i < |w| :: IsDigit(w[i])
    requires rest != "" && !IsDigit(rest[0])
    ensures LeadingDigits(w + rest) == |w|
  {
    if w == "" {
      assert w + rest == rest;
    } else {
      assert (w + rest)[1..] == w[1..] + rest;
      LeadingDigitsOf(w[1..], rest);
    }
  }

  lemma MatchFound(s: string, n: nat)
    requires n + 1 < |s| && s[0] == '%' && LeadingDigits(s[1..]) == n && s[n + 1] in CODES
    ensures MatchAt(s) == Some(s[1..n + 1])
  {
  }

  lemma PatternLayout(width: string, code: char, rest: string)
    ensures var s := "%" + width + [code] + rest;
            && s[0] == '%' && s[1..] == width + ([code] + rest)
            && s[|width| + 1] == code && s[1..|width| + 1] == width
            && s[|width| + 2..] == rest
  {
  }

  /** A pattern's text is matched as that pattern, whatever follows it. */
  lemma PatternMatches(t: Token, rest: string)
    requires IsPattern(t)
    ensures MatchAt(TokenText(t) + rest) == Some(t.width)
  {
    var s := TokenText(t) + rest;
    PatternLayout(t.width, t.code, rest);
    LeadingDigitsOf(t.width, [t.code] + rest);
    MatchFound(s, |t.width|);
  }

  /** The token a text starts with. */
  function FirstToken(s: string): (t: Token)
    requires s != ""
    ensures TokenText(t) <= s && TokenText(t) != ""
    ensures Starts(t, s)
  {
    match MatchAt(s)
    case Some(width) =>
      var t := Pattern(width, s[|width| + 1]);
      assert TokenText(t) == s[..|width| + 2];
      t
    case None => Literal(s[0])
  }

  /** A character is a token only where no pattern starts. */
  predicate Starts(t: Token, s: string) {
    match t
    case Literal(_) => MatchAt(s).None?
    case Pattern(_, _) => IsPattern(t)
  }

  lemma TokenStep(t: Token, rest: string, f: Facts)
    requires Starts(t, TokenText(t) + rest)
    ensures Substitute(TokenText(t) + rest, f) == TokenImage(t, f) + Substitute(rest, f)
  {
    var s := TokenText(t) + rest;
    match t {
      case Literal(c) => assert s[1..] == rest;
      case Pattern(width, code) =>
        PatternMatches(t, rest);
        PatternLayout(width, code, rest);
    }
  }

  lemma Rejoin(text: string, s: string)
    requires text <= s
    ensures s == text + s[|text|..]
  {
  }

  lemma TokenUnique(t: Token, rest: string)
    requires Starts(t, TokenText(t) + rest)
    ensures FirstToken(TokenText(t) + rest) == t
  {
    if t.Pattern? {
      PatternMatches(t, rest);
      PatternLayout(t.width, t.code, rest);
    }
  }

  /** The output is the concatenation of the images of the pattern's own tokens, so nothing inside
      a substituted user or job name is expanded again. */
  lemma {:induction false} SinglePass(ts: seq<Token>, s: string, f: Facts)
    requires Segments(ts, s)
    ensures Substitute(s, f) == TokensImage(ts, f)
  {
    if ts != [] {
      var rest := s[|TokenText(ts[0])|..];
      SinglePass(ts[1..], rest, f);
      Rejoin(TokenText(ts[0]), s);
      TokenStep(ts[0], rest, f);
    }
  }

  /** Such a cut exists for every text and is unique. */
  function Tokens(s: string): seq<Token> {
    if s == "" then []
    else [FirstToken(s)] + Tokens(s[|TokenText(FirstToken(s))|..])
  }

  lemma TokensCons(t: Token, rest: string)
    requires Starts(t, TokenText(t) + rest)
    ensures Tokens(TokenText(t) + rest) == [t] + Tokens(rest)
  {
    var s := TokenText(t) + rest;
    TokenUnique(t, rest);
    assert s[|TokenText(t)|..] == rest;
  }

  lemma {:induction false} TokensSegment(s: string)
    ensures Segments(Tokens(s), s)
  {
    if s != "" {
      var rest := s[|TokenText(FirstToken(s))|..];
      TokensSegment(rest);
      assert Tokens(s)[1..] == Tokens(rest);
    }
  }

  lemma {:induction false} SegmentsUnique(ts: seq<Token>, s: string)
    requires Segments(ts, s)
    ensures ts == Tokens(s)
  {
    if ts != [] {
      var rest := s[|TokenText(ts[0])|..];
      SegmentsUnique(ts[1..], rest);
      Rejoin(TokenText(ts[0]), s);
      TokensCons(ts[0], rest);
      assert ts == [ts[0]] + ts[1..];
    }
  }

  // ---------- escaping ----------

  function EscapeChar(c: char): string {
    if c == '%' then "%%" else [c]
  }

  /** Every % doubled. */
  function Escape(s: string): string {
    if s == "" then "" else EscapeChar(s[0]) + Escape(s[1..])
  }

  lemma EscapedChar(c: char, tail: string, f: Facts)
    ensures Substitute(EscapeChar(c) + tail, f) == [c] + Substitute(tail, f)
  {
  }

  lemma EscapeCons(s: string, rest: string)
    requires s != ""
    ensures Escape(s) + rest == EscapeChar(s[0]) + (Escape(s[1..]) + rest)
  {
  }

  lemma Regroup(s: string, rest: string)
    requires s != ""
    ensures [s[0]] + (s[1..] + rest) == s + rest
  {
  }

  lemma {:induction false} EscapedStep(s: string, rest: string, f: Facts)
    ensures Substitute(Escape(s) + rest, f) == s + Substitute(rest, f)
  {
    var image := Substitute(rest, f);
    if s == "" {
      assert Escape(s) + rest == rest && s + image == image;
    } else {
      EscapeCons(s, rest);
      EscapedChar(s[0], Escape(s[1..]) + rest, f);
      EscapedStep(s[1..], rest, f);
      Regroup(s, image);
    }
  }

  /** A template: literal texts with patterns between them. */
  datatype Piece = Verbatim(text: string) | Code(pattern: Token)

  function Rendered(ps: seq<Piece>): string {
    if ps == [] then ""
    else (match ps[0]
          case Verbatim(text) => Escape(text)
          case Code(pattern) => TokenText(pattern)) + Rendered(ps[1..])
  }

  function Filled(ps: seq<Piece>, f: Facts): string {
    if ps == [] then ""
    else (match ps[0]
          case Verbatim(text) => text
          case Code(pattern) => TokenImage(pattern, f)) + Filled(ps[1..], f)
  }

  /** Writing a template with its literal parts escaped and expanding it fills in the patterns and
      returns every literal part unchanged. */
  lemma {:induction false} TemplateRoundTrip(ps: seq<Piece>, f: Facts)
    requires forall p | p in ps && p.Code? :: IsPattern(p.pattern)
    ensures Substitute(Rendered(ps), f) == Filled(ps, f)
  {
    if ps != [] {
      var rest := Rendered(ps[1..]);
      TemplateRoundTrip(ps[1..], f);
      match ps[0] {
        case Verbatim(text) => EscapedStep(text, rest, f);
        case Code(pattern) => TokenStep(pattern, rest, f);
      }
    }
  }

  /** Doubling every % of an absolute path and expanding returns the path. */
  lemma EscapeRoundTrip(path: string, f: Facts, workingDirectory: Option<string>)
    requires "/" <= path
    ensures ExpandStdio(Some(Escape(path)), f, workingDirectory) == Some(path)
  {
    EscapedStep(path, "", f);
    assert Escape(path) + "" == Escape(path) && path + "" == path;
  }

  // ---------- Slurm's default names ----------

  const DEFAULT_STDOUT := "slurm-%j.out"
  const DEFAULT_ARRAY_STDOUT := "slurm-%A_%a.out"

  function FactsOf(job: JobSummary, user: Option<string>, firstNode: Option<string>): Facts {
    Facts(job.jobId, job.arrayJobId, job.arrayTaskId, user, Some(job.name), firstNode)
  }

  lemma {:induction false} EscapePlain(s: string)
    requires '%' !in s
    ensures Escape(s) == s
  {
    if s != "" {
      EscapePlain(s[1..]);
    }
  }

  lemma PlainThen(s: string, rest: string, f: Facts)
    requires '%' !in s
    ensures Substitute(s + rest, f) == s + Substitute(rest, f)
  {
    EscapePlain(s);
    EscapedStep(s, rest, f);
  }

  lemma PlainText(s: string, f: Facts)
    requires '%' !in s
    ensures Substitute(s, f) == s
  {
    PlainThen(s, "", f);
    assert s + "" == s;
  }

  /** One code between plain texts. */
  lemma OneCode(pre: string, t: Token, post: string, f: Facts)
    requires IsPattern(t) && '%' !in pre && '%' !in post
    ensures Substitute(pre + (TokenText(t) + post), f) == pre + (TokenImage(t, f) + post)
  {
    PlainThen(pre, TokenText(t) + post, f);
    TokenStep(t, post, f);
    PlainText(post, f);
  }

  lemma CodeThen(pre: string, t: Token, rest: string, image: string, f: Facts)
    requires IsPattern(t) && '%' !in pre && Substitute(rest, f) == image
    ensures Substitute(pre + (TokenText(t) + rest), f) == pre + (TokenImage(t, f) + image)
  {
    PlainThen(pre, TokenText(t) + rest, f);
    TokenStep(t, rest, f);
  }

  lemma Group(a: string, b: string, c: string, d: string)
    ensures a + (b + (c + d)) == (a + b + c) + d
  {
  }

  lemma ArrayTemplate()
    ensures DEFAULT_ARRAY_STDOUT ==
            "slurm-" + (TokenText(Pattern("", 'A')) + ("_" + (TokenText(Pattern("", 'a')) + ".out")))
  {
  }

  lemma ArrayImages(job: JobSummary, f: Facts)
    requires job.Normal() && job.arrayTaskId.Some?
    requires f.arrayJobId == job.arrayJobId && f.arrayTaskId == job.arrayTaskId
    ensures TokenImage(Pattern("", 'A'), f) + "_" + TokenImage(Pattern("", 'a'), f) == job.DisplayId()
  {
  }

  /** The default name of an array task is made of the id both tables show for it ... */
  lemma DefaultTaskName(job: JobSummary, user: Option<string>, firstNode: Option<string>)
    requires job.Normal() && job.arrayTaskId.Some?
    ensures Substitute(DEFAULT_ARRAY_STDOUT, FactsOf(job, user, firstNode))
         == "slurm-" + (job.DisplayId() + ".out")
  {
    var f := FactsOf(job, user, firstNode);
    var a, t := Pattern("", 'A'), Pattern("", 'a');
    OneCode("_", t, ".out", f);
    CodeThen("slurm-", a, "_" + (TokenText(t) + ".out"), "_" + (TokenImage(t, f) + ".out"), f);
    Group(TokenImage(a, f), "_", TokenImage(t, f), ".out");
    ArrayTemplate();
    ArrayImages(job, f);
  }

  /** ... and so is that of a plain job. */
  lemma DefaultJobName(job: JobSummary, user: Option<string>, firstNode: Option<string>)
    requires job.Normal() && job.arrayJobId.None?
    ensures Substitute(DEFAULT_STDOUT, FactsOf(job, user, firstNode))
         == "slurm-" + (job.DisplayId() + ".out")
  {
    var f := FactsOf(job, user, firstNode);
    var j := Pattern("", 'j');
    OneCode("slurm-", j, ".out", f);
    assert DEFAULT_STDOUT == "slurm-" + (TokenText(j) + ".out");
  }

  // ---------- paths ----------

  function Slashes(n: nat): string {
    if n == 0 then "" else Slashes(n - 1) + "/"
  }

  predicate EndsWithSlash(s: string) {
    s != "" && s[|s| - 1] == '/'
  }

  lemma StripOne(s: string)
    ensures RightStripSlash(s + "/") == RightStripSlash(s)
  {
    assert (s + "/")[..|s|] == s;
  }

  lemma {:induction false} StripsSlashes(base: string, n: nat)
    requires !EndsWithSlash(base)
    ensures RightStripSlash(base + Slashes(n)) == base
  {
    if n == 0 {
      assert base + "" == base;
    } else {
      assert base + Slashes(n) == (base + Slashes(n - 1)) + "/";
      StripOne(base + Slashes(n - 1));
      StripsSlashes(base, n - 1);
    }
  }

  lemma {:induction false} StripIsPrefix(s: string)
    ensures RightStripSlash(s) <= s
  {
    if EndsWithSlash(s) {
      StripIsPrefix(s[..|s| - 1]);
    }
  }

  /** There is a result exactly when there is a pattern, and under an absolute working directory it is
      an absolute path. */
  lemma ResultIsAbsolute(pattern: Option<string>, f: Facts, directory: string)
    requires "/" <= directory
    ensures var r := ExpandStdio(pattern, f, Some(directory));
            && (r.None? <==> pattern == None || pattern == Some(""))
            && (r.Some? ==> "/" <= r.value)
  {
    StripIsPrefix(directory);
    if pattern.Some? && pattern.value != "" {
      var path := Substitute(pattern.value, f);
      var base := RightStripSlash(directory);
      assert base == "" || base[0] == '/';
    }
  }

  /** Doubling every % of a relative path and expanding puts the path under the working directory,
      behind one slash however many the directory ends in; without a directory it returns the path. */
  lemma EscapeRelative(path: string, f: Facts, base: string, slashes: nat)
    requires path != "" && path[0] != '/'
    requires !EndsWithSlash(base) && base + Slashes(slashes) != ""
    ensures ExpandStdio(Some(Escape(path)), f, Some(base + Slashes(slashes)))
         == Some(base + "/" + path)
    ensures ExpandStdio(Some(Escape(path)), f, None) == Some(path)
    ensures ExpandStdio(Some(Escape(path)), f, Some("")) == Some(path)
  {
    EscapedStep(path, "", f);
    assert Escape(path) + "" == Escape(path) && path + "" == path;
    StripsSlashes(base, slashes);
  }

  /** Slurm's default for an array task, under its working directory ... */
  lemma DefaultTaskPath(job: JobSummary, user: Option<string>, firstNode: Option<string>, base: string)
    requires job.Normal() && job.arrayTaskId.Some? && base != "" && !EndsWithSlash(base)
    ensures ExpandStdio(Some(DEFAULT_ARRAY_STDOUT), FactsOf(job, user, firstNode), Some(base))
         == Some(base + "/" + ("slurm-" + (job.DisplayId() + ".out")))
  {
    DefaultTaskName(job, user, firstNode);
    var path := "slurm-" + (job.DisplayId() + ".out");
    assert path[0] == 's';
  }

  /** ... and for a plain job. */
  lemma DefaultJobPath(job: JobSummary, user: Option<string>, firstNode: Option<string>, base: string)
    requires job.Normal() && job.arrayJobId.None? && base != "" && !EndsWithSlash(base)
    ensures ExpandStdio(Some(DEFAULT_STDOUT), FactsOf(job, user, firstNode), Some(base))
         == Some(base + "/" + ("slurm-" + (job.DisplayId() + ".out")))
  {
    DefaultJobName(job, user, firstNode);
    var path := "slurm-" + (job.DisplayId() + ".out");
    assert path[0] == 's';
  }

  // ---------- the codes ----------

  /** A pattern that is one code. */
  function OneCodePath(width: string, code: char, f: Facts): Option<string> {
    ExpandStdio(Some("%" + width + [code]), f, None)
  }

  lemma OneCodeExpands(width: string, code: char, f: Facts)
    requires code in CODES && forall i | 0 <= i < |width| :: IsDigit(width[i])
    ensures OneCodePath(width, code, f) == Some(Image(width, code, f))
  {
    var t := Pattern(width, code);
    TokenStep(t, "", f);
    assert TokenText(t) + "" == TokenText(t);
    assert TokenImage(t, f) + "" == TokenImage(t, f);
  }

  /** What the numbers of a job expand to: %A is the array's id, or the job's own outside an array; %a
      the task's, or Slurm's "no task" outside one; node and task ranks are the first. */
  lemma NumberCodes(code: char, f: Facts, width: string)
    requires code in CODES && width == ""
    ensures code == 'j' || code == 'J' ==> OneCodePath(width, code, f) == Some(IntText(f.jobId))
    ensures code == 'A' && f.arrayJobId.Some? ==>
              OneCodePath(width, code, f) == Some(IntText(f.arrayJobId.value))
    ensures code == 'A' && f.arrayJobId.None? ==> OneCodePath(width, code, f) == Some(IntText(f.jobId))
    ensures code == 'a' && f.arrayTaskId.Some? ==>
              OneCodePath(width, code, f) == Some(IntText(f.arrayTaskId.value))
    ensures code == 'a' && f.arrayTaskId.None? ==> OneCodePath(width, code, f) == Some("4294967294")
    ensures code == 'n' || code == 't' ==> OneCodePath(width, code, f) == Some("0")
  {
    OneCodeExpands(width, code, f);
  }

  /** The text that a code stands for; None when the job has none. */
  function TextOf(code: char, f: Facts): Option<string>
    requires code in "uxN"
  {
    if code == 'u' then f.user else if code == 'x' then f.name else f.firstNode
  }

  lemma NameImages(width: string, code: char, f: Facts)
    requires code in "uxN"
    ensures TextOf(code, f).None? ==> Image(width, code, f) == "%" + width + [code]
    ensures TextOf(code, f).Some? && (width == "" || !AllDigits(TextOf(code, f).value)) ==>
              Some(Image(width, code, f)) == TextOf(code, f)
  {
  }

  /** A name that is not known leaves its code as it stands, width and all; one that is known comes as
      it is, unless it is a number and there is a width. */
  lemma NameCodes(width: string, code: char, f: Facts)
    requires code in "uxN" && forall i | 0 <= i < |width| :: IsDigit(width[i])
    ensures TextOf(code, f).None? ==> OneCodePath(width, code, f) == Some("%" + width + [code])
    ensures TextOf(code, f).Some? && (width == "" || !AllDigits(TextOf(code, f).value)) ==>
              OneCodePath(width, code, f) == TextOf(code, f)
  {
    assert code in CODES;
    OneCodeExpands(width, code, f);
    NameImages(width, code, f);
  }

  lemma FixedImages(width: string, f: Facts)
    ensures Image(width, 's', f) == "batch" && Image(width, '%', f) == "%"
  {
    assert !IsDigit("batch"[0]);
  }

  /** A step is the batch step, and %% a percent sign, at any width. */
  lemma FixedCodes(width: string, code: char, f: Facts)
    requires code == 's' || code == '%'
    requires forall i | 0 <= i < |width| :: IsDigit(width[i])
    ensures OneCodePath(width, code, f) == Some(if code == 's' then "batch" else "%")
  {
    assert code in CODES;
    OneCodeExpands(width, code, f);
    FixedImages(width, f);
  }

  // ---------- zero padding ----------

  lemma {:induction false} LeadingZeros(n: nat, s: string)
    requires s != "" && DigitValue(s[0], 10).Some?
    ensures DigitRun(Zeros(n) + s, 10, 0) == DigitRun(s, 10, 0)
  {
    if n == 0 {
      assert Zeros(n) + s == s;
    } else {
      var t := Zeros(n) + s;
      assert t[1..] == Zeros(n - 1) + s;
      LeadingZeros(n - 1, s);
    }
  }

  /** A width pads a number to max(width, digits) characters and keeps its value; job ids, array
      ids and task ids are such numbers, so int() of the padded text gives the id back. */
  lemma PaddingKeepsNumber(width: string, n: nat, code: char, value: string, f: Facts)
    requires DigitRun(width, 10, 0) == Some(n) && code != '%'
    requires Value(code, f) == Some(value) && AllDigits(value)
    ensures var text := Image(width, code, f);
            && |text| == (if n > |value| then n else |value|)
            && DigitRun(text, 10, 0) == DigitRun(value, 10, 0)
            && (code == 'j' && f.jobId >= 0 ==> DigitRun(text, 10, 0) == Some(f.jobId))
  {
    if n > |value| {
      LeadingZeros(n - |value|, value);
    }
    if f.jobId >= 0 {
      DigitRunOfDigits(f.jobId, 10);
    }
  }
}
