/**
 * What `JobSpec.build_regex` computes (`job_parse/job_specification.py`): the
 * token table it fills, the error it raises, and the anchored pattern it
 * returns. `RewriteLoop` follows the source's loop, which searches the
 * whole rewritten string again after every replacement; `CompileSegs` is an
 * independent one-pass definition over the tokenized spec, and
 * `RewriteIsOnePass` proves the two agree.
 */
module JobSpecCompile {
  import opened Wrappers
  import opened Text
  import opened FileParsers
  import opened JobSpecTokens

  /** The exceptions a job spec raises, with the values their messages interpolate. */
  datatype SpecError =
    | UnknownVariableType(kind: string, name: Option<string>)
    | NoName(token: string)
    | NoAssignedParser(fileName: string)
    | ParserNotAvailable(parserType: string, fileName: string)
    /** A TypeError: `file_parsers` or `available_parsers` is None when a file token needs them. */
    | MissingParserTable
    /** A TypeError: the spec string is None where the regex search needs text. */
    | NoneSpec
    | NoJobSpecEntry(jobName: Option<string>)
    /** A TypeError: `job.cmd` is None where `re.match` needs text. */
    | CmdNotString
    /** A TypeError: the job regex is None where `re.match` needs a pattern. */
    | NoneRegex
    | DoesNotMatch(jobName: Option<string>, diagnostic: string)
    | DictMissing(keys: set<string>)
    | DictExtra(keys: set<string>)
    | NotANumber(text: string)
    /** A KeyError: a file token with no entry in the parser table. */
    | MissingFileParsers(fileName: string)
    | ParserFailed(message: string)
    | UnknownKind(kind: string)
    /** `re.error`: the engine refuses the pattern, for a repeated or invalid group name say. */
    | BadPattern(message: string)
    /** An exception raised while rendering the mismatch diagnostic. */
    | DiagnosticFailed(reason: string)

  /** Python's `str()` of an optional string, as an f-string shows it. */
  function ShowOptional(s: Option<string>): string
  {
    if s.Some? then s.value else "None"
  }

  /** The message of each ValueError the core raises itself. */
  function Message(e: SpecError): string
  {
    match e
    case UnknownVariableType(kind, name) => "Unknown variable type " + kind + " for variable " + ShowOptional(name)
    case NoName(token) => "Token " + token + " has no name."
    case NoAssignedParser(name) => "File " + Repr(name) + " has no assigned file parser"
    case ParserNotAvailable(pt, name) => "The parser " + Repr(pt) + " is not available for file " + Repr(name)
    case NoJobSpecEntry(job) => "Job " + ShowOptional(job) + " has no job spec entry for parsing commands"
    case DoesNotMatch(job, diag) => "Job spec for " + ShowOptional(job) + " does not match command:\n" + diag
    case UnknownKind(kind) => "Unknown kind " + kind + "."
    case _ => ""
  }

  // ---------------------------------------------------------------------
  // The token table: self.token_kinds (an ordered dict) and self.file_parsers

  datatype Tables = Tables(names: seq<string>, kinds: map<string, Kind>, parsers: map<string, seq<FileParser>>)

  const NoTables := Tables([], map[], map[])

  /** `names` is the insertion order of the keys of `kinds`. */
  predicate WellFormed(t: Tables)
  {
    (forall i, j :: 0 <= i < j < |t.names| ==> t.names[i] != t.names[j])
    && (forall n :: n in t.kinds ==> n in t.names)
    && (forall i :: 0 <= i < |t.names| ==> t.names[i] in t.kinds)
  }

  /** `token_kinds[name] = kind`: a new key goes last, an existing key keeps its place. */
  function Register(t: Tables, name: string, kind: Kind): (r: Tables)
    ensures r.kinds == t.kinds[name := kind] && r.parsers == t.parsers
    ensures name in t.kinds ==> r.names == t.names
  {
    if name in t.kinds then t.(kinds := t.kinds[name := kind])
    else Tables(t.names + [name], t.kinds[name := kind], t.parsers)
  }

  /** Registering keeps the order a well-formed table: a new name goes last, a known one keeps its place. */
  lemma RegisterOrder(t: Tables, name: string, kind: Kind)
    requires WellFormed(t)
    ensures WellFormed(Register(t, name, kind))
    ensures name !in t.names ==> Register(t, name, kind).names == t.names + [name]
    ensures name in t.names ==> Register(t, name, kind).names == t.names
  {
  }

  // ---------------------------------------------------------------------
  // update_file_parsers

  predicate AllAvailable<P>(pts: seq<string>, avail: map<string, P>)
  {
    forall i :: 0 <= i < |pts| ==> pts[i] in avail
  }

  /** `[available[pt] for pt in pts]`, or the first `pt` that is missing. */
  function LookupAll<P>(pts: seq<string>, avail: map<string, P>): (r: Result<seq<P>, string>)
    ensures r.Ok? ==> |r.value| == |pts|
  {
    if pts == [] then Ok([])
    else if pts[0] !in avail then Err(pts[0])
    else match LookupAll(pts[1..], avail)
      case Err(pt) => Err(pt)
      case Ok(ps) => Ok([avail[pts[0]]] + ps)
  }

  /**
   * The lookup succeeds exactly when every listed parser is available, and
   * then yields them in list order; otherwise it names the first missing one.
   */
  lemma {:induction false} LookupAllSpec<P>(pts: seq<string>, avail: map<string, P>)
    ensures LookupAll(pts, avail).Ok? <==> AllAvailable(pts, avail)
    ensures LookupAll(pts, avail).Ok? ==> forall i :: 0 <= i < |pts| ==> LookupAll(pts, avail).value[i] == avail[pts[i]]
    ensures LookupAll(pts, avail).Err? ==> exists i :: (0 <= i < |pts| && pts[i] == LookupAll(pts, avail).error
      && pts[i] !in avail && forall j :: 0 <= j < i ==> pts[j] in avail)
  {
    if pts != [] {
      LookupAllSpec(pts[1..], avail);
      assert forall j :: 1 <= j < |pts| ==> pts[1..][j - 1] == pts[j];
      if pts[0] !in avail {
        assert !AllAvailable(pts, avail);
      } else if LookupAll(pts[1..], avail).Err? {
        var i :| 0 <= i < |pts[1..]| && pts[1..][i] == LookupAll(pts, avail).error
          && pts[1..][i] !in avail && forall j :: 0 <= j < i ==> pts[1..][j] in avail;
        assert pts[i + 1] == LookupAll(pts, avail).error;
        assert !AllAvailable(pts, avail);
      }
    }
  }

  /**
   * The parser list of file token `name`: its entry in `parserNames`, split at
   * commas, each looked up in `avail`. A missing table is a TypeError; a
   * missing entry and a missing parser are the two ValueErrors.
   */
  function ResolveParsers(name: string, avail: Option<map<string, FileParser>>, parserNames: Option<map<string, string>>)
    : (r: Result<seq<FileParser>, SpecError>)
    ensures r.Err? ==> r.error.MissingParserTable? || r.error.NoAssignedParser? || r.error.ParserNotAvailable?
  {
    if parserNames.None? then Err(MissingParserTable)
    else if name !in parserNames.value then Err(NoAssignedParser(name))
    else if avail.None? then Err(MissingParserTable)
    else
      var pts := Split(parserNames.value[name], ',');
      match LookupAll(pts, avail.value)
      case Ok(ps) => Ok(ps)
      case Err(pt) =>
        Err(ParserNotAvailable(pt, name))
  }

  /**
   * The outcomes of `update_file_parsers`: a TypeError when a table it needs
   * is None, the missing-entry error, the missing-parser error naming the
   * first listed parser that is not available, and otherwise every listed
   * parser in list order.
   */
  lemma ResolveParsersSpec(name: string, avail: Option<map<string, FileParser>>, parserNames: Option<map<string, string>>)
    ensures var r := ResolveParsers(name, avail, parserNames);
      && (r == Err(MissingParserTable) <==> parserNames.None? || (name in parserNames.value && avail.None?))
      && (parserNames.Some? && name !in parserNames.value ==> r == Err(NoAssignedParser(name)))
      && (r.Ok? <==> (parserNames.Some? && name in parserNames.value && avail.Some?
        && AllAvailable(Split(parserNames.value[name], ','), avail.value)))
      && (r.Ok? ==> var pts := Split(parserNames.value[name], ',');
        |r.value| == |pts| && forall i :: 0 <= i < |pts| ==> r.value[i] == avail.value[pts[i]])
      && (r.Err? && r.error.ParserNotAvailable? ==> (r.error.fileName == name && parserNames.Some? && name in parserNames.value
        && avail.Some? && exists i :: (0 <= i < |Split(parserNames.value[name], ',')|
          && Split(parserNames.value[name], ',')[i] == r.error.parserType && r.error.parserType !in avail.value
          && forall j :: 0 <= j < i ==> Split(parserNames.value[name], ',')[j] in avail.value)))
  {
    if parserNames.Some? && name in parserNames.value && avail.Some? {
      LookupAllSpec(Split(parserNames.value[name], ','), avail.value);
    }
  }

  // ---------------------------------------------------------------------
  // One iteration of the build_regex loop

  /** `(?P<name>fragment)`. */
  function Group(name: string, fragment: string): (r: string)
    ensures '{' !in name && '{' !in fragment ==> '{' !in r
    ensures '}' !in name && '}' !in fragment ==> '}' !in r
  {
    "(?P<" + name + ">" + fragment + ")"
  }

  /** The name an unnamed ignore placeholder gets in named-ignore mode. */
  function IgnoreName(ind: nat): (r: string)
    ensures '{' !in r && '}' !in r
  {
    "ignore_" + NatToString(ind)
  }

  /** The outcome of handling one placeholder: go on with a replacement, or raise. */
  datatype Step = Next(tables: Tables, repl: string, ind: nat) | Stop(tables: Tables, error: SpecError)

  /**
   * The body of the `while match := JOB_SPEC_REGEX.search(job_spec)` loop for
   * one placeholder: check the kind, then handle ignore placeholders (never
   * registered), or register the name and, for file kinds, resolve its
   * parsers. The registration happens before the parsers are resolved, so a
   * failed resolution leaves the name registered.
   */
  function TokenStep(name: Option<string>, kind: string, tables: Tables, ind: nat, named: bool,
                     avail: Option<map<string, FileParser>>, parserNames: Option<map<string, string>>): (r: Step)
    ensures r.Next? && (name.Some? ==> '}' !in name.value) ==> '}' !in r.repl
    ensures r.Next? && (name.Some? ==> '{' !in name.value) ==> '{' !in r.repl
  {
    match KindNamed(kind)
    case None => Stop(tables, UnknownVariableType(kind, name))
    case Some(k) =>
      if k == Ignore then
        if named then
          if name.None? then Next(tables, Group(IgnoreName(ind), Fragment(Ignore)), ind + 1)
          else Next(tables, Group(name.value, Fragment(Ignore)), ind)
        else Next(tables, Fragment(Ignore), ind)
      else if name.None? then Stop(tables, NoName(TokenText(name, kind)))
      else
        var t := Register(tables, name.value, k);
        if IsFileKind(k) then
          match ResolveParsers(name.value, avail, parserNames)
          case Err(e) => Stop(t, e)
          case Ok(ps) => Next(t.(parsers := t.parsers[name.value := ps]), Group(name.value, Fragment(k)), ind)
        else Next(t, Group(name.value, Fragment(k)), ind)
  }

  /**
   * Whether a placeholder raises, stated without the table or the counter:
   * an unknown kind, a non-ignore placeholder without a name, or a file token
   * whose parsers cannot be resolved.
   */
  function PlaceholderError(name: Option<string>, kind: string,
                            avail: Option<map<string, FileParser>>, parserNames: Option<map<string, string>>): Option<SpecError>
  {
    match KindNamed(kind)
    case None => Some(UnknownVariableType(kind, name))
    case Some(k) =>
      if k == Ignore then None
      else if name.None? then Some(NoName(TokenText(name, kind)))
      else if IsFileKind(k) && ResolveParsers(name.value, avail, parserNames).Err? then
        Some(ResolveParsers(name.value, avail, parserNames).error)
      else None
  }

  /** A step raises exactly the placeholder's own error, whatever the table and counter. */
  lemma StepErrorIsPlaceholderError(name: Option<string>, kind: string, tables: Tables, ind: nat, named: bool,
                                    avail: Option<map<string, FileParser>>, parserNames: Option<map<string, string>>)
    ensures var r := TokenStep(name, kind, tables, ind, named, avail, parserNames);
      (r.Stop? <==> PlaceholderError(name, kind, avail, parserNames).Some?)
      && (r.Stop? ==> r.error == PlaceholderError(name, kind, avail, parserNames).value)
  {
  }

  /** A step that goes on registers the placeholder (unless it is an ignore) and changes no other kind. */
  lemma TokenStepRegisters(name: Option<string>, kind: string, tables: Tables, ind: nat, named: bool,
                           avail: Option<map<string, FileParser>>, parserNames: Option<map<string, string>>)
    ensures var r := TokenStep(name, kind, tables, ind, named, avail, parserNames);
      r.Next? ==> TokenStepTables(name, kind, tables, r.tables)
  {
  }

  // ---------------------------------------------------------------------
  // The loop as written: search the whole string again after each replacement

  datatype Build = Build(result: Result<string, SpecError>, tables: Tables, ind: nat)

  /** `job_spec.replace(match.group(0), repl, 1)` splices `repl` in place of the leftmost match. */
  lemma ReplaceMatch(cur: string, t: Token, repl: string)
    requires FindToken(cur) == Some(t)
    ensures ReplaceFirst(cur, cur[t.start..t.end], repl) == cur[..t.start] + repl + cur[t.end..]
  {
    FirstOccurrenceIsMatch(cur, t);
  }

  lemma CountSplice(a: string, b: string, c: string, x: char)
    ensures Count(a + b + c, x) == Count(a, x) + Count(b, x) + Count(c, x)
  {
    CountAppend(a + b, c, x);
    CountAppend(a, b, x);
  }

  /** Replacing a match by text without `}` removes exactly one `}`. */
  lemma ReplaceDropsOneBrace(cur: string, t: Token, repl: string)
    requires FindToken(cur) == Some(t) && '}' !in repl
    ensures Count(ReplaceFirst(cur, cur[t.start..t.end], repl), '}') == Count(cur, '}') - 1
  {
    var a, m, c := cur[..t.start], cur[t.start..t.end], cur[t.end..];
    assert Count(m, '}') == 1 by {
      MatchSpansOnePlaceholder(cur, t.start);
    }
    assert Count(cur, '}') == Count(a, '}') + 1 + Count(c, '}') by {
      assert cur == a + m + c;
      CountSplice(a, m, c, '}');
    }
    assert ReplaceFirst(cur, m, repl) == a + repl + c by {
      ReplaceMatch(cur, t, repl);
    }
    CountSplice(a, repl, c, '}');
  }

  /**
   * `build_regex` from the current rewritten string `cur`: each iteration
   * handles the leftmost match and replaces the first occurrence of its text;
   * when no match is left the pattern is `^cur$`.
   */
  function RewriteLoop(cur: string, tables: Tables, ind: nat, named: bool,
                       avail: Option<map<string, FileParser>>, parserNames: Option<map<string, string>>): (b: Build)
    decreases Count(cur, '}'), 1
  {
    match FindToken(cur)
    case None => Build(Ok("^" + cur + "$"), tables, ind)
    case Some(t) => RewriteNext(cur, t, TokenStep(t.name, t.kind, tables, ind, named, avail, parserNames), ind, named, avail, parserNames)
  }

  /** After handling the leftmost match `t`: raise its error, or replace its text and search again. */
  function RewriteNext(cur: string, t: Token, step: Step, ind: nat, named: bool,
                       avail: Option<map<string, FileParser>>, parserNames: Option<map<string, string>>): (b: Build)
    requires FindToken(cur) == Some(t)
    requires step.Next? ==> '}' !in step.repl
    decreases Count(cur, '}'), 0
  {
    match step
    case Stop(tb, e) => Build(Err(e), tb, ind)
    case Next(tb, repl, ind2) =>
      ReplaceDropsOneBrace(cur, t, repl);
      RewriteLoop(ReplaceFirst(cur, cur[t.start..t.end], repl), tb, ind2, named, avail, parserNames)
  }

  /** Going on after a replacement searches the spliced text again. */
  lemma RewriteReplaced(cur: string, t: Token, tb: Tables, repl: string, ind2: nat, ind: nat, named: bool,
                        avail: Option<map<string, FileParser>>, parserNames: Option<map<string, string>>, next: string)
    requires FindToken(cur) == Some(t) && '}' !in repl
    requires next == cur[..t.start] + repl + cur[t.end..]
    ensures RewriteNext(cur, t, Next(tb, repl, ind2), ind, named, avail, parserNames)
      == RewriteLoop(next, tb, ind2, named, avail, parserNames)
  {
    ReplaceMatch(cur, t, repl);
  }

  /** One turn of the loop: the leftmost match's step either raises, or it leads to the rewritten text with one `}` fewer. */
  lemma RewriteUnfold(cur: string, t: Token, tables: Tables, ind: nat, named: bool,
                      avail: Option<map<string, FileParser>>, parserNames: Option<map<string, string>>)
    requires FindToken(cur) == Some(t)
    ensures var step := TokenStep(t.name, t.kind, tables, ind, named, avail, parserNames);
      && (step.Stop? ==> RewriteLoop(cur, tables, ind, named, avail, parserNames) == Build(Err(step.error), step.tables, ind))
      && (step.Next? ==> (Count(ReplaceFirst(cur, cur[t.start..t.end], step.repl), '}') < Count(cur, '}')
        && RewriteLoop(cur, tables, ind, named, avail, parserNames)
          == RewriteLoop(ReplaceFirst(cur, cur[t.start..t.end], step.repl), step.tables, step.ind, named, avail, parserNames)))
  {
    var step := TokenStep(t.name, t.kind, tables, ind, named, avail, parserNames);
    if step.Next? {
      ReplaceDropsOneBrace(cur, t, step.repl);
    }
  }

  /** A step keeps the token table well formed. */
  lemma TokenStepWellFormed(name: Option<string>, kind: string, tables: Tables, ind: nat, named: bool,
                            avail: Option<map<string, FileParser>>, parserNames: Option<map<string, string>>)
    requires WellFormed(tables)
    ensures WellFormed(TokenStep(name, kind, tables, ind, named, avail, parserNames).tables)
  {
    if name.Some? && KindNamed(kind).Some? {
      RegisterOrder(tables, name.value, KindNamed(kind).value);
    }
  }

  /** The loop keeps the token table well formed, whether it returns a pattern or raises. */
  lemma {:induction false} RewriteLoopWellFormed(cur: string, tables: Tables, ind: nat, named: bool,
                                                 avail: Option<map<string, FileParser>>, parserNames: Option<map<string, string>>)
    requires WellFormed(tables)
    ensures WellFormed(RewriteLoop(cur, tables, ind, named, avail, parserNames).tables)
    decreases Count(cur, '}')
  {
    match FindToken(cur)
    case None =>
    case Some(t) =>
      TokenStepWellFormed(t.name, t.kind, tables, ind, named, avail, parserNames);
      var step := TokenStep(t.name, t.kind, tables, ind, named, avail, parserNames);
      if step.Next? {
        var next := cur[..t.start] + step.repl + cur[t.end..];
        RewriteReplaced(cur, t, step.tables, step.repl, step.ind, ind, named, avail, parserNames, next);
        ReplaceDropsOneBrace(cur, t, step.repl);
        ReplaceMatch(cur, t, step.repl);
        RewriteLoopWellFormed(next, step.tables, step.ind, named, avail, parserNames);
      }
  }

  /** A spec without placeholders compiles to `^spec$` and leaves the table as it was. */
  lemma NoPlaceholders(s: string, tables: Tables, ind: nat, named: bool,
                       avail: Option<map<string, FileParser>>, parserNames: Option<map<string, string>>)
    requires '{' !in s
    ensures RewriteLoop(s, tables, ind, named, avail, parserNames) == Build(Ok("^" + s + "$"), tables, ind)
  {
    if FindToken(s).Some? {
      MatchSpansOnePlaceholder(s, FindToken(s).value.start);
    }
  }

  // ---------------------------------------------------------------------
  // The one-pass reference

  function Prepend(p: string, b: Build): Build
  {
    if b.result.Ok? then b.(result := Ok(p + b.result.value)) else b
  }

  /**
   * The pattern body of a tokenized spec, left to right: literal text is
   * copied, each placeholder is handled by one `TokenStep`.
   */
  function CompileSegs(segs: seq<Segment>, tables: Tables, ind: nat, named: bool,
                       avail: Option<map<string, FileParser>>, parserNames: Option<map<string, string>>): Build
    decreases |segs|
  {
    if segs == [] then Build(Ok(""), tables, ind)
    else
      match segs[0]
      case Literal(text) => Prepend(text, CompileSegs(segs[1..], tables, ind, named, avail, parserNames))
      case Placeholder(name, kind) =>
        match TokenStep(name, kind, tables, ind, named, avail, parserNames)
        case Stop(tb, e) => Build(Err(e), tb, ind)
        case Next(tb, repl, ind2) => Prepend(repl, CompileSegs(segs[1..], tb, ind2, named, avail, parserNames))
  }

  /** No placeholder name holds a `{`, so no replacement can form a new match. */
  predicate BraceFreeNames(segs: seq<Segment>)
  {
    forall i :: 0 <= i < |segs| && segs[i].Placeholder? && segs[i].name.Some? ==> '{' !in segs[i].name.value
  }

  /** The anchored pattern with `before` in front of the body. */
  function Anchor(before: string, b: Build): Build
  {
    if b.result.Ok? then b.(result := Ok("^" + before + b.result.value + "$")) else b
  }

  /** Splicing at a match of the spec behind `d` splices the spec itself. */
  lemma SpliceShifted(d: string, s: string, t: Token, shifted: Token, repl: string)
    requires t.start <= t.end <= |s| && shifted == Token(|d| + t.start, |d| + t.end, t.name, t.kind)
    ensures (d + s)[..shifted.start] + repl + (d + s)[shifted.end..] == d + s[..t.start] + repl + s[t.end..]
  {
    assert (d + s)[..shifted.start] == d + s[..t.start];
    assert (d + s)[shifted.end..] == s[t.end..];
  }

  /** The rewritten text stays inert: it gains the inert prefix of the spec and a brace-free replacement. */
  lemma RewrittenInert(d: string, s: string, t: Token, repl: string)
    requires Inert(d) && FindToken(s) == Some(t) && '{' !in repl
    ensures Inert(d + s[..t.start] + repl)
  {
    PrefixInert(s, t);
    InertConcat(d, s[..t.start]);
    InertWithoutBraces(repl);
    InertConcat(d + s[..t.start], repl);
  }

  lemma TokenizeUnfolds(s: string)
    requires FindToken(s).Some?
    ensures var t := FindToken(s).value;
      Tokenize(s) == [Literal(s[..t.start])] + ([Placeholder(t.name, t.kind)] + Tokenize(s[t.end..]))
  {
  }

  lemma BraceFreeTail(segs: seq<Segment>, rest: seq<Segment>, a: Segment, b: Segment)
    requires segs == [a] + ([b] + rest) && BraceFreeNames(segs)
    ensures BraceFreeNames(rest)
    ensures b.Placeholder? && b.name.Some? ==> '{' !in b.name.value
  {
    assert segs[1] == b;
    forall i | 0 <= i < |rest| ensures rest[i] == segs[i + 2] {}
  }

  /** Unfolding the one-pass compiler over a literal and a placeholder. */
  lemma CompileSegsUnfolds(lit: string, name: Option<string>, kind: string, rest: seq<Segment>,
                           tables: Tables, ind: nat, named: bool,
                           avail: Option<map<string, FileParser>>, parserNames: Option<map<string, string>>)
    ensures var segs := [Literal(lit)] + ([Placeholder(name, kind)] + rest);
      CompileSegs(segs, tables, ind, named, avail, parserNames)
      == match TokenStep(name, kind, tables, ind, named, avail, parserNames)
         case Stop(tb, e) => Build(Err(e), tb, ind)
         case Next(tb, repl, ind2) => Prepend(lit, Prepend(repl, CompileSegs(rest, tb, ind2, named, avail, parserNames)))
  {
    var segs := [Literal(lit)] + ([Placeholder(name, kind)] + rest);
    assert segs[1..] == [Placeholder(name, kind)] + rest;
    assert segs[1..][1..] == rest;
  }

  /** Rewritten text in front of the pattern body is the same as text prepended to it. */
  lemma AnchorPrepend(d: string, lit: string, repl: string, b: Build)
    ensures Anchor(d + lit + repl, b) == Anchor(d, Prepend(lit, Prepend(repl, b)))
  {
    if b.result.Ok? {
      assert "^" + (d + lit + repl) + b.result.value + "$" == "^" + d + (lit + (repl + b.result.value)) + "$";
    }
  }

  /** With no match left, both compile the remaining text to itself. */
  lemma OnePassEnd(d: string, s: string, tables: Tables, ind: nat, named: bool,
                   avail: Option<map<string, FileParser>>, parserNames: Option<map<string, string>>)
    requires FindToken(s).None? && FindToken(d + s).None?
    ensures RewriteLoop(d + s, tables, ind, named, avail, parserNames)
      == Anchor(d, CompileSegs(Tokenize(s), tables, ind, named, avail, parserNames))
  {
    assert Tokenize(s) == [Literal(s)];
    assert [Literal(s)][1..] == [];
    assert CompileSegs([Literal(s)], tables, ind, named, avail, parserNames) == Build(Ok(s + ""), tables, ind);
    assert "^" + d + (s + "") + "$" == "^" + (d + s) + "$";
  }

  /**
   * The loop that re-searches the rewritten string compiles a spec exactly as
   * the one-pass reference does, provided no placeholder name holds a `{`;
   * `d` is the already rewritten, inert text in front.
   */
  lemma {:induction false} RewriteIsOnePassFrom(d: string, s: string, tables: Tables, ind: nat, named: bool,
                                                avail: Option<map<string, FileParser>>, parserNames: Option<map<string, string>>)
    requires Inert(d) && BraceFreeNames(Tokenize(s))
    ensures RewriteLoop(d + s, tables, ind, named, avail, parserNames)
      == Anchor(d, CompileSegs(Tokenize(s), tables, ind, named, avail, parserNames))
    decreases |s|, 2
  {
    FindTokenShift(d, s);
    match FindToken(s)
    case None =>
      OnePassEnd(d, s, tables, ind, named, avail, parserNames);
    case Some(t) =>
      OnePassStep(d, s, t, tables, ind, named, avail, parserNames);
  }

  /** The inductive step: both handle the first placeholder alike, then go on with the text after it. */
  lemma {:induction false} OnePassStep(d: string, s: string, t: Token, tables: Tables, ind: nat, named: bool,
                                       avail: Option<map<string, FileParser>>, parserNames: Option<map<string, string>>)
    requires Inert(d) && BraceFreeNames(Tokenize(s)) && FindToken(s) == Some(t)
    requires FindToken(d + s) == Some(Token(|d| + t.start, |d| + t.end, t.name, t.kind))
    ensures RewriteLoop(d + s, tables, ind, named, avail, parserNames)
      == Anchor(d, CompileSegs(Tokenize(s), tables, ind, named, avail, parserNames))
    decreases |s|, 1
  {
    var rest := Tokenize(s[t.end..]);
    TokenizeUnfolds(s);
    BraceFreeTail(Tokenize(s), rest, Literal(s[..t.start]), Placeholder(t.name, t.kind));
    CompileSegsUnfolds(s[..t.start], t.name, t.kind, rest, tables, ind, named, avail, parserNames);
    var t' := Token(|d| + t.start, |d| + t.end, t.name, t.kind);
    var step := TokenStep(t.name, t.kind, tables, ind, named, avail, parserNames);
    assert RewriteLoop(d + s, tables, ind, named, avail, parserNames)
      == RewriteNext(d + s, t', step, ind, named, avail, parserNames);
    if step.Next? {
      OnePassNext(d, s, t, step.tables, step.repl, step.ind, ind, named, avail, parserNames);
    }
  }

  /** Replacing the leftmost match of the spec behind `d` goes on from the spliced text. */
  lemma NextSpliced(d: string, s: string, t: Token, tb: Tables, repl: string, ind2: nat, ind: nat, named: bool,
                    avail: Option<map<string, FileParser>>, parserNames: Option<map<string, string>>)
    requires FindToken(s) == Some(t) && '}' !in repl
    requires FindToken(d + s) == Some(Token(|d| + t.start, |d| + t.end, t.name, t.kind))
    ensures RewriteNext(d + s, Token(|d| + t.start, |d| + t.end, t.name, t.kind), Next(tb, repl, ind2), ind, named, avail, parserNames)
      == RewriteLoop(d + s[..t.start] + repl + s[t.end..], tb, ind2, named, avail, parserNames)
  {
    var shifted := Token(|d| + t.start, |d| + t.end, t.name, t.kind);
    assert t.end <= |s| by { assert MatchAt(s, t.start) == Some(t); }
    SpliceShifted(d, s, t, shifted, repl);
    RewriteReplaced(d + s, shifted, tb, repl, ind2, ind, named, avail, parserNames, d + s[..t.start] + repl + s[t.end..]);
  }

  /** After a replacement, the loop goes on over inert text followed by the rest of the spec. */
  lemma {:induction false} OnePassNext(d: string, s: string, t: Token, tb: Tables, repl: string, ind2: nat, ind: nat, named: bool,
                                       avail: Option<map<string, FileParser>>, parserNames: Option<map<string, string>>)
    requires Inert(d) && FindToken(s) == Some(t) && BraceFreeNames(Tokenize(s[t.end..]))
    requires FindToken(d + s) == Some(Token(|d| + t.start, |d| + t.end, t.name, t.kind))
    requires '{' !in repl && '}' !in repl
    ensures RewriteNext(d + s, Token(|d| + t.start, |d| + t.end, t.name, t.kind), Next(tb, repl, ind2), ind, named, avail, parserNames)
      == Anchor(d, Prepend(s[..t.start], Prepend(repl, CompileSegs(Tokenize(s[t.end..]), tb, ind2, named, avail, parserNames))))
    decreases |s|, 0
  {
    NextSpliced(d, s, t, tb, repl, ind2, ind, named, avail, parserNames);
    RewrittenInert(d, s, t, repl);
    RewriteIsOnePassFrom(d + s[..t.start] + repl, s[t.end..], tb, ind2, named, avail, parserNames);
    AnchorPrepend(d, s[..t.start], repl, CompileSegs(Tokenize(s[t.end..]), tb, ind2, named, avail, parserNames));
  }

  /** `build_regex` on a whole spec agrees with the one-pass reference. */
  lemma RewriteIsOnePass(s: string, tables: Tables, named: bool,
                         avail: Option<map<string, FileParser>>, parserNames: Option<map<string, string>>)
    requires BraceFreeNames(Tokenize(s))
    ensures RewriteLoop(s, tables, 0, named, avail, parserNames) == Anchor("", CompileSegs(Tokenize(s), tables, 0, named, avail, parserNames))
  {
    RewriteIsOnePassFrom("", s, tables, 0, named, avail, parserNames);
    assert "" + s == s;
  }

  // ---------------------------------------------------------------------
  // What the one-pass reference computes

  /** The kind a placeholder's kind text names, when it is one of the six. */
  predicate PlaceholderOfKind(seg: Segment, k: Kind)
  {
    seg.Placeholder? && KindNamed(seg.kind) == Some(k)
  }

  /** The error of the first placeholder that raises, if any. */
  function FirstError(segs: seq<Segment>, avail: Option<map<string, FileParser>>, parserNames: Option<map<string, string>>)
    : Option<SpecError>
    decreases |segs|
  {
    if segs == [] then None
    else if segs[0].Placeholder? && PlaceholderError(segs[0].name, segs[0].kind, avail, parserNames).Some? then
      PlaceholderError(segs[0].name, segs[0].kind, avail, parserNames)
    else FirstError(segs[1..], avail, parserNames)
  }

  /** Compiling fails exactly when some placeholder raises, and with the first such error. */
  lemma {:induction false} CompileSegsError(segs: seq<Segment>, tables: Tables, ind: nat, named: bool,
                                            avail: Option<map<string, FileParser>>, parserNames: Option<map<string, string>>)
    ensures var b := CompileSegs(segs, tables, ind, named, avail, parserNames);
      (b.result.Err? <==> FirstError(segs, avail, parserNames).Some?)
      && (b.result.Err? ==> b.result.error == FirstError(segs, avail, parserNames).value)
    decreases |segs|
  {
    if segs != [] {
      match segs[0]
      case Literal(text) =>
        CompileSegsError(segs[1..], tables, ind, named, avail, parserNames);
      case Placeholder(name, kind) =>
        StepErrorIsPlaceholderError(name, kind, tables, ind, named, avail, parserNames);
        var step := TokenStep(name, kind, tables, ind, named, avail, parserNames);
        if step.Next? {
          CompileSegsError(segs[1..], step.tables, step.ind, named, avail, parserNames);
        }
    }
  }

  /**
   * The registrations a spec makes: each named placeholder of a kind other
   * than ignore sets its name's kind, in order; ignore placeholders, named or
   * not, register nothing.
   */
  function Registered(segs: seq<Segment>, t: Tables): Tables
    decreases |segs|
  {
    if segs == [] then t
    else
      var seg := segs[0];
      if seg.Placeholder? && seg.name.Some? && KindNamed(seg.kind).Some? && KindNamed(seg.kind).value != Ignore then
        Registered(segs[1..], Register(t, seg.name.value, KindNamed(seg.kind).value))
      else Registered(segs[1..], t)
  }

  /** A successful compile leaves exactly the registrations of the spec in the token table. */
  lemma {:induction false} CompileSegsKinds(segs: seq<Segment>, tables: Tables, ind: nat, named: bool,
                                            avail: Option<map<string, FileParser>>, parserNames: Option<map<string, string>>)
    ensures var b := CompileSegs(segs, tables, ind, named, avail, parserNames);
      b.result.Ok? ==> b.tables.names == Registered(segs, tables).names && b.tables.kinds == Registered(segs, tables).kinds
    decreases |segs|
  {
    if segs != [] {
      match segs[0]
      case Literal(text) =>
        CompileSegsKinds(segs[1..], tables, ind, named, avail, parserNames);
      case Placeholder(name, kind) =>
        var step := TokenStep(name, kind, tables, ind, named, avail, parserNames);
        if step.Next? {
          CompileSegsKinds(segs[1..], step.tables, step.ind, named, avail, parserNames);
          TokenStepRegisters(name, kind, tables, ind, named, avail, parserNames);
          assert segs == [Placeholder(name, kind)] + segs[1..];
          CompileSegsKindsAnyParsers(segs[1..], step.tables, tables, name, kind);
        }
    }
  }

  /** The registrations do not depend on the parser lists already recorded. */
  lemma {:induction false} RegisteredIgnoresParsers(segs: seq<Segment>, t: Tables, u: Tables)
    requires t.names == u.names && t.kinds == u.kinds
    ensures Registered(segs, t).names == Registered(segs, u).names && Registered(segs, t).kinds == Registered(segs, u).kinds
    decreases |segs|
  {
    if segs != [] {
      var seg := segs[0];
      if seg.Placeholder? && seg.name.Some? && KindNamed(seg.kind).Some? && KindNamed(seg.kind).value != Ignore {
        RegisteredIgnoresParsers(segs[1..], Register(t, seg.name.value, KindNamed(seg.kind).value),
          Register(u, seg.name.value, KindNamed(seg.kind).value));
      } else {
        RegisteredIgnoresParsers(segs[1..], t, u);
      }
    }
  }

  /** One successful step performs the placeholder's registration, up to the parser lists. */
  lemma CompileSegsKindsAnyParsers(rest: seq<Segment>, after: Tables, before: Tables, name: Option<string>, kind: string)
    requires TokenStepTables(name, kind, before, after)
    ensures Registered(rest, after).names == Registered([Placeholder(name, kind)] + rest, before).names
    ensures Registered(rest, after).kinds == Registered([Placeholder(name, kind)] + rest, before).kinds
  {
    var segs := [Placeholder(name, kind)] + rest;
    assert segs[1..] == rest;
    if name.Some? && KindNamed(kind).Some? && KindNamed(kind).value != Ignore {
      RegisteredIgnoresParsers(rest, after, Register(before, name.value, KindNamed(kind).value));
    } else {
      RegisteredIgnoresParsers(rest, after, before);
    }
  }

  /** The table change of a step that goes on: the placeholder's registration, with any parser lists. */
  predicate TokenStepTables(name: Option<string>, kind: string, before: Tables, after: Tables)
  {
    if name.Some? && KindNamed(kind).Some? && KindNamed(kind).value != Ignore then
      after.names == Register(before, name.value, KindNamed(kind).value).names
      && after.kinds == Register(before, name.value, KindNamed(kind).value).kinds
    else after.names == before.names && after.kinds == before.kinds
  }

  /** The number of ignore placeholders without a name. */
  function UnnamedIgnores(segs: seq<Segment>): nat
    decreases |segs|
  {
    if segs == [] then 0
    else (if PlaceholderOfKind(segs[0], Ignore) && segs[0].name.None? then 1 else 0) + UnnamedIgnores(segs[1..])
  }

  /** The group a placeholder becomes: its name, or in named-ignore mode `ignore_{ind}` for an unnamed ignore. */
  function CaptureName(name: Option<string>, ind: nat): string
  {
    if name.Some? then name.value else IgnoreName(ind)
  }

  /**
   * The pattern body of a spec in which no placeholder raises: literal text
   * verbatim; an ignore placeholder the bare `.+?` by default; every other
   * placeholder a named group around its kind's fragment, unnamed ignores
   * numbered from `ind` upwards in named-ignore mode.
   */
  function Pattern(segs: seq<Segment>, ind: nat, named: bool): string
    decreases |segs|
  {
    if segs == [] then ""
    else match segs[0]
      case Literal(text) => text + Pattern(segs[1..], ind, named)
      case Placeholder(name, kind) =>
        var k := KindNamed(kind).GetOr(Ignore);
        if k == Ignore && !named then Fragment(Ignore) + Pattern(segs[1..], ind, named)
        else if k == Ignore && name.None? then Group(IgnoreName(ind), Fragment(Ignore)) + Pattern(segs[1..], ind + 1, named)
        else Group(CaptureName(name, ind), Fragment(k)) + Pattern(segs[1..], ind, named)
  }

  /** A successful compile produces the pattern body `Pattern` describes. */
  lemma {:induction false} CompileSegsPattern(segs: seq<Segment>, tables: Tables, ind: nat, named: bool,
                                              avail: Option<map<string, FileParser>>, parserNames: Option<map<string, string>>)
    ensures var b := CompileSegs(segs, tables, ind, named, avail, parserNames);
      b.result.Ok? ==> b.result.value == Pattern(segs, ind, named)
    decreases |segs|
  {
    if segs != [] {
      match segs[0]
      case Literal(text) =>
        CompileSegsPattern(segs[1..], tables, ind, named, avail, parserNames);
      case Placeholder(name, kind) =>
        var step := TokenStep(name, kind, tables, ind, named, avail, parserNames);
        if step.Next? {
          StepCapture(name, kind, tables, ind, named, avail, parserNames);
          CompileSegsPattern(segs[1..], step.tables, step.ind, named, avail, parserNames);
        }
    }
  }

  /** The replacement and the counter of a step that goes on. */
  lemma StepCapture(name: Option<string>, kind: string, tables: Tables, ind: nat, named: bool,
                    avail: Option<map<string, FileParser>>, parserNames: Option<map<string, string>>)
    ensures var r := TokenStep(name, kind, tables, ind, named, avail, parserNames);
      var k := KindNamed(kind).GetOr(Ignore);
      r.Next? ==> (KindNamed(kind).Some?
        && (k == Ignore && !named ==> r.repl == Fragment(Ignore) && r.ind == ind)
        && (k == Ignore && named && name.None? ==> r.repl == Group(IgnoreName(ind), Fragment(Ignore)) && r.ind == ind + 1)
        && (!(k == Ignore && (!named || name.None?)) ==> r.repl == Group(CaptureName(name, ind), Fragment(k)) && r.ind == ind))
  {
  }

  /**
   * The ignore counter advances once per unnamed ignore placeholder in
   * named-ignore mode, and not at all otherwise.
   */
  lemma {:induction false} CompileSegsIgnoreCounter(segs: seq<Segment>, tables: Tables, ind: nat, named: bool,
                                                    avail: Option<map<string, FileParser>>, parserNames: Option<map<string, string>>)
    ensures var b := CompileSegs(segs, tables, ind, named, avail, parserNames);
      b.result.Ok? ==> b.ind == ind + (if named then UnnamedIgnores(segs) else 0)
    decreases |segs|
  {
    if segs != [] {
      match segs[0]
      case Literal(text) =>
        CompileSegsIgnoreCounter(segs[1..], tables, ind, named, avail, parserNames);
      case Placeholder(name, kind) =>
        var step := TokenStep(name, kind, tables, ind, named, avail, parserNames);
        if step.Next? {
          StepCapture(name, kind, tables, ind, named, avail, parserNames);
          CompileSegsIgnoreCounter(segs[1..], step.tables, step.ind, named, avail, parserNames);
        }
    }
  }

  /** The file-kind placeholders, by the name their parser list is recorded under. */
  predicate FileToken(seg: Segment)
  {
    seg.Placeholder? && seg.name.Some? && KindNamed(seg.kind).Some? && IsFileKind(KindNamed(seg.kind).value)
  }

  /** Every file placeholder of `segs` has its resolved parser list recorded in `parsers`. */
  predicate ParsersRecorded(segs: seq<Segment>, parsers: map<string, seq<FileParser>>,
                            avail: Option<map<string, FileParser>>, parserNames: Option<map<string, string>>)
  {
    forall i :: 0 <= i < |segs| && FileToken(segs[i]) ==>
      segs[i].name.value in parsers
      && ResolveParsers(segs[i].name.value, avail, parserNames).Ok?
      && parsers[segs[i].name.value] == ResolveParsers(segs[i].name.value, avail, parserNames).value
  }

  /** The entry of `n` is the resolved list of `n`'s parsers. */
  predicate Resolved(parsers: map<string, seq<FileParser>>, n: string,
                     avail: Option<map<string, FileParser>>, parserNames: Option<map<string, string>>)
  {
    n in parsers && ResolveParsers(n, avail, parserNames).Ok? && parsers[n] == ResolveParsers(n, avail, parserNames).value
  }

  lemma ParsersRecordedCons(segs: seq<Segment>, parsers: map<string, seq<FileParser>>,
                            avail: Option<map<string, FileParser>>, parserNames: Option<map<string, string>>)
    requires segs != [] && ParsersRecorded(segs[1..], parsers, avail, parserNames)
    requires FileToken(segs[0]) ==> Resolved(parsers, segs[0].name.value, avail, parserNames)
    ensures ParsersRecorded(segs, parsers, avail, parserNames)
  {
    forall i | 0 < i < |segs| ensures segs[i] == segs[1..][i - 1] {}
  }

  /** A step records a file placeholder's resolved parsers, and keeps every resolved entry. */
  lemma TokenStepParsers(name: Option<string>, kind: string, tables: Tables, ind: nat, named: bool,
                         avail: Option<map<string, FileParser>>, parserNames: Option<map<string, string>>, n: string)
    ensures var r := TokenStep(name, kind, tables, ind, named, avail, parserNames);
      && (r.Next? && FileToken(Placeholder(name, kind)) ==> Resolved(r.tables.parsers, name.value, avail, parserNames))
      && (Resolved(tables.parsers, n, avail, parserNames) ==> Resolved(r.tables.parsers, n, avail, parserNames))
  {
  }

  /** Compiling never changes an entry that already holds its name's resolved parsers. */
  lemma {:induction false} CompileSegsKeepsParsers(segs: seq<Segment>, tables: Tables, ind: nat, named: bool,
                                                   avail: Option<map<string, FileParser>>, parserNames: Option<map<string, string>>, n: string)
    requires Resolved(tables.parsers, n, avail, parserNames)
    ensures Resolved(CompileSegs(segs, tables, ind, named, avail, parserNames).tables.parsers, n, avail, parserNames)
    decreases |segs|
  {
    if segs != [] {
      match segs[0]
      case Literal(text) =>
        CompileSegsKeepsParsers(segs[1..], tables, ind, named, avail, parserNames, n);
      case Placeholder(name, kind) =>
        TokenStepParsers(name, kind, tables, ind, named, avail, parserNames, n);
        var step := TokenStep(name, kind, tables, ind, named, avail, parserNames);
        if step.Next? {
          CompileSegsKeepsParsers(segs[1..], step.tables, step.ind, named, avail, parserNames, n);
        }
    }
  }

  /**
   * After a successful compile each file, gzip_file and file_list placeholder
   * has its resolved parsers recorded, in the order of its comma list.
   */
  lemma {:induction false} CompileSegsParsers(segs: seq<Segment>, tables: Tables, ind: nat, named: bool,
                                              avail: Option<map<string, FileParser>>, parserNames: Option<map<string, string>>)
    ensures var b := CompileSegs(segs, tables, ind, named, avail, parserNames);
      b.result.Ok? ==> ParsersRecorded(segs, b.tables.parsers, avail, parserNames)
    decreases |segs|
  {
    if segs != [] {
      var b := CompileSegs(segs, tables, ind, named, avail, parserNames);
      match segs[0]
      case Literal(text) =>
        CompileSegsParsers(segs[1..], tables, ind, named, avail, parserNames);
        if b.result.Ok? {
          ParsersRecordedCons(segs, b.tables.parsers, avail, parserNames);
        }
      case Placeholder(name, kind) =>
        var step := TokenStep(name, kind, tables, ind, named, avail, parserNames);
        if step.Next? {
          CompileSegsParsers(segs[1..], step.tables, step.ind, named, avail, parserNames);
          if b.result.Ok? && FileToken(segs[0]) {
            TokenStepParsers(name, kind, tables, ind, named, avail, parserNames, name.value);
            CompileSegsKeepsParsers(segs[1..], step.tables, step.ind, named, avail, parserNames, name.value);
          }
          if b.result.Ok? {
            ParsersRecordedCons(segs, b.tables.parsers, avail, parserNames);
          }
        }
    }
  }
}
