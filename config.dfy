/**
 * The first version of the job-spec parser, in `config.py`. Its `JobSpec`
 * turns a spec with `{name:kind}` placeholders into an anchored regex,
 * replacing every copy of the leftmost placeholder at once; its
 * `parse_job_cmd` fills a `JobData` from the groups of a match; and
 * `SlurmiseConfiguration` looks a job's spec up by name. The file parsers of
 * this version are defined here too.
 */
module Config {
  import opened Wrappers
  import opened Text
  import opened Values
  import opened JobSpecTokens
  import JobSpecCompile
  import FileParsers
  import JobRecords

  // ---------------------------------------------------------------------
  // KIND_TO_REGEX: four kinds, categories and ignores greedy

  const OLD_KINDS: set<string> := {"file", "numeric", "category", "ignore"}

  /** `kind in KIND_TO_REGEX` for this version's table, and which kind the text names. */
  function OldKindNamed(kind: string): (k: Option<Kind>)
    ensures k.Some? <==> kind in OLD_KINDS
    ensures k.Some? ==> NameOf(k.value) == kind && (k.value == File || k.value == Numeric || k.value == Category || k.value == Ignore)
  {
    if kind in OLD_KINDS then KindNamed(kind) else None
  }

  /** `KIND_TO_REGEX[kind]`. */
  function OldFragment(k: Kind): (f: string)
    requires NameOf(k) in OLD_KINDS
    ensures '{' !in f && '}' !in f
  {
    match k
    case Numeric => "[-0-9.]+"
    case Category => ".+"
    case Ignore => ".+"
    case File => ".+?"
  }

  // ---------------------------------------------------------------------
  // This version's file parsers

  /** Which `parse_file` a parser runs; `NotImplemented` is the abstract `FileParser`. */
  datatype ParseWith = NotImplemented | SizeOfFile | LinesOfFile | AwkScript(script: string)

  /** A `FileParser` dataclass instance of this version. */
  datatype OldFileParser = OldFileParser(name: string, returnType: string, impl: ParseWith)

  predicate IsNumeric(p: OldFileParser)
  {
    p.returnType == FileParsers.NUMERICAL
  }

  function FileSizeParser(): OldFileParser
  {
    OldFileParser("file_size", FileParsers.NUMERICAL, SizeOfFile)
  }

  function FileLinesParser(): OldFileParser
  {
    OldFileParser("file_lines", FileParsers.NUMERICAL, LinesOfFile)
  }

  /** `AwkCommandParser(name, return_type, script)`: the return type is upper-cased first. */
  function AwkCommandParser(name: string, returnType: string, script: string): (p: OldFileParser)
    ensures p.name == name && p.impl == AwkScript(script)
    ensures IsNumeric(p) <==> Upper(returnType) == FileParsers.NUMERICAL
  {
    OldFileParser(name, Upper(returnType), AwkScript(script))
  }

  /**
   * What an awk parser makes of its output: a numeric one the float of the
   * whole stripped text, which must be one number; any other the stripped text.
   */
  function AwkValue(p: OldFileParser, stdout: string, toFloat: FloatParser): (r: Result<Value, string>)
    ensures !IsNumeric(p) ==> r == Ok(Str(Strip(stdout)))
    ensures IsNumeric(p) ==> (r.Ok? <==> toFloat(Strip(stdout)).Some?)
    ensures IsNumeric(p) && r.Ok? ==> r.value == Real(toFloat(Strip(stdout)).value)
  {
    if IsNumeric(p) then
      match toFloat(Strip(stdout))
      case Some(x) => Ok(Real(x))
      case None => Err("could not convert string to float: " + Repr(Strip(stdout)))
    else Ok(Str(Strip(stdout)))
  }

  /** `parser.parse_file(path)`, the filesystem and `awk` taken from `io`. */
  function ParseFileSpec(p: OldFileParser, path: string, io: FileParsers.Io): Result<Value, string>
  {
    match p.impl
    case NotImplemented => Err("NotImplementedError")
    case SizeOfFile =>
      (match io.stat(path)
       case Ok(n) => Ok(Int(n))
       case Err(e) => Err(e))
    case LinesOfFile =>
      (match io.rawReads(path)
       case Ok(chunks) => Ok(Int(1 + Count(FileParsers.Flatten(FileParsers.UntilEmpty(chunks)), NEWLINE)))
       case Err(e) => Err(e))
    case AwkScript(script) =>
      match io.run(["awk", script, path])
      case Ok(out) => AwkValue(p, out, io.toFloat)
      case Err(e) => Err(e)
  }

  /** `parser.parse_file(path)`, running the read loop of `FileLinesParser`. */
  method ParseFile(p: OldFileParser, path: string, io: FileParsers.Io) returns (r: Result<Value, string>)
    ensures r == ParseFileSpec(p, path, io)
    ensures p.impl == LinesOfFile && r.Ok? ==> r.value.Int? && r.value.i >= 1
  {
    if p.impl == LinesOfFile {
      match io.rawReads(path) {
        case Err(e) => r := Err(e);
        case Ok(chunks) =>
          var n := FileParsers.CountLines(chunks);
          r := Ok(Int(n));
      }
    } else {
      r := ParseFileSpec(p, path, io);
    }
  }

  // ---------------------------------------------------------------------
  // Errors

  /** The exceptions of this version, with the values their messages interpolate. */
  datatype ConfigError =
    | UnknownTokenKind(kind: string)
    | NoName(token: string)
    /** A TypeError: `file_parsers` or `available_parsers` is None when a file token needs it. */
    | NoParserTable
    /** A KeyError: a file token without an entry, or a parser name that is not available. */
    | MissingKey(key: string)
    /** A TypeError: `job.cmd` is None where `re.match` needs text. */
    | CmdNotString
    | DoesNotMatch(spec: string, cmd: string)
    /** `re.error`: the engine refuses the pattern, for a repeated or invalid group name say. */
    | BadPattern(message: string)
    /** An IndexError: the match has no group for a registered name. */
    | NoSuchGroup(name: string)
    | NotANumber(text: string)
    | ParserFailed(message: string)
    | UnknownKind(kind: string)
    | JobNotFound(jobName: string)

  /** The message of each ValueError this version raises itself. */
  function Message(e: ConfigError): string
  {
    match e
    case UnknownTokenKind(kind) => "Token kind " + kind + " is unknown."
    case NoName(token) => "Token " + token + " has no name."
    case DoesNotMatch(spec, cmd) => "Job spec " + spec + " does not match command " + cmd + "."
    case UnknownKind(kind) => "Unknown kind " + kind + "."
    case JobNotFound(job) => "Job " + job + " not found in configuration."
    case NotANumber(text) => "could not convert string to float: " + Repr(text)
    case _ => ""
  }

  // ---------------------------------------------------------------------
  // JOB_SPEC_REGEX = {(?:(?P<name>[^:]+):)?(?P<kind>[^}]+)}

  /**
   * The named reading of a match at `i`: the name group `[^:]+` runs to the
   * first `:` after the brace (and may hold braces), the kind to the first
   * `}` after that; neither may be empty.
   */
  function NamedMatchAt(s: string, i: nat): (m: Option<Token>)
    requires i < |s|
  {
    match CharFrom(s, i + 1, ':')
    case None => None
    case Some(c) =>
      if c == i + 1 then None
      else
        match CharFrom(s, c + 1, '}')
        case None => None
        case Some(e) => if e == c + 1 then None else Some(Token(i, e + 1, Some(s[i + 1..c]), s[c + 1..e]))
  }

  /** The unnamed reading: the whole text up to the first `}` is the kind. */
  function UnnamedMatchAt(s: string, i: nat): (m: Option<Token>)
    requires i < |s|
  {
    match CharFrom(s, i + 1, '}')
    case None => None
    case Some(e) => if e == i + 1 then None else Some(Token(i, e + 1, None, s[i + 1..e]))
  }

  /** The match of the pattern that starts at index `i`: the named reading is tried first. */
  function OldMatchAt(s: string, i: nat): (m: Option<Token>)
    ensures m.Some? ==> m.value.start == i && i + 3 <= m.value.end <= |s|
  {
    if i < |s| && s[i] == '{' then
      if NamedMatchAt(s, i).Some? then NamedMatchAt(s, i) else UnnamedMatchAt(s, i)
    else None
  }

  /**
   * The text of a match is the placeholder its groups describe; the kind
   * holds no `}` and the name no `:`.
   */
  lemma OldMatchText(s: string, i: nat)
    requires OldMatchAt(s, i).Some?
    ensures var m := OldMatchAt(s, i).value;
      && s[i..m.end] == TokenText(m.name, m.kind)
      && IsKindGroup(m.kind) && (m.name.Some? ==> m.name.value != [] && ':' !in m.name.value)
  {
    if NamedMatchAt(s, i).Some? {
      NamedMatchText(s, i);
    } else {
      UnnamedMatchText(s, i);
    }
  }

  lemma NamedMatchText(s: string, i: nat)
    requires i < |s| && s[i] == '{' && NamedMatchAt(s, i).Some?
    ensures var m := NamedMatchAt(s, i).value;
      && s[i..m.end] == TokenText(m.name, m.kind)
      && IsKindGroup(m.kind) && m.name.Some? && m.name.value != [] && ':' !in m.name.value
  {
    var c := CharFrom(s, i + 1, ':').value;
    var e := CharFrom(s, c + 1, '}').value;
    CharFromClean(s, i + 1, c, ':');
    CharFromClean(s, c + 1, e, '}');
    var name, kind := s[i + 1..c], s[c + 1..e];
    assert NamedMatchAt(s, i).value == Token(i, e + 1, Some(name), kind);
    ColonSplit(s, i + 1, c, e);
    BracedText(s, i, e, Some(name), kind);
  }

  /** Text with a `:` at `c` is the text before it, the colon and the text after it. */
  lemma ColonSplit(s: string, a: nat, c: nat, e: nat)
    requires a <= c < e <= |s| && s[c] == ':'
    ensures s[a..e] == s[a..c] + ":" + s[c + 1..e]
  {
    assert s[a..e] == s[a..c] + [s[c]] + s[c + 1..e];
  }

  lemma UnnamedMatchText(s: string, i: nat)
    requires i < |s| && s[i] == '{' && UnnamedMatchAt(s, i).Some?
    ensures var m := UnnamedMatchAt(s, i).value;
      s[i..m.end] == TokenText(m.name, m.kind) && IsKindGroup(m.kind) && m.name.None?
  {
    var e := CharFrom(s, i + 1, '}').value;
    CharFromClean(s, i + 1, e, '}');
    var kind := s[i + 1..e];
    assert UnnamedMatchAt(s, i).value == Token(i, e + 1, None, kind);
    BracedText(s, i, e, None, kind);
  }

  /** `JOB_SPEC_REGEX.search(s)` from `from`: the first match at or after it. */
  function OldFindFrom(s: string, from: nat): (r: Option<Token>)
    requires from <= |s|
    ensures r.Some? ==> from <= r.value.start && OldMatchAt(s, r.value.start) == r
    ensures r.Some? ==> forall j :: from <= j < r.value.start ==> OldMatchAt(s, j).None?
    ensures r.None? ==> forall j :: from <= j <= |s| ==> OldMatchAt(s, j).None?
    decreases |s| - from
  {
    if OldMatchAt(s, from).Some? then OldMatchAt(s, from)
    else if from == |s| then None
    else OldFindFrom(s, from + 1)
  }

  /** `JOB_SPEC_REGEX.search(s)`: the leftmost match. */
  function OldFind(s: string): (r: Option<Token>)
    ensures r.Some? ==> OldMatchAt(s, r.value.start) == r && forall j :: 0 <= j < r.value.start ==> OldMatchAt(s, j).None?
    ensures r.None? ==> forall j :: 0 <= j <= |s| ==> OldMatchAt(s, j).None?
  {
    OldFindFrom(s, 0)
  }

  /** A text without `{` holds no placeholder. */
  lemma NoBraceNoMatch(s: string)
    requires '{' !in s
    ensures OldFind(s).None?
  {
    forall j | 0 <= j <= |s| ensures OldMatchAt(s, j).None? {
      if j < |s| {
        assert s[j] in s;
      }
    }
  }

  // ---------------------------------------------------------------------
  // The token table: token_kinds (an ordered dict) and file_parsers

  datatype TokenTable = TokenTable(names: seq<string>, kinds: map<string, Kind>, parsers: map<string, seq<OldFileParser>>)

  const EmptyTable := TokenTable([], map[], map[])

  /** The names and kinds as the newer module's table, whose order discipline they share. */
  function Order(t: TokenTable): JobSpecCompile.Tables
  {
    JobSpecCompile.Tables(t.names, t.kinds, map[])
  }

  /** `names` is the insertion order of the keys of `kinds`. */
  predicate Ordered(t: TokenTable)
  {
    JobSpecCompile.WellFormed(Order(t))
  }

  /** `token_kinds[name] = kind`: a new key goes last, an existing one keeps its place. */
  function Add(t: TokenTable, name: string, k: Kind): (r: TokenTable)
    ensures r.kinds == t.kinds[name := k] && r.parsers == t.parsers
    ensures Ordered(t) ==> Ordered(r)
  {
    var o := JobSpecCompile.Register(Order(t), name, k);
    TokenTable(o.names, o.kinds, t.parsers)
  }

  /** The table `Add` builds, field by field. */
  lemma AddFields(t: TokenTable, name: string, k: Kind)
    ensures Add(t, name, k) == TokenTable(if name in t.kinds then t.names else t.names + [name], t.kinds[name := k], t.parsers)
  {
  }

  /**
   * `[available_parsers[pt] for pt in file_parsers[name].split(',')]`: a
   * TypeError when a table is None, a KeyError for a missing entry or for
   * the first parser name that is not available.
   */
  function ResolveParsers(name: string, avail: Option<map<string, OldFileParser>>, parserNames: Option<map<string, string>>)
    : (r: Result<seq<OldFileParser>, ConfigError>)
    ensures parserNames.None? ==> r == Err(NoParserTable)
    ensures parserNames.Some? && name !in parserNames.value ==> r == Err(MissingKey(name))
    ensures parserNames.Some? && name in parserNames.value && avail.None? ==> r == Err(NoParserTable)
    ensures r.Err? ==> r.error.NoParserTable? || r.error.MissingKey?
  {
    if parserNames.None? then Err(NoParserTable)
    else if name !in parserNames.value then Err(MissingKey(name))
    else if avail.None? then Err(NoParserTable)
    else
      match JobSpecCompile.LookupAll(Split(parserNames.value[name], ','), avail.value)
      case Ok(ps) => Ok(ps)
      case Err(pt) => Err(MissingKey(pt))
  }

  /**
   * With both tables given, the parsers resolve exactly when every listed
   * name is available, and then they come in list order.
   */
  lemma ResolveParsersInOrder(name: string, avail: map<string, OldFileParser>, parserNames: map<string, string>)
    requires name in parserNames
    ensures var pts := Split(parserNames[name], ',');
      var r := ResolveParsers(name, Some(avail), Some(parserNames));
      && (r.Ok? <==> JobSpecCompile.AllAvailable(pts, avail))
      && (r.Ok? ==> |r.value| == |pts| && forall i :: 0 <= i < |pts| ==> r.value[i] == avail[pts[i]])
  {
    JobSpecCompile.LookupAllSpec(Split(parserNames[name], ','), avail);
  }

  // ---------------------------------------------------------------------
  // JobSpec.__init__: the rewriting loop

  /** The outcome of one iteration: go on with a replacement, or raise. */
  datatype Step = Go(table: TokenTable, repl: string) | Halt(table: TokenTable, error: ConfigError)

  /**
   * The body of the `while match := JOB_SPEC_REGEX.search(job_spec)` loop for
   * a match with groups `name` and `kind`: check the kind; an ignore, named
   * or not, is only replaced by `.+`; any other placeholder needs a name, is
   * registered, and a file placeholder then gets its parsers.
   */
  function TokenStep(name: Option<string>, kind: string, t: TokenTable,
                     avail: Option<map<string, OldFileParser>>, parserNames: Option<map<string, string>>): (r: Step)
    ensures Ordered(t) ==> Ordered(r.table)
  {
    match OldKindNamed(kind)
    case None => Halt(t, UnknownTokenKind(kind))
    case Some(k) =>
      if k == Ignore then Go(t, OldFragment(k))
      else if name.None? then Halt(t, NoName(TokenText(name, kind)))
      else
        var t2 := Add(t, name.value, k);
        if k == File then
          match ResolveParsers(name.value, avail, parserNames)
          case Err(e) => Halt(t2, e)
          case Ok(ps) => Go(t2.(parsers := t2.parsers[name.value := ps]), JobSpecCompile.Group(name.value, OldFragment(k)))
        else Go(t2, JobSpecCompile.Group(name.value, OldFragment(k)))
  }

  /** A placeholder's text has one `}` more than its name. */
  lemma TokenTextBraces(name: Option<string>, kind: string)
    requires IsKindGroup(kind)
    ensures Count(TokenText(name, kind), '}') == (if name.Some? then Count(name.value, '}') else 0) + 1
  {
    var inner := TokenBody(name, kind);
    CountAppend("{" + inner, "}", '}');
    CountAppend("{", inner, '}');
    if name.Some? {
      CountAppend(name.value + ":", kind, '}');
      CountAppend(name.value, ":", '}');
    }
  }

  /** A group has as many `}` as its name when its fragment has none. */
  lemma GroupBraces(name: string, f: string)
    requires '}' !in f
    ensures Count(JobSpecCompile.Group(name, f), '}') == Count(name, '}')
  {
    assert JobSpecCompile.Group(name, f) == "(?P<" + name + ">" + f + ")";
    CountAppend("(?P<" + name + ">" + f, ")", '}');
    CountAppend("(?P<" + name + ">", f, '}');
    CountAppend("(?P<" + name, ">", '}');
    CountAppend("(?P<", name, '}');
  }

  /** The replacement has one `}` fewer than the placeholder it replaces. */
  lemma StepDropsBrace(name: Option<string>, kind: string, t: TokenTable,
                       avail: Option<map<string, OldFileParser>>, parserNames: Option<map<string, string>>)
    requires IsKindGroup(kind)
    requires TokenStep(name, kind, t, avail, parserNames).Go?
    ensures Count(TokenStep(name, kind, t, avail, parserNames).repl, '}') < Count(TokenText(name, kind), '}')
  {
    TokenTextBraces(name, kind);
    var k := OldKindNamed(kind).value;
    if k != Ignore {
      GroupBraces(name.value, OldFragment(k));
    } else {
      assert Count(OldFragment(k), '}') == 0;
    }
  }

  /** Replacing every copy of the leftmost placeholder removes at least one `}`. */
  lemma ReplaceDropsBrace(cur: string, m: Token, repl: string)
    requires OldFind(cur) == Some(m)
    requires Count(repl, '}') < Count(TokenText(m.name, m.kind), '}')
    ensures Count(ReplaceAll(cur, cur[m.start..m.end], repl), '}') < Count(cur, '}')
  {
    OldMatchText(cur, m.start);
    OccursSlice(cur, m.start, m.end);
    ReplaceAllCount(cur, cur[m.start..m.end], repl, '}');
  }

  /** What the constructor leaves: the regex or the exception, and the table as it then is. */
  datatype Built = Built(result: Result<string, ConfigError>, table: TokenTable)

  /**
   * The loop from the rewritten text `cur`: the leftmost match is handled
   * and every copy of its text replaced, until no match is left and the
   * regex is `^cur$`.
   */
  function Rewrite(cur: string, t: TokenTable, avail: Option<map<string, OldFileParser>>,
                   parserNames: Option<map<string, string>>): (b: Built)
    decreases Count(cur, '}')
  {
    match OldFind(cur)
    case None => Built(Ok("^" + cur + "$"), t)
    case Some(m) =>
      match TokenStep(m.name, m.kind, t, avail, parserNames)
      case Halt(t2, e) => Built(Err(e), t2)
      case Go(t2, repl) =>
        OldMatchText(cur, m.start);
        StepDropsBrace(m.name, m.kind, t, avail, parserNames);
        ReplaceDropsBrace(cur, m, repl);
        Rewrite(ReplaceAll(cur, cur[m.start..m.end], repl), t2, avail, parserNames)
  }

  /** `JobSpec(job_spec, file_parsers, available_parsers)`. */
  function Compile(spec: string, avail: Option<map<string, OldFileParser>>, parserNames: Option<map<string, string>>): Built
  {
    Rewrite(spec, EmptyTable, avail, parserNames)
  }

  /** Whether a table holds only what this version registers. */
  predicate Registered(t: TokenTable)
  {
    && Ordered(t)
    && (forall n :: n in t.kinds ==> t.kinds[n] == File || t.kinds[n] == Numeric || t.kinds[n] == Category)
    && (forall n :: n in t.parsers ==> n in t.kinds)
    && (forall n :: n in t.kinds && t.kinds[n] == File ==> n in t.parsers)
  }

  /** A step that goes on keeps the table's shape. */
  lemma TokenStepRegistered(name: Option<string>, kind: string, t: TokenTable,
                            avail: Option<map<string, OldFileParser>>, parserNames: Option<map<string, string>>)
    requires Registered(t) && TokenStep(name, kind, t, avail, parserNames).Go?
    ensures Registered(TokenStep(name, kind, t, avail, parserNames).table)
  {
    var k := OldKindNamed(kind).value;
    if k == File {
      var ps := ResolveParsers(name.value, avail, parserNames).value;
      RegisteredAddFile(t, name.value, ps);
    } else if k != Ignore {
      RegisteredAdd(t, name.value, k);
    }
  }

  /** Registering a number or category name keeps the table's shape. */
  lemma RegisteredAdd(t: TokenTable, name: string, k: Kind)
    requires Registered(t) && (k == Numeric || k == Category)
    ensures Registered(Add(t, name, k))
  {
    var t2 := Add(t, name, k);
    assert forall n :: n in t2.kinds ==> n == name || (n in t.kinds && t2.kinds[n] == t.kinds[n]);
  }

  /** Registering a file name with its parser list keeps the table's shape. */
  lemma RegisteredAddFile(t: TokenTable, name: string, ps: seq<OldFileParser>)
    requires Registered(t)
    ensures Registered(Add(t, name, File).(parsers := Add(t, name, File).parsers[name := ps]))
  {
    var t2 := Add(t, name, File);
    assert forall n :: n in t2.kinds ==> n == name || (n in t.kinds && t2.kinds[n] == t.kinds[n]);
  }

  /** Without `file_parsers` a step that goes on registers no file name. */
  lemma TokenStepWithoutTables(name: Option<string>, kind: string, t: TokenTable, avail: Option<map<string, OldFileParser>>)
    requires forall n :: n in t.kinds ==> t.kinds[n] != File
    requires TokenStep(name, kind, t, avail, None).Go?
    ensures forall n :: n in TokenStep(name, kind, t, avail, None).table.kinds ==> TokenStep(name, kind, t, avail, None).table.kinds[n] != File
  {
  }

  /**
   * The table keeps its shape through the loop: names in insertion order,
   * ignores never registered, and a parser list for every file name.
   */
  lemma {:induction false} RewriteRegistered(cur: string, t: TokenTable, avail: Option<map<string, OldFileParser>>,
                                             parserNames: Option<map<string, string>>)
    requires Registered(t)
    ensures Rewrite(cur, t, avail, parserNames).result.Ok? ==> Registered(Rewrite(cur, t, avail, parserNames).table)
    decreases Count(cur, '}')
  {
    match OldFind(cur)
    case None =>
    case Some(m) =>
      match TokenStep(m.name, m.kind, t, avail, parserNames)
      case Halt(t2, e) =>
      case Go(t2, repl) =>
        OldMatchText(cur, m.start);
        StepDropsBrace(m.name, m.kind, t, avail, parserNames);
        ReplaceDropsBrace(cur, m, repl);
        TokenStepRegistered(m.name, m.kind, t, avail, parserNames);
        RewriteRegistered(ReplaceAll(cur, cur[m.start..m.end], repl), t2, avail, parserNames);
  }

  /** The loop ends with a `^…$` regex around a text in which no placeholder is left. */
  lemma {:induction false} RewriteAnchored(cur: string, t: TokenTable, avail: Option<map<string, OldFileParser>>,
                                           parserNames: Option<map<string, string>>)
    requires Rewrite(cur, t, avail, parserNames).result.Ok?
    ensures exists body :: Rewrite(cur, t, avail, parserNames).result.value == "^" + body + "$" && OldFind(body).None?
    decreases Count(cur, '}')
  {
    match OldFind(cur)
    case None =>
      assert Rewrite(cur, t, avail, parserNames).result.value == "^" + cur + "$";
    case Some(m) =>
      match TokenStep(m.name, m.kind, t, avail, parserNames)
      case Halt(t2, e) =>
      case Go(t2, repl) =>
        OldMatchText(cur, m.start);
        StepDropsBrace(m.name, m.kind, t, avail, parserNames);
        ReplaceDropsBrace(cur, m, repl);
        RewriteAnchored(ReplaceAll(cur, cur[m.start..m.end], repl), t2, avail, parserNames);
  }

  /**
   * A compiled spec has an anchored regex with no placeholder left, and a
   * table of file, numeric and category names only, each file name with
   * its parsers.
   */
  lemma CompileShape(spec: string, avail: Option<map<string, OldFileParser>>, parserNames: Option<map<string, string>>)
    requires Compile(spec, avail, parserNames).result.Ok?
    ensures Registered(Compile(spec, avail, parserNames).table)
    ensures exists body :: Compile(spec, avail, parserNames).result.value == "^" + body + "$" && OldFind(body).None?
  {
    RewriteRegistered(spec, EmptyTable, avail, parserNames);
    RewriteAnchored(spec, EmptyTable, avail, parserNames);
  }

  /** A spec without placeholders is its own regex, anchored, and registers nothing. */
  lemma CompileLiteral(spec: string, avail: Option<map<string, OldFileParser>>, parserNames: Option<map<string, string>>)
    requires '{' !in spec
    ensures Compile(spec, avail, parserNames) == Built(Ok("^" + spec + "$"), EmptyTable)
  {
    NoBraceNoMatch(spec);
  }

  /**
   * Without parser tables, as `SlurmiseConfiguration` builds every spec, a
   * spec compiles only if it has no file placeholder that is reached.
   */
  lemma {:induction false} RewriteWithoutTables(cur: string, t: TokenTable, avail: Option<map<string, OldFileParser>>)
    requires forall n :: n in t.kinds ==> t.kinds[n] != File
    ensures var b := Rewrite(cur, t, avail, None);
      b.result.Ok? ==> forall n :: n in b.table.kinds ==> b.table.kinds[n] != File
    decreases Count(cur, '}')
  {
    match OldFind(cur)
    case None =>
    case Some(m) =>
      match TokenStep(m.name, m.kind, t, avail, None)
      case Halt(t2, e) =>
      case Go(t2, repl) =>
        OldMatchText(cur, m.start);
        StepDropsBrace(m.name, m.kind, t, avail, None);
        ReplaceDropsBrace(cur, m, repl);
        TokenStepWithoutTables(m.name, m.kind, t, avail);
        RewriteWithoutTables(ReplaceAll(cur, cur[m.start..m.end], repl), t2, avail);
  }

  /**
   * One turn of the loop on the leftmost match: the step either raises, or
   * the loop goes on from the text with every copy of the match replaced.
   */
  lemma RewriteUnfold(cur: string, t: TokenTable, avail: Option<map<string, OldFileParser>>,
                      parserNames: Option<map<string, string>>, m: Token)
    requires OldFind(cur) == Some(m)
    ensures cur[m.start..m.end] == TokenText(m.name, m.kind)
    ensures var s := TokenStep(m.name, m.kind, t, avail, parserNames);
      && (s.Halt? ==> Rewrite(cur, t, avail, parserNames) == Built(Err(s.error), s.table))
      && (s.Go? ==>
            Rewrite(cur, t, avail, parserNames)
            == Rewrite(ReplaceAll(cur, TokenText(m.name, m.kind), s.repl), s.table, avail, parserNames))
  {
    OldMatchText(cur, m.start);
  }

  // ---------------------------------------------------------------------
  // JobSpec.parse_job_cmd: the features of a match

  /** What `re.match(job_regex, cmd)` gives: the text of each named group, None for no match, or the `re.error` the pattern raises. */
  type Matcher = (string, string) -> Result<Option<map<string, string>>, string>

  datatype Filled = Filled(numerical: map<string, Value>, categorical: map<string, Value>, error: Option<ConfigError>)

  /** `f"{name}_{parser.name}"`. */
  function ParserKey(name: string, p: OldFileParser): string
  {
    name + "_" + p.name
  }

  /** The parsers of a file token, in order, each value stored in the map its return type selects. */
  function FillParsers(ps: seq<OldFileParser>, name: string, path: string, num: map<string, Value>,
                       cat: map<string, Value>, io: FileParsers.Io): Filled
    decreases |ps|
  {
    if ps == [] then Filled(num, cat, None)
    else match ParseFileSpec(ps[0], path, io)
      case Err(e) => Filled(num, cat, Some(ParserFailed(e)))
      case Ok(v) =>
        if IsNumeric(ps[0]) then FillParsers(ps[1..], name, path, num[ParserKey(name, ps[0]) := v], cat, io)
        else FillParsers(ps[1..], name, path, num, cat[ParserKey(name, ps[0]) := v], io)
  }

  /** One entry of `token_kinds`: its features stored, or the exception. */
  function FillToken(name: string, t: TokenTable, groups: map<string, string>, num: map<string, Value>,
                     cat: map<string, Value>, io: FileParsers.Io): Filled
    requires name in t.kinds
  {
    match t.kinds[name]
    case Numeric =>
      if name !in groups then Filled(num, cat, Some(NoSuchGroup(name)))
      else
        (match io.toFloat(groups[name])
         case None => Filled(num, cat, Some(NotANumber(groups[name])))
         case Some(x) => Filled(num[name := Real(x)], cat, None))
    case Category =>
      if name !in groups then Filled(num, cat, Some(NoSuchGroup(name)))
      else Filled(num, cat[name := Str(groups[name])], None)
    case File =>
      if name !in t.parsers then Filled(num, cat, Some(MissingKey(name)))
      else if t.parsers[name] == [] then Filled(num, cat, None)
      else if name !in groups then Filled(num, cat, Some(NoSuchGroup(name)))
      else FillParsers(t.parsers[name], name, groups[name], num, cat, io)
    case _ => Filled(num, cat, Some(UnknownKind(NameOf(t.kinds[name]))))
  }

  /** The entries `names`, in order, until one raises. */
  function FillNames(names: seq<string>, t: TokenTable, groups: map<string, string>, num: map<string, Value>,
                     cat: map<string, Value>, io: FileParsers.Io): Filled
    requires forall i :: 0 <= i < |names| ==> names[i] in t.kinds
    decreases |names|
  {
    if names == [] then Filled(num, cat, None)
    else
      var x := FillToken(names[0], t, groups, num, cat, io);
      if x.error.Some? then x
      else FillNames(names[1..], t, groups, x.numerical, x.categorical, io)
  }

  /** The entries from the `i`-th on: that entry, then the rest unless it raised. */
  lemma FillNamesFrom(names: seq<string>, i: nat, t: TokenTable, groups: map<string, string>, num: map<string, Value>,
                      cat: map<string, Value>, io: FileParsers.Io)
    requires i < |names| && forall j :: 0 <= j < |names| ==> names[j] in t.kinds
    ensures var x := FillToken(names[i], t, groups, num, cat, io);
      FillNames(names[i..], t, groups, num, cat, io)
      == if x.error.Some? then x else FillNames(names[i + 1..], t, groups, x.numerical, x.categorical, io)
  {
    assert names[i..][0] == names[i] && names[i..][1..] == names[i + 1..];
  }

  /** The keys the parsers `ps` of token `name` write into the numerical map (`numeric`) or the categorical one. */
  function ParserKeys(ps: seq<OldFileParser>, name: string, numeric: bool): set<string>
    decreases |ps|
  {
    if ps == [] then {}
    else (if IsNumeric(ps[0]) == numeric then {ParserKey(name, ps[0])} else {}) + ParserKeys(ps[1..], name, numeric)
  }

  /** The numerical keys one entry writes: its own name for a numeric token, one per numeric parser for a file token. */
  function NumKeys(name: string, t: TokenTable): set<string>
    requires name in t.kinds
  {
    if t.kinds[name] == Numeric then {name}
    else if t.kinds[name] == File && name in t.parsers then ParserKeys(t.parsers[name], name, true)
    else {}
  }

  /** The categorical keys one entry writes: its own name for a category, one per other parser for a file token. */
  function CatKeys(name: string, t: TokenTable): set<string>
    requires name in t.kinds
  {
    if t.kinds[name] == Category then {name}
    else if t.kinds[name] == File && name in t.parsers then ParserKeys(t.parsers[name], name, false)
    else {}
  }

  /** A successful run of the parsers adds exactly one key per parser, to the map its return type selects. */
  lemma {:induction false} FillParsersKeys(ps: seq<OldFileParser>, name: string, path: string, num: map<string, Value>,
                                           cat: map<string, Value>, io: FileParsers.Io)
    requires FillParsers(ps, name, path, num, cat, io).error.None?
    ensures var x := FillParsers(ps, name, path, num, cat, io);
      x.numerical.Keys == num.Keys + ParserKeys(ps, name, true) && x.categorical.Keys == cat.Keys + ParserKeys(ps, name, false)
    decreases |ps|
  {
    if ps != [] {
      var v := ParseFileSpec(ps[0], path, io).value;
      var key := ParserKey(name, ps[0]);
      var rk, rc := ParserKeys(ps[1..], name, true), ParserKeys(ps[1..], name, false);
      if IsNumeric(ps[0]) {
        assert FillParsers(ps, name, path, num, cat, io) == FillParsers(ps[1..], name, path, num[key := v], cat, io);
        FillParsersKeys(ps[1..], name, path, num[key := v], cat, io);
        assert num[key := v].Keys + rk == num.Keys + ({key} + rk);
      } else {
        assert FillParsers(ps, name, path, num, cat, io) == FillParsers(ps[1..], name, path, num, cat[key := v], io);
        FillParsersKeys(ps[1..], name, path, num, cat[key := v], io);
        assert cat[key := v].Keys + rc == cat.Keys + ({key} + rc);
      }
    }
  }

  /** A token that does not raise writes exactly its keys. */
  lemma FillTokenKeys(name: string, t: TokenTable, groups: map<string, string>, num: map<string, Value>,
                      cat: map<string, Value>, io: FileParsers.Io)
    requires name in t.kinds && FillToken(name, t, groups, num, cat, io).error.None?
    ensures var x := FillToken(name, t, groups, num, cat, io);
      x.numerical.Keys == num.Keys + NumKeys(name, t) && x.categorical.Keys == cat.Keys + CatKeys(name, t)
  {
    if t.kinds[name] == File && t.parsers[name] != [] {
      FillParsersKeys(t.parsers[name], name, groups[name], num, cat, io);
    }
  }

  /**
   * A walk that does not raise adds to the maps exactly the keys its entries
   * write: numeric tokens and numeric parsers to `numerical`, categories and
   * the other parsers to `categorical`, nothing else.
   */
  lemma {:induction false} FillNamesKeys(names: seq<string>, t: TokenTable, groups: map<string, string>,
                                         num: map<string, Value>, cat: map<string, Value>, io: FileParsers.Io)
    requires forall i :: 0 <= i < |names| ==> names[i] in t.kinds
    requires FillNames(names, t, groups, num, cat, io).error.None?
    ensures var x := FillNames(names, t, groups, num, cat, io);
      && (forall k :: k in x.numerical <==> k in num || exists i :: 0 <= i < |names| && k in NumKeys(names[i], t))
      && (forall k :: k in x.categorical <==> k in cat || exists i :: 0 <= i < |names| && k in CatKeys(names[i], t))
    decreases |names|
  {
    if names != [] {
      var y := FillToken(names[0], t, groups, num, cat, io);
      FillTokenKeys(names[0], t, groups, num, cat, io);
      var rest := names[1..];
      assert forall i :: 0 <= i < |rest| ==> rest[i] == names[i + 1];
      FillNamesKeys(rest, t, groups, y.numerical, y.categorical, io);
      var x := FillNames(names, t, groups, num, cat, io);
      forall k ensures k in x.numerical <==> k in num || exists i :: 0 <= i < |names| && k in NumKeys(names[i], t) {
        if exists i :: 0 <= i < |names| && k in NumKeys(names[i], t) {
          var i :| 0 <= i < |names| && k in NumKeys(names[i], t);
          if i > 0 { assert k in NumKeys(rest[i - 1], t); }
        }
      }
      forall k ensures k in x.categorical <==> k in cat || exists i :: 0 <= i < |names| && k in CatKeys(names[i], t) {
        if exists i :: 0 <= i < |names| && k in CatKeys(names[i], t) {
          var i :| 0 <= i < |names| && k in CatKeys(names[i], t);
          if i > 0 { assert k in CatKeys(rest[i - 1], t); }
        }
      }
    }
  }

  /** The JobSpec of this version: what its constructor leaves in place. */
  class OldJobSpec {
    /** `job_spec_str`. */
    var specStr: string
    /** The keys of `token_kinds` in insertion order. */
    var names: seq<string>
    /** `token_kinds`. */
    var kinds: map<string, Kind>
    /** `file_parsers`. */
    var fileParsers: map<string, seq<OldFileParser>>
    /** `job_regex`. */
    var jobRegex: string

    function Table(): TokenTable
      reads this
    {
      TokenTable(names, kinds, fileParsers)
    }

    predicate Valid()
      reads this
    {
      Ordered(Table())
    }

    /** The object as the constructor's loop starts: the spec kept, the tables empty. */
    constructor Blank(spec: string)
      ensures specStr == spec && Table() == EmptyTable && jobRegex == "" && Valid()
    {
      specStr := spec;
      names := [];
      kinds := map[];
      fileParsers := map[];
      jobRegex := "";
    }

    /**
     * The body of the constructor's loop for a match with groups `name` and
     * `kind`: the replacement, or the exception; the tables are updated as
     * the step says.
     */
    method HandleMatch(name: Option<string>, kind: string, avail: Option<map<string, OldFileParser>>,
                       parserNames: Option<map<string, string>>) returns (repl: string, err: Option<ConfigError>)
      requires Valid()
      modifies this
      ensures var step := TokenStep(name, kind, old(Table()), avail, parserNames);
        && Valid() && Table() == step.table
        && (step.Halt? ==> err == Some(step.error))
        && (step.Go? ==> err.None? && repl == step.repl)
      ensures specStr == old(specStr) && jobRegex == old(jobRegex)
    {
      ghost var t0 := Table();
      ghost var step := TokenStep(name, kind, t0, avail, parserNames);
      repl, err := "", None;
      var k := OldKindNamed(kind);
      if k.None? {
        assert step == Halt(t0, UnknownTokenKind(kind));
        err := Some(UnknownTokenKind(kind));
        return;
      }
      repl := OldFragment(k.value);
      if k.value == Ignore {
        assert step == Go(t0, repl);
        return;
      }
      if name.None? {
        assert step == Halt(t0, NoName(TokenText(name, kind)));
        err := Some(NoName(TokenText(name, kind)));
        return;
      }
      var n := name.value;
      ghost var t2 := Add(t0, n, k.value);
      Enter(n, k.value);
      repl := JobSpecCompile.Group(n, OldFragment(k.value));
      if k.value == File {
        var ps := ResolveParsers(n, avail, parserNames);
        if ps.Err? {
          assert step == Halt(t2, ps.error);
          err := Some(ps.error);
          return;
        }
        fileParsers := fileParsers[n := ps.value];
        assert step == Go(t2.(parsers := t2.parsers[n := ps.value]), repl);
      } else {
        assert step == Go(t2, repl);
      }
    }

    /** `self.token_kinds[name] = kind`, with the name appended on its first appearance. */
    method Enter(n: string, k: Kind)
      requires Valid()
      modifies this
      ensures Table() == Add(old(Table()), n, k) && Valid()
      ensures specStr == old(specStr) && jobRegex == old(jobRegex)
    {
      AddFields(Table(), n, k);
      if n !in kinds {
        names := names + [n];
      }
      kinds := kinds[n := k];
    }

    /**
     * The constructor's loop from the spec text: search the rewritten text
     * again after each replacement, filling the tables as it goes; on
     * success the anchored regex is returned for `job_regex`.
     */
    method Scan(avail: Option<map<string, OldFileParser>>, parserNames: Option<map<string, string>>)
      returns (r: Result<string, ConfigError>)
      requires Valid()
      modifies this
      ensures Valid() && specStr == old(specStr) && jobRegex == old(jobRegex)
      ensures var b := Rewrite(old(specStr), old(Table()), avail, parserNames);
        r == b.result && Table() == b.table
    {
      var cur := specStr;
      ghost var goal := Rewrite(cur, Table(), avail, parserNames);
      while true
        invariant Valid() && specStr == old(specStr) && jobRegex == old(jobRegex)
        invariant Rewrite(cur, Table(), avail, parserNames) == goal
        decreases Count(cur, '}')
      {
        var found := OldFind(cur);
        if found.None? {
          return Ok("^" + cur + "$");
        }
        var m := found.value;
        RewriteUnfold(cur, Table(), avail, parserNames, m);
        OldMatchText(cur, m.start);
        ghost var before := Table();
        var text := cur[m.start..m.end];
        var repl, err := HandleMatch(m.name, m.kind, avail, parserNames);
        if err.Some? {
          return Err(err.value);
        }
        StepDropsBrace(m.name, m.kind, before, avail, parserNames);
        ReplaceDropsBrace(cur, m, repl);
        cur := ReplaceAll(cur, text, repl);
      }
    }

    /** `JobSpec(job_spec, file_parsers, available_parsers)`: the object, or the exception its constructor raises. */
    static method New(spec: string, parserNames: Option<map<string, string>>, avail: Option<map<string, OldFileParser>>)
      returns (r: Result<OldJobSpec, ConfigError>)
      ensures var b := Compile(spec, avail, parserNames);
        && (r.Ok? <==> b.result.Ok?)
        && (r.Err? ==> r.error == b.result.error)
        && (r.Ok? ==> (fresh(r.value) && r.value.Valid() && r.value.specStr == spec
          && r.value.jobRegex == b.result.value && r.value.Table() == b.table))
    {
      var js := new OldJobSpec.Blank(spec);
      var re := js.Scan(avail, parserNames);
      if re.Err? {
        return Err(re.error);
      }
      js.jobRegex := re.value;
      return Ok(js);
    }

    /**
     * `parse_job_cmd`: match the command against the regex; a command that
     * does not match raises, otherwise every registered entry, in insertion
     * order, stores its features in `job` until one raises.
     */
    method ParseJobCmd(job: JobRecords.JobData, engine: Matcher, io: FileParsers.Io) returns (err: Option<ConfigError>)
      requires Valid()
      modifies job
      ensures job.jobName == old(job.jobName) && job.slurmId == old(job.slurmId) && job.cmd == old(job.cmd)
      ensures job.memory == old(job.memory) && job.runtime == old(job.runtime)
      ensures old(job.cmd).None? ==> err == Some(CmdNotString) && job.numerical == old(job.numerical) && job.categorical == old(job.categorical)
      ensures old(job.cmd).Some? && engine(jobRegex, old(job.cmd).value).Err? ==>
        (err == Some(BadPattern(engine(jobRegex, old(job.cmd).value).error))
         && job.numerical == old(job.numerical) && job.categorical == old(job.categorical))
      ensures old(job.cmd).Some? && engine(jobRegex, old(job.cmd).value) == Ok(None) ==>
        (err == Some(DoesNotMatch(specStr, old(job.cmd).value)) && job.numerical == old(job.numerical) && job.categorical == old(job.categorical))
      ensures old(job.cmd).Some? && engine(jobRegex, old(job.cmd).value).Ok? && engine(jobRegex, old(job.cmd).value).value.Some? ==>
        (var x := FillNames(names, Table(), engine(jobRegex, old(job.cmd).value).value.value, old(job.numerical), old(job.categorical), io);
         job.numerical == x.numerical && job.categorical == x.categorical && err == x.error)
    {
      if job.cmd.None? {
        return Some(CmdNotString);
      }
      var m := engine(jobRegex, job.cmd.value);
      if m.Err? {
        return Some(BadPattern(m.error));
      }
      if m.value.None? {
        return Some(DoesNotMatch(specStr, job.cmd.value));
      }
      err := FillJob(job, names, Table(), m.value.value, io);
    }

    /** The loop of `parse_job_cmd` over `token_kinds`: each entry stores its features in `job` until one raises. */
    static method FillJob(job: JobRecords.JobData, names: seq<string>, t: TokenTable, groups: map<string, string>,
                          io: FileParsers.Io) returns (err: Option<ConfigError>)
      requires forall j :: 0 <= j < |names| ==> names[j] in t.kinds
      modifies job
      ensures job.jobName == old(job.jobName) && job.slurmId == old(job.slurmId) && job.cmd == old(job.cmd)
      ensures job.memory == old(job.memory) && job.runtime == old(job.runtime)
      ensures var x := FillNames(names, t, groups, old(job.numerical), old(job.categorical), io);
        job.numerical == x.numerical && job.categorical == x.categorical && err == x.error
    {
      ghost var goal := FillNames(names, t, groups, job.numerical, job.categorical, io);
      var i := 0;
      while i < |names|
        invariant 0 <= i <= |names|
        invariant job.jobName == old(job.jobName) && job.slurmId == old(job.slurmId) && job.cmd == old(job.cmd)
        invariant job.memory == old(job.memory) && job.runtime == old(job.runtime)
        invariant FillNames(names[i..], t, groups, job.numerical, job.categorical, io) == goal
      {
        FillNamesFrom(names, i, t, groups, job.numerical, job.categorical, io);
        var x := FillToken(names[i], t, groups, job.numerical, job.categorical, io);
        job.numerical, job.categorical := x.numerical, x.categorical;
        if x.error.Some? {
          return x.error;
        }
        i := i + 1;
      }
      assert names[i..] == [];
      return None;
    }
  }

  // ---------------------------------------------------------------------
  // SlurmiseConfiguration

  /** The decoded configuration: the base directory and each job's spec object. */
  class SlurmiseConfiguration {
    var baseDir: string
    var jobs: map<string, OldJobSpec>

    predicate Valid()
      reads this, jobs.Values
    {
      forall n :: n in jobs ==> jobs[n].Valid()
    }

    constructor (baseDir: string, jobs: map<string, OldJobSpec>)
      ensures this.baseDir == baseDir && this.jobs == jobs
    {
      this.baseDir := baseDir;
      this.jobs := jobs;
    }

    /**
     * `SlurmiseConfiguration(toml_file)` once the TOML is decoded: every
     * `job_spec` is compiled without parser tables; the first that raises
     * ends the construction.
     */
    static method Load(baseDir: string, specs: map<string, string>) returns (r: Result<SlurmiseConfiguration, ConfigError>)
      ensures r.Ok? <==> forall n :: n in specs ==> Compile(specs[n], None, None).result.Ok?
      ensures r.Err? ==> exists n :: n in specs && Compile(specs[n], None, None).result == Err(r.error)
      ensures r.Ok? ==> (fresh(r.value) && r.value.Valid() && r.value.baseDir == baseDir && r.value.jobs.Keys == specs.Keys
        && forall n :: n in specs ==> Compiled(r.value.jobs[n], specs[n]))
    {
      var jobs := CompileAll(specs);
      if jobs.Err? {
        return Err(jobs.error);
      }
      var conf := new SlurmiseConfiguration(baseDir, jobs.value);
      return Ok(conf);
    }

    /** The loop of the constructor over the `job_spec` entries, stopping at the first that raises. */
    static method CompileAll(specs: map<string, string>) returns (r: Result<map<string, OldJobSpec>, ConfigError>)
      ensures r.Ok? <==> forall n :: n in specs ==> Compile(specs[n], None, None).result.Ok?
      ensures r.Err? ==> exists n :: n in specs && Compile(specs[n], None, None).result == Err(r.error)
      ensures r.Ok? ==> r.value.Keys == specs.Keys && forall n :: n in specs ==> Compiled(r.value[n], specs[n])
    {
      var jobs: map<string, OldJobSpec> := map[];
      var todo := specs.Keys;
      while todo != {}
        invariant todo <= specs.Keys && jobs.Keys == specs.Keys - todo
        invariant forall n :: n in jobs ==> Compiled(jobs[n], specs[n])
        decreases |todo|
      {
        var n :| n in todo;
        var js := OldJobSpec.New(specs[n], None, None);
        if js.Err? {
          return Err(js.error);
        }
        jobs := jobs[n := js.value];
        todo := todo - {n};
      }
      return Ok(jobs);
    }

    /**
     * `parse_job_cmd(job_name, slurm_id, cmd)`: an unknown job raises before
     * anything is parsed; a known one gives a new `JobData` with that name,
     * id and command, filled by the job's spec.
     */
    method ParseJobCmd(jobName: string, slurmId: string, cmd: string, engine: Matcher, io: FileParsers.Io)
      returns (r: Result<JobRecords.JobData, ConfigError>)
      requires Valid()
      ensures jobName !in jobs ==> r == Err(JobNotFound(jobName))
      ensures jobName in jobs ==> var js := jobs[jobName];
        && (engine(js.jobRegex, cmd).Err? ==> r == Err(BadPattern(engine(js.jobRegex, cmd).error)))
        && (engine(js.jobRegex, cmd) == Ok(None) ==> r == Err(DoesNotMatch(js.specStr, cmd)))
        && (engine(js.jobRegex, cmd).Ok? && engine(js.jobRegex, cmd).value.Some? ==>
          var x := FillNames(js.names, js.Table(), engine(js.jobRegex, cmd).value.value, map[], map[], io);
          && (r.Ok? <==> x.error.None?)
          && (r.Err? ==> x.error == Some(r.error))
          && (r.Ok? ==> (fresh(r.value) && r.value.jobName == Some(jobName) && r.value.slurmId == Some(slurmId)
            && r.value.cmd == Some(cmd) && r.value.numerical == x.numerical && r.value.categorical == x.categorical)))
    {
      if jobName !in jobs {
        return Err(JobNotFound(jobName));
      }
      var jd := new JobRecords.JobData(Some(jobName), Some(slurmId), Some(cmd));
      var err := jobs[jobName].ParseJobCmd(jd, engine, io);
      if err.Some? {
        return Err(err.value);
      }
      return Ok(jd);
    }
  }

  /** A spec object as the constructor leaves it for `spec` without parser tables. */
  ghost predicate Compiled(js: OldJobSpec, spec: string)
    reads js
  {
    && js.Valid() && js.specStr == spec
    && Compile(spec, None, None).result == Ok(js.jobRegex)
    && js.Table() == Compile(spec, None, None).table
  }
}
