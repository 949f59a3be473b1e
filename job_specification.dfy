/**
 * The `JobSpec` class of `job_parse/job_specification.py`: a job spec string
 * compiled into an anchored regex with named groups, the token table that
 * compilation fills (`token_kinds`, `file_parsers`), the alternative
 * construction from a dictionary of variables, and the extraction of a job's
 * features from the groups a command matched.
 */
module JobSpecification {
  import opened Wrappers
  import opened Text
  import opened Values
  import opened FileParsers
  import opened JobSpecTokens
  import opened JobSpecCompile
  import opened JobRecords
  import JobSpecDiagnostics

  /** What feature extraction observes besides the matched text: the parsers' I/O and file listings. */
  datatype Env = Env(
    io: Io,
    /** The lines of the text file at a path, each with its line ending, or the OSError's message. */
    readLines: string -> Result<seq<string>, string>)

  // ---------------------------------------------------------------------
  // from_variables

  /** A list of `(name, kind)` pairs whose names are pairwise distinct, as the keys of a dict are. */
  predicate DistinctKeys(vars: seq<(string, string)>)
  {
    forall i, j :: 0 <= i < j < |vars| ==> vars[i].0 != vars[j].0
  }

  function VarKeys(vars: seq<(string, string)>): set<string>
  {
    set i | 0 <= i < |vars| :: vars[i].0
  }

  /** Why one variable cannot be registered: an unknown kind, or a file whose parsers do not resolve. */
  function VariableError(name: string, kind: string,
                         avail: Option<map<string, FileParser>>, parserNames: Option<map<string, string>>): Option<SpecError>
  {
    match KindNamed(kind)
    case None => Some(UnknownVariableType(kind, Some(name)))
    case Some(k) =>
      if IsFileKind(k) && ResolveParsers(name, avail, parserNames).Err? then Some(ResolveParsers(name, avail, parserNames).error)
      else None
  }

  /**
   * The loop body of `from_variables` for one variable: an unknown kind
   * raises; otherwise the variable is registered (`ignore` included) and a
   * file variable gets its parsers.
   */
  function VariableStep(t: Tables, name: string, kind: string,
                        avail: Option<map<string, FileParser>>, parserNames: Option<map<string, string>>): Result<Tables, SpecError>
  {
    match KindNamed(kind)
    case None => Err(UnknownVariableType(kind, Some(name)))
    case Some(k) =>
      var t1 := Register(t, name, k);
      if IsFileKind(k) then
        match ResolveParsers(name, avail, parserNames)
        case Err(e) => Err(e)
        case Ok(ps) => Ok(t1.(parsers := t1.parsers[name := ps]))
      else Ok(t1)
  }

  /** One variable raises its own error, or registers its kind without disturbing the others. */
  lemma VariableStepSpec(t: Tables, name: string, kind: string,
                         avail: Option<map<string, FileParser>>, parserNames: Option<map<string, string>>)
    ensures var r := VariableStep(t, name, kind, avail, parserNames);
      && (r.Err? <==> VariableError(name, kind, avail, parserNames).Some?)
      && (r.Err? ==> r.error == VariableError(name, kind, avail, parserNames).value)
      && (r.Ok? ==> (r.value.kinds == t.kinds[name := KindNamed(kind).value]
        && r.value.names == Register(t, name, KindNamed(kind).value).names))
  {
  }

  /** The table `from_variables` fills from the variables in order; the first variable that cannot be registered raises. */
  function VariablesTables(vars: seq<(string, string)>, t: Tables,
                           avail: Option<map<string, FileParser>>, parserNames: Option<map<string, string>>): Result<Tables, SpecError>
    decreases |vars|
  {
    if vars == [] then Ok(t)
    else
      match VariableStep(t, vars[0].0, vars[0].1, avail, parserNames)
      case Err(e) => Err(e)
      case Ok(t2) => VariablesTables(vars[1..], t2, avail, parserNames)
  }

  /** The variables are accepted exactly when none has an error; otherwise the first one that has raises it. */
  lemma {:induction false} VariablesTablesErrors(vars: seq<(string, string)>, t: Tables,
                                                 avail: Option<map<string, FileParser>>, parserNames: Option<map<string, string>>)
    ensures var r := VariablesTables(vars, t, avail, parserNames);
      && (r.Ok? <==> forall i :: 0 <= i < |vars| ==> VariableError(vars[i].0, vars[i].1, avail, parserNames).None?)
      && (r.Err? ==> exists i :: (0 <= i < |vars| && VariableError(vars[i].0, vars[i].1, avail, parserNames) == Some(r.error)
        && forall j :: 0 <= j < i ==> VariableError(vars[j].0, vars[j].1, avail, parserNames).None?))
    decreases |vars|
  {
    if vars != [] {
      var rest := vars[1..];
      assert forall j :: 1 <= j < |vars| ==> rest[j - 1] == vars[j];
      VariableStepSpec(t, vars[0].0, vars[0].1, avail, parserNames);
      match VariableStep(t, vars[0].0, vars[0].1, avail, parserNames)
      case Err(e) =>
      case Ok(t2) =>
        VariablesTablesErrors(rest, t2, avail, parserNames);
        var r := VariablesTables(rest, t2, avail, parserNames);
        if r.Err? {
          var i :| 0 <= i < |rest| && VariableError(rest[i].0, rest[i].1, avail, parserNames) == Some(r.error)
            && forall j :: 0 <= j < i ==> VariableError(rest[j].0, rest[j].1, avail, parserNames).None?;
          assert vars[i + 1] == rest[i];
        }
    }
  }

  /** Accepted variables keep the table well formed. */
  lemma {:induction false} VariablesTablesWellFormed(vars: seq<(string, string)>, t: Tables,
                                                     avail: Option<map<string, FileParser>>, parserNames: Option<map<string, string>>)
    requires WellFormed(t)
    requires VariablesTables(vars, t, avail, parserNames).Ok?
    ensures WellFormed(VariablesTables(vars, t, avail, parserNames).value)
    decreases |vars|
  {
    if vars != [] {
      VariableStepSpec(t, vars[0].0, vars[0].1, avail, parserNames);
      RegisterOrder(t, vars[0].0, KindNamed(vars[0].1).value);
      VariablesTablesWellFormed(vars[1..], VariableStep(t, vars[0].0, vars[0].1, avail, parserNames).value, avail, parserNames);
    }
  }

  /** Accepted variables with distinct names, none already in the table, follow the old names in order. */
  lemma {:induction false} VariablesTablesNames(vars: seq<(string, string)>, t: Tables,
                                                avail: Option<map<string, FileParser>>, parserNames: Option<map<string, string>>)
    requires DistinctKeys(vars)
    requires forall i :: 0 <= i < |vars| ==> vars[i].0 !in t.kinds
    requires VariablesTables(vars, t, avail, parserNames).Ok?
    ensures VariablesTables(vars, t, avail, parserNames).value.names == t.names + VarNames(vars)
    decreases |vars|
  {
    if vars != [] {
      var name := vars[0].0;
      var rest := vars[1..];
      assert forall j :: 1 <= j < |vars| ==> rest[j - 1] == vars[j];
      VariableStepSpec(t, name, vars[0].1, avail, parserNames);
      var t2 := VariableStep(t, name, vars[0].1, avail, parserNames).value;
      assert t2.names == t.names + [name];
      VariablesTablesNames(rest, t2, avail, parserNames);
      VarsCons(vars);
      ConcatAssoc(t.names, [name], VarNames(rest));
    }
  }

  /** Accepted variables add their names to the keys and leave the kind of every other old key alone. */
  lemma {:induction false} VariablesTablesKeys(vars: seq<(string, string)>, t: Tables,
                                               avail: Option<map<string, FileParser>>, parserNames: Option<map<string, string>>)
    requires VariablesTables(vars, t, avail, parserNames).Ok?
    ensures VariablesTables(vars, t, avail, parserNames).value.kinds.Keys == t.kinds.Keys + VarKeys(vars)
    ensures forall n :: n in t.kinds && n !in VarKeys(vars) ==> VariablesTables(vars, t, avail, parserNames).value.kinds[n] == t.kinds[n]
    decreases |vars|
  {
    if vars != [] {
      var name, rest := vars[0].0, vars[1..];
      VariableStepSpec(t, name, vars[0].1, avail, parserNames);
      var t2 := VariableStep(t, name, vars[0].1, avail, parserNames).value;
      var r := VariablesTables(rest, t2, avail, parserNames);
      assert VariablesTables(vars, t, avail, parserNames) == r;
      VariablesTablesKeys(rest, t2, avail, parserNames);
      VarsCons(vars);
    }
  }

  /** Every accepted variable is recorded with the kind it names. */
  lemma {:induction false} VariablesTablesKinds(vars: seq<(string, string)>, t: Tables,
                                                avail: Option<map<string, FileParser>>, parserNames: Option<map<string, string>>)
    requires DistinctKeys(vars)
    requires forall i :: 0 <= i < |vars| ==> vars[i].0 !in t.kinds
    requires VariablesTables(vars, t, avail, parserNames).Ok?
    ensures forall i :: 0 <= i < |vars| ==> (vars[i].0 in VariablesTables(vars, t, avail, parserNames).value.kinds
      && KindNamed(vars[i].1) == Some(VariablesTables(vars, t, avail, parserNames).value.kinds[vars[i].0]))
    decreases |vars|
  {
    if vars != [] {
      var name := vars[0].0;
      var rest := vars[1..];
      assert forall j :: 1 <= j < |vars| ==> rest[j - 1] == vars[j];
      VariableStepSpec(t, name, vars[0].1, avail, parserNames);
      var t2 := VariableStep(t, name, vars[0].1, avail, parserNames).value;
      VariablesTablesKinds(rest, t2, avail, parserNames);
      VariablesTablesKeys(rest, t2, avail, parserNames);
      var r := VariablesTables(rest, t2, avail, parserNames).value;
      assert forall i :: 0 <= i < |rest| ==> rest[i].0 != name;
      assert name !in VarKeys(rest);
      assert r.kinds[name] == t2.kinds[name];
      forall i | 0 <= i < |vars|
        ensures vars[i].0 in r.kinds && KindNamed(vars[i].1) == Some(r.kinds[vars[i].0])
      {
        if i > 0 {
          assert vars[i] == rest[i - 1];
        }
      }
    }
  }

  lemma VarsCons(vars: seq<(string, string)>)
    requires vars != []
    ensures VarNames(vars) == [vars[0].0] + VarNames(vars[1..])
    ensures VarKeys(vars) == {vars[0].0} + VarKeys(vars[1..])
  {
    assert forall j :: 1 <= j < |vars| ==> vars[1..][j - 1] == vars[j];
    assert forall k :: k in VarKeys(vars) ==> k == vars[0].0 || k in VarKeys(vars[1..]);
  }

  // ---------------------------------------------------------------------
  // validate_variables messages

  /** `repr()` of a list of strings. */
  function ListRepr(xs: seq<string>): string
  {
    "[" + ReprItems(xs) + "]"
  }

  function ReprItems(xs: seq<string>): string
  {
    if xs == [] then "" else if |xs| == 1 then Repr(xs[0]) else Repr(xs[0]) + ", " + ReprItems(xs[1..])
  }

  /** `list(variables.keys())`. */
  function VarNames(vars: seq<(string, string)>): (r: seq<string>)
    ensures |r| == |vars| && forall i :: 0 <= i < |vars| ==> r[i] == vars[i].0
  {
    seq(|vars|, i requires 0 <= i < |vars| => vars[i].0)
  }

  /** The message for a variable whose kind is not the recorded one. */
  function TypeMismatchMessage(name: string, recorded: Kind, given: string): string
  {
    "The type of variable " + name + " does not match original specification\nFrom spec: "
      + NameOf(recorded) + "\nVariables: " + given
  }

  /** The message for variables that do not name exactly the recorded tokens. */
  function KeyMismatchMessage(names: seq<string>, vars: seq<(string, string)>): string
  {
    "Variables do not match original specification\nFrom spec: " + ListRepr(names) + "\nVariables: " + ListRepr(VarNames(vars))
  }

  /** The message for the first variable, in order, whose kind is not the one recorded. */
  function FirstKindMismatch(vars: seq<(string, string)>, kinds: map<string, Kind>): (r: Option<string>)
    requires forall i :: 0 <= i < |vars| ==> vars[i].0 in kinds
    ensures r.None? <==> forall i :: 0 <= i < |vars| ==> NameOf(kinds[vars[i].0]) == vars[i].1
  {
    if vars == [] then None
    else if NameOf(kinds[vars[0].0]) != vars[0].1 then Some(TypeMismatchMessage(vars[0].0, kinds[vars[0].0], vars[0].1))
    else
      assert forall j :: 1 <= j < |vars| ==> vars[1..][j - 1] == vars[j];
      FirstKindMismatch(vars[1..], kinds)
  }

  /** Variable `i` is the first whose kind differs from the spec's. */
  predicate DiffersFirstAt(vars: seq<(string, string)>, kinds: map<string, Kind>, i: int)
    requires forall k :: 0 <= k < |vars| ==> vars[k].0 in kinds
  {
    && 0 <= i < |vars| && NameOf(kinds[vars[i].0]) != vars[i].1
    && (forall j :: 0 <= j < i ==> NameOf(kinds[vars[j].0]) == vars[j].1)
  }

  /** A first difference among the later variables, after a head that agrees, is the first of all. */
  lemma DiffersFirstAfterHead(vars: seq<(string, string)>, kinds: map<string, Kind>, i: int)
    requires vars != []
    requires forall k :: 0 <= k < |vars| ==> vars[k].0 in kinds
    requires NameOf(kinds[vars[0].0]) == vars[0].1
    requires DiffersFirstAt(vars[1..], kinds, i)
    ensures DiffersFirstAt(vars, kinds, i + 1)
  {
    assert forall j :: 1 <= j < |vars| ==> vars[1..][j - 1] == vars[j];
  }

  /** The message reported is the one for the first variable whose kind differs. */
  lemma {:induction false} FirstKindMismatchIsFirst(vars: seq<(string, string)>, kinds: map<string, Kind>)
    requires forall i :: 0 <= i < |vars| ==> vars[i].0 in kinds
    requires FirstKindMismatch(vars, kinds).Some?
    ensures exists i :: (DiffersFirstAt(vars, kinds, i)
      && FirstKindMismatch(vars, kinds).value == TypeMismatchMessage(vars[i].0, kinds[vars[i].0], vars[i].1))
  {
    if NameOf(kinds[vars[0].0]) == vars[0].1 {
      var rest := vars[1..];
      FirstKindMismatchIsFirst(rest, kinds);
      var i :| DiffersFirstAt(rest, kinds, i)
        && FirstKindMismatch(rest, kinds).value == TypeMismatchMessage(rest[i].0, kinds[rest[i].0], rest[i].1);
      DiffersFirstAfterHead(vars, kinds, i);
      assert vars[i + 1] == rest[i];
    } else {
      assert DiffersFirstAt(vars, kinds, 0);
    }
  }

  // ---------------------------------------------------------------------
  // parse_job_from_dict: the extraction, as functions of the table

  /** The feature maps being filled and the exception that ended the filling, if any. */
  datatype Extraction = Extraction(numerical: map<string, Value>, categorical: map<string, Value>, error: Option<SpecError>)

  /** `parser.parse_file(Path(line.strip()))` for one line of a listing. */
  function LineParser(p: FileParser, io: Io): string -> Result<Value, string>
  {
    line => ParseFileSpec(p, Strip(line), false, io)
  }

  /** `[parse(line) for line in lines]`, stopping at the first exception. */
  function ParseEach(parse: string -> Result<Value, string>, lines: seq<string>): (r: Result<seq<Value>, string>)
    ensures r.Ok? ==> |r.value| == |lines|
  {
    if lines == [] then Ok([])
    else match parse(lines[0])
      case Err(e) => Err(e)
      case Ok(v) =>
        match ParseEach(parse, lines[1..])
        case Err(e) => Err(e)
        case Ok(vs) => Ok([v] + vs)
  }

  /**
   * A listing parses exactly when every line does, giving each line's value
   * in order; otherwise the first failing line's error.
   */
  lemma {:induction false} ParseEachSpec(parse: string -> Result<Value, string>, lines: seq<string>)
    ensures var r := ParseEach(parse, lines);
      && (r.Ok? <==> forall i :: 0 <= i < |lines| ==> parse(lines[i]).Ok?)
      && (r.Ok? ==> forall i :: 0 <= i < |lines| ==> parse(lines[i]) == Ok(r.value[i]))
      && (r.Err? ==> exists i :: (0 <= i < |lines| && parse(lines[i]) == Err(r.error)
        && forall j :: 0 <= j < i ==> parse(lines[j]).Ok?))
  {
    if lines != [] {
      ParseEachSpec(parse, lines[1..]);
      assert forall i :: 1 <= i < |lines| ==> lines[1..][i - 1] == lines[i];
      var r := ParseEach(parse, lines);
      if parse(lines[0]).Ok? && r.Err? {
        var i :| 0 <= i < |lines[1..]| && parse(lines[1..][i]) == Err(r.error)
          && forall j :: 0 <= j < i ==> parse(lines[1..][j]).Ok?;
        assert lines[i + 1] == lines[1..][i];
      }
    }
  }

  lemma {:induction false} ParseEachSnoc(parse: string -> Result<Value, string>, lines: seq<string>, line: string)
    requires ParseEach(parse, lines).Ok? && parse(line).Ok?
    ensures ParseEach(parse, lines + [line]) == Ok(ParseEach(parse, lines).value + [parse(line).value])
  {
    if lines == [] {
      assert [line][1..] == [] && lines + [line] == [line] && [line][0] == line;
      assert ParseEach(parse, []) == Ok([]);
      var v := parse(line).value;
      assert [v] + [] == [v] && ParseEach(parse, lines).value + [v] == [v];
    } else {
      assert (lines + [line])[1..] == lines[1..] + [line];
      assert (lines + [line])[0] == lines[0];
      ParseEachSnoc(parse, lines[1..], line);
      var v0, vs, w := parse(lines[0]).value, ParseEach(parse, lines[1..]).value, parse(line).value;
      assert [v0] + (vs + [w]) == ([v0] + vs) + [w];
    }
  }

  /** One more line parsed: the prefix grows by that line's value. */
  lemma ParseEachStep(parse: string -> Result<Value, string>, lines: seq<string>, i: nat)
    requires i < |lines| && ParseEach(parse, lines[..i]).Ok? && parse(lines[i]).Ok?
    ensures ParseEach(parse, lines[..i + 1]) == Ok(ParseEach(parse, lines[..i]).value + [parse(lines[i]).value])
  {
    assert lines[..i + 1] == lines[..i] + [lines[i]];
    ParseEachSnoc(parse, lines[..i], lines[i]);
  }

  lemma ParseEachWhole(parse: string -> Result<Value, string>, lines: seq<string>)
    ensures ParseEach(parse, lines[..|lines|]) == ParseEach(parse, lines)
  {
    assert lines[..|lines|] == lines;
  }

  lemma {:induction false} ParseEachFails(parse: string -> Result<Value, string>, lines: seq<string>, i: nat)
    requires i < |lines| && ParseEach(parse, lines[..i]).Ok? && parse(lines[i]).Err?
    ensures ParseEach(parse, lines) == Err(parse(lines[i]).error)
  {
    if i > 0 {
      assert lines[..i][0] == lines[0] && lines[..i][1..] == lines[1..][..i - 1];
      ParseEachFails(parse, lines[1..], i - 1);
    }
  }

  /** The value one parser gives for the path bound to a file token of kind `kind`. */
  function FileValue(p: FileParser, kind: Kind, path: string, env: Env): Result<Value, string>
  {
    match kind
    case GzipFile => ParseFileSpec(p, path, true, env.io)
    case FileList => ListingValue(p, path, env)
    case _ => ParseFileSpec(p, path, false, env.io)
  }

  /** A `file_list` token: the listing's lines, each stripped and parsed as a file. */
  function ListingValue(p: FileParser, path: string, env: Env): Result<Value, string>
  {
    match env.readLines(path)
    case Err(e) => Err(e)
    case Ok(lines) => ListingOf(ParseEach(LineParser(p, env.io), lines))
  }

  /** The listing's values as one `list`, or the error of its first failing line. */
  function ListingOf(vs: Result<seq<Value>, string>): (r: Result<Value, string>)
    ensures r.Ok? <==> vs.Ok?
    ensures vs.Ok? ==> r.value == List(vs.value)
    ensures vs.Err? ==> r.error == vs.error
  {
    match vs
    case Err(e) => Err(e)
    case Ok(values) => Ok(List(values))
  }

  /** The feature key of parser `p` on file token `name`. */
  function ParserKey(name: string, p: FileParser): string
  {
    name + "_" + p.name
  }

  /** What running one parser on a file token's path gives. */
  function ParserRun(kind: Kind, path: string, env: Env): FileParser -> Result<Value, string>
  {
    p => FileValue(p, kind, path, env)
  }

  /** Run the parsers in order, each value going to the map its return type selects. */
  function FillParsers(run: FileParser -> Result<Value, string>, ps: seq<FileParser>, name: string,
                       num: map<string, Value>, cat: map<string, Value>): Extraction
    decreases |ps|
  {
    if ps == [] then Extraction(num, cat, None)
    else match run(ps[0])
      case Err(e) => Extraction(num, cat, Some(ParserFailed(e)))
      case Ok(v) =>
        if IsNumeric(ps[0]) then FillParsers(run, ps[1..], name, num[ParserKey(name, ps[0]) := v], cat)
        else FillParsers(run, ps[1..], name, num, cat[ParserKey(name, ps[0]) := v])
  }

  /** One token of the table: store its value, or raise. */
  function FillToken(name: string, t: Tables, text: string, num: map<string, Value>, cat: map<string, Value>, env: Env): Extraction
    requires name in t.kinds
  {
    match t.kinds[name]
    case Numeric =>
      (match env.io.toFloat(text)
       case None => Extraction(num, cat, Some(NotANumber(text)))
       case Some(x) => Extraction(num[name := Real(x)], cat, None))
    case Category => Extraction(num, cat[name := Str(text)], None)
    case Ignore => Extraction(num, cat, Some(UnknownKind(NameOf(Ignore))))
    case _ =>
      if name !in t.parsers then Extraction(num, cat, Some(MissingFileParsers(name)))
      else FillParsers(ParserRun(t.kinds[name], text, env), t.parsers[name], name, num, cat)
  }

  /** The tokens `names`, in order, each filled from its matched text. */
  function FillNames(names: seq<string>, t: Tables, input: map<string, string>,
                     num: map<string, Value>, cat: map<string, Value>, env: Env): Extraction
    requires forall i :: 0 <= i < |names| ==> names[i] in t.kinds && names[i] in input
    decreases |names|
  {
    if names == [] then Extraction(num, cat, None)
    else
      var x := FillToken(names[0], t, input[names[0]], num, cat, env);
      if x.error.Some? then x
      else FillNames(names[1..], t, input, x.numerical, x.categorical, env)
  }

  /**
   * `parse_job_from_dict` on a table: a token with no value in `input` raises
   * first, then a value with no token; otherwise every token, in insertion
   * order, stores its features.
   */
  function FromDict(t: Tables, input: map<string, string>, num: map<string, Value>, cat: map<string, Value>, env: Env): Extraction
    requires WellFormed(t)
  {
    var missing := t.kinds.Keys - input.Keys;
    var extra := input.Keys - t.kinds.Keys;
    if missing != {} then Extraction(num, cat, Some(DictMissing(missing)))
    else if extra != {} then Extraction(num, cat, Some(DictExtra(extra)))
    else FillNames(t.names, t, input, num, cat, env)
  }

  // ---------------------------------------------------------------------
  // What the extraction promises

  /** The parsers run until the first that fails, which raises. */
  lemma {:induction false} FillParsersErrors(run: FileParser -> Result<Value, string>, ps: seq<FileParser>, name: string,
                                             num: map<string, Value>, cat: map<string, Value>)
    ensures var x := FillParsers(run, ps, name, num, cat);
      && (x.error.None? <==> forall j :: 0 <= j < |ps| ==> run(ps[j]).Ok?)
      && (x.error.Some? ==> exists j :: (0 <= j < |ps| && run(ps[j]).Err?
            && (forall k :: 0 <= k < j ==> run(ps[k]).Ok?)
            && x.error == Some(ParserFailed(run(ps[j]).error))))
    decreases |ps|
  {
    if ps != [] {
      var rest := ps[1..];
      assert forall k :: 1 <= k < |ps| ==> rest[k - 1] == ps[k];
      if run(ps[0]).Ok? {
        var v := run(ps[0]).value;
        var num2 := if IsNumeric(ps[0]) then num[ParserKey(name, ps[0]) := v] else num;
        var cat2 := if IsNumeric(ps[0]) then cat else cat[ParserKey(name, ps[0]) := v];
        assert FillParsers(run, ps, name, num, cat) == FillParsers(run, rest, name, num2, cat2);
        FillParsersErrors(run, rest, name, num2, cat2);
        var x := FillParsers(run, rest, name, num2, cat2);
        if x.error.Some? {
          var j :| 0 <= j < |rest| && run(rest[j]).Err?
            && (forall k :: 0 <= k < j ==> run(rest[k]).Ok?)
            && x.error == Some(ParserFailed(run(rest[j]).error));
          assert ps[j + 1] == rest[j];
        }
      }
    }
  }

  /** The exception the parsers raise does not depend on what was stored before. */
  lemma {:induction false} FillParsersErrorFree(run: FileParser -> Result<Value, string>, ps: seq<FileParser>, name: string,
                                                num: map<string, Value>, cat: map<string, Value>,
                                                num': map<string, Value>, cat': map<string, Value>)
    ensures FillParsers(run, ps, name, num, cat).error == FillParsers(run, ps, name, num', cat').error
    decreases |ps|
  {
    if ps != [] && run(ps[0]).Ok? {
      var v := run(ps[0]).value;
      var key := ParserKey(name, ps[0]);
      if IsNumeric(ps[0]) {
        FillParsersErrorFree(run, ps[1..], name, num[key := v], cat, num'[key := v], cat');
      } else {
        FillParsersErrorFree(run, ps[1..], name, num, cat[key := v], num', cat'[key := v]);
      }
    }
  }

  /** The feature keys parsers `ps` on token `name` store into the numeric map, or into the categorical one. */
  function ParserKeys(ps: seq<FileParser>, name: string, numeric: bool): set<string>
    decreases |ps|
  {
    if ps == [] then {}
    else (if IsNumeric(ps[0]) == numeric then {ParserKey(name, ps[0])} else {}) + ParserKeys(ps[1..], name, numeric)
  }

  /** When every parser succeeds, each stores under `name_parser` in the map its return type selects. */
  lemma {:induction false} FillParsersKeys(run: FileParser -> Result<Value, string>, ps: seq<FileParser>, name: string,
                                           num: map<string, Value>, cat: map<string, Value>)
    requires FillParsers(run, ps, name, num, cat).error.None?
    ensures FillParsers(run, ps, name, num, cat).numerical.Keys == num.Keys + ParserKeys(ps, name, true)
    ensures FillParsers(run, ps, name, num, cat).categorical.Keys == cat.Keys + ParserKeys(ps, name, false)
    decreases |ps|
  {
    if ps != [] {
      var v := run(ps[0]).value;
      var key := ParserKey(name, ps[0]);
      var rk, rc := ParserKeys(ps[1..], name, true), ParserKeys(ps[1..], name, false);
      if IsNumeric(ps[0]) {
        assert FillParsers(run, ps, name, num, cat) == FillParsers(run, ps[1..], name, num[key := v], cat);
        FillParsersKeys(run, ps[1..], name, num[key := v], cat);
        assert num[key := v].Keys + rk == num.Keys + ({key} + rk);
      } else {
        assert FillParsers(run, ps, name, num, cat) == FillParsers(run, ps[1..], name, num, cat[key := v]);
        FillParsersKeys(run, ps[1..], name, num, cat[key := v]);
        assert cat[key := v].Keys + rc == cat.Keys + ({key} + rc);
      }
    }
  }

  /** Whether token `name` raises on its text: a number that does not parse, an ignore token, a file token with no parsers or a parser that fails. */
  predicate TokenFails(name: string, t: Tables, text: string, env: Env)
    requires name in t.kinds
  {
    match t.kinds[name]
    case Numeric => env.io.toFloat(text).None?
    case Category => false
    case Ignore => true
    case _ =>
      name !in t.parsers
      || exists j :: 0 <= j < |t.parsers[name]| && ParserRun(t.kinds[name], text, env)(t.parsers[name][j]).Err?
  }

  /** The keys token `name` stores into the numeric map, or into the categorical one, when it does not raise. */
  function TokenKeys(name: string, t: Tables, numeric: bool): set<string>
    requires name in t.kinds
  {
    match t.kinds[name]
    case Numeric => if numeric then {name} else {}
    case Category => if numeric then {} else {name}
    case Ignore => {}
    case _ => if name in t.parsers then ParserKeys(t.parsers[name], name, numeric) else {}
  }

  /** A token raises exactly when it fails, and the exception does not depend on what was stored. */
  lemma FillTokenError(name: string, t: Tables, text: string, num: map<string, Value>, cat: map<string, Value>,
                       num': map<string, Value>, cat': map<string, Value>, env: Env)
    requires name in t.kinds
    ensures var x := FillToken(name, t, text, num, cat, env);
      && (x.error.None? <==> !TokenFails(name, t, text, env))
      && x.error == FillToken(name, t, text, num', cat', env).error
  {
    if IsFileKind(t.kinds[name]) && name in t.parsers {
      var run, ps := ParserRun(t.kinds[name], text, env), t.parsers[name];
      FillParsersErrors(run, ps, name, num, cat);
      FillParsersErrorFree(run, ps, name, num, cat, num', cat');
    }
  }

  /** A token that does not raise stores its keys. */
  lemma FillTokenKeys(name: string, t: Tables, text: string, num: map<string, Value>, cat: map<string, Value>, env: Env)
    requires name in t.kinds
    ensures var x := FillToken(name, t, text, num, cat, env);
      x.error.None? ==> (x.numerical.Keys == num.Keys + TokenKeys(name, t, true)
        && x.categorical.Keys == cat.Keys + TokenKeys(name, t, false))
  {
    if IsFileKind(t.kinds[name]) && name in t.parsers {
      var run, ps := ParserRun(t.kinds[name], text, env), t.parsers[name];
      if FillParsers(run, ps, name, num, cat).error.None? {
        FillParsersKeys(run, ps, name, num, cat);
      }
    }
  }

  /**
   * One token of `parse_job_from_dict`: the error of `FillTokenError`, the
   * keys of `FillTokenKeys`, and the values stored: a numeric token's float, a
   * category token's text verbatim.
   */
  lemma FillTokenSpec(name: string, t: Tables, text: string, num: map<string, Value>, cat: map<string, Value>,
                      num': map<string, Value>, cat': map<string, Value>, env: Env)
    requires name in t.kinds
    ensures var x := FillToken(name, t, text, num, cat, env);
      && (x.error.None? <==> !TokenFails(name, t, text, env))
      && x.error == FillToken(name, t, text, num', cat', env).error
      && (x.error.None? ==> (x.numerical.Keys == num.Keys + TokenKeys(name, t, true)
            && x.categorical.Keys == cat.Keys + TokenKeys(name, t, false)))
      && (t.kinds[name] == Numeric && x.error.None? ==> x.numerical[name] == Real(env.io.toFloat(text).value))
      && (t.kinds[name] == Category ==> x.error.None? && x.categorical[name] == Str(text))
  {
    FillTokenError(name, t, text, num, cat, num', cat', env);
    FillTokenKeys(name, t, text, num, cat, env);
  }

  /**
   * The tokens are filled until the first that fails, which raises the exception
   * it raises on its own; when none fails, each token's keys are stored.
   */
  lemma FillNamesSpec(names: seq<string>, t: Tables, input: map<string, string>,
                      num: map<string, Value>, cat: map<string, Value>, env: Env)
    requires forall i :: 0 <= i < |names| ==> names[i] in t.kinds && names[i] in input
    ensures var x := FillNames(names, t, input, num, cat, env);
      && (x.error.None? <==> forall i :: 0 <= i < |names| ==> !TokenFails(names[i], t, input[names[i]], env))
      && (x.error.Some? ==> exists i :: (0 <= i < |names| && TokenFails(names[i], t, input[names[i]], env)
            && (forall j :: 0 <= j < i ==> !TokenFails(names[j], t, input[names[j]], env))
            && x.error == FillToken(names[i], t, input[names[i]], num, cat, env).error))
  {
    FillNamesOk(names, t, input, num, cat, env);
    FillNamesFirstError(names, t, input, num, cat, env);
  }

  lemma {:induction false} FillNamesOk(names: seq<string>, t: Tables, input: map<string, string>,
                                       num: map<string, Value>, cat: map<string, Value>, env: Env)
    requires forall i :: 0 <= i < |names| ==> names[i] in t.kinds && names[i] in input
    ensures FillNames(names, t, input, num, cat, env).error.None?
      <==> forall i :: 0 <= i < |names| ==> !TokenFails(names[i], t, input[names[i]], env)
    decreases |names|
  {
    if names != [] {
      var rest := names[1..];
      assert forall j :: 1 <= j < |names| ==> rest[j - 1] == names[j];
      var y := FillToken(names[0], t, input[names[0]], num, cat, env);
      FillTokenError(names[0], t, input[names[0]], num, cat, num, cat, env);
      if y.error.None? {
        FillNamesOk(rest, t, input, y.numerical, y.categorical, env);
      }
    }
  }

  /** Token `i` of `names` is the first whose value fails. */
  predicate FailsFirstAt(names: seq<string>, t: Tables, input: map<string, string>, env: Env, i: int)
    requires forall k :: 0 <= k < |names| ==> names[k] in t.kinds && names[k] in input
  {
    && 0 <= i < |names| && TokenFails(names[i], t, input[names[i]], env)
    && (forall j :: 0 <= j < i ==> !TokenFails(names[j], t, input[names[j]], env))
  }

  /** A first failure among the later tokens, after a head that passes, is the first of all. */
  lemma FailsFirstAfterHead(names: seq<string>, t: Tables, input: map<string, string>, env: Env, i: int)
    requires names != []
    requires forall k :: 0 <= k < |names| ==> names[k] in t.kinds && names[k] in input
    requires !TokenFails(names[0], t, input[names[0]], env)
    requires FailsFirstAt(names[1..], t, input, env, i)
    ensures FailsFirstAt(names, t, input, env, i + 1)
  {
    assert forall j :: 1 <= j < |names| ==> names[1..][j - 1] == names[j];
  }

  lemma {:induction false} FillNamesFirstError(names: seq<string>, t: Tables, input: map<string, string>,
                                               num: map<string, Value>, cat: map<string, Value>, env: Env)
    requires forall i :: 0 <= i < |names| ==> names[i] in t.kinds && names[i] in input
    ensures var x := FillNames(names, t, input, num, cat, env);
      x.error.Some? ==> exists i :: (FailsFirstAt(names, t, input, env, i)
        && x.error == FillToken(names[i], t, input[names[i]], num, cat, env).error)
    decreases |names|
  {
    if names != [] {
      var rest := names[1..];
      var y := FillToken(names[0], t, input[names[0]], num, cat, env);
      FillTokenError(names[0], t, input[names[0]], num, cat, num, cat, env);
      if y.error.None? {
        FillNamesFirstError(rest, t, input, y.numerical, y.categorical, env);
        var x := FillNames(rest, t, input, y.numerical, y.categorical, env);
        if x.error.Some? {
          var i :| FailsFirstAt(rest, t, input, env, i)
            && x.error == FillToken(rest[i], t, input[rest[i]], y.numerical, y.categorical, env).error;
          FillTokenError(rest[i], t, input[rest[i]], y.numerical, y.categorical, num, cat, env);
          FailsFirstAfterHead(names, t, input, env, i);
          assert names[i + 1] == rest[i];
        }
      } else {
        assert FailsFirstAt(names, t, input, env, 0);
      }
    }
  }

  /** The keys every token of `names` stores into the numeric map, or into the categorical one. */
  function NamesKeys(names: seq<string>, t: Tables, numeric: bool): (r: set<string>)
    requires forall i :: 0 <= i < |names| ==> names[i] in t.kinds
    ensures forall i :: 0 <= i < |names| ==> TokenKeys(names[i], t, numeric) <= r
    ensures forall k :: k in r ==> exists i :: 0 <= i < |names| && k in TokenKeys(names[i], t, numeric)
    decreases |names|
  {
    if names == [] then {}
    else
      var rest := names[1..];
      assert forall j :: 1 <= j < |names| ==> rest[j - 1] == names[j];
      TokenKeys(names[0], t, numeric) + NamesKeys(rest, t, numeric)
  }

  /** When no token fails, the maps gain exactly the tokens' keys. */
  lemma {:induction false} FillNamesKeys(names: seq<string>, t: Tables, input: map<string, string>,
                                         num: map<string, Value>, cat: map<string, Value>, env: Env)
    requires forall i :: 0 <= i < |names| ==> names[i] in t.kinds && names[i] in input
    requires FillNames(names, t, input, num, cat, env).error.None?
    ensures FillNames(names, t, input, num, cat, env).numerical.Keys == num.Keys + NamesKeys(names, t, true)
    ensures FillNames(names, t, input, num, cat, env).categorical.Keys == cat.Keys + NamesKeys(names, t, false)
    decreases |names|
  {
    if names != [] {
      var rest := names[1..];
      var y := FillToken(names[0], t, input[names[0]], num, cat, env);
      FillNamesCons(names, t, input, num, cat, env);
      FillTokenKeys(names[0], t, input[names[0]], num, cat, env);
      FillNamesKeys(rest, t, input, y.numerical, y.categorical, env);
      NamesKeysCons(names, t, true);
      NamesKeysCons(names, t, false);
    }
  }

  /** A run over `names` that does not raise is the first token's step followed by the run over the rest. */
  lemma FillNamesCons(names: seq<string>, t: Tables, input: map<string, string>,
                      num: map<string, Value>, cat: map<string, Value>, env: Env)
    requires names != []
    requires forall i :: 0 <= i < |names| ==> names[i] in t.kinds && names[i] in input
    requires FillNames(names, t, input, num, cat, env).error.None?
    ensures var y := FillToken(names[0], t, input[names[0]], num, cat, env);
      && y.error.None?
      && (forall i :: 0 <= i < |names[1..]| ==> names[1..][i] in t.kinds && names[1..][i] in input)
      && FillNames(names, t, input, num, cat, env) == FillNames(names[1..], t, input, y.numerical, y.categorical, env)
  {
  }

  lemma NamesKeysCons(names: seq<string>, t: Tables, numeric: bool)
    requires names != []
    requires forall i :: 0 <= i < |names| ==> names[i] in t.kinds
    ensures NamesKeys(names, t, numeric) == TokenKeys(names[0], t, numeric) + NamesKeys(names[1..], t, numeric)
  {
  }

  /**
   * `parse_job_from_dict` on a table: it succeeds exactly when the input has
   * the table's keys and no token fails; an input with other keys changes
   * nothing; on success the maps gain exactly the tokens' keys.
   */
  lemma FromDictSpec(t: Tables, input: map<string, string>, num: map<string, Value>, cat: map<string, Value>, env: Env)
    requires WellFormed(t)
    ensures var x := FromDict(t, input, num, cat, env);
      && (x.error.None? <==> (input.Keys == t.kinds.Keys
            && forall i :: 0 <= i < |t.names| ==> !TokenFails(t.names[i], t, input[t.names[i]], env)))
      && (input.Keys != t.kinds.Keys ==> x.error.Some? && x.numerical == num && x.categorical == cat)
      && (t.kinds.Keys - input.Keys != {} ==> x.error == Some(DictMissing(t.kinds.Keys - input.Keys)))
      && (t.kinds.Keys <= input.Keys && input.Keys != t.kinds.Keys ==> x.error == Some(DictExtra(input.Keys - t.kinds.Keys)))
      && (x.error.None? ==> (x.numerical.Keys == num.Keys + NamesKeys(t.names, t, true)
            && x.categorical.Keys == cat.Keys + NamesKeys(t.names, t, false)))
  {
    if input.Keys == t.kinds.Keys {
      FillNamesSpec(t.names, t, input, num, cat, env);
      if FromDict(t, input, num, cat, env).error.None? {
        FillNamesKeys(t.names, t, input, num, cat, env);
      }
    }
  }

  /** A variable of kind `ignore` is accepted by `from_variables`, but extracting it raises `Unknown kind ignore.`. */
  lemma IgnoreVariableNotExtracted(avail: Option<map<string, FileParser>>, parserNames: Option<map<string, string>>, env: Env)
    ensures VariablesTables([("skip", "ignore")], NoTables, avail, parserNames) == Ok(Tables(["skip"], map["skip" := Ignore], map[]))
    ensures FromDict(Tables(["skip"], map["skip" := Ignore], map[]), map["skip" := "x"], map[], map[], env).error
      == Some(UnknownKind("ignore"))
  {
    var vars := [("skip", "ignore")];
    assert vars[1..] == [];
    var t := Tables(["skip"], map["skip" := Ignore], map[]);
    assert KindNamed("ignore") == Some(Ignore) && !IsFileKind(Ignore);
    assert NoTables.names + ["skip"] == ["skip"];
    assert Register(NoTables, "skip", Ignore) == t;
    assert VariableStep(NoTables, "skip", "ignore", avail, parserNames) == Ok(t);
    assert VariablesTables(vars, NoTables, avail, parserNames) == VariablesTables([], t, avail, parserNames);
    var input := map["skip" := "x"];
    assert t.kinds.Keys == {"skip"} == input.Keys;
    assert ["skip"][1..] == [];
    assert FillToken("skip", t, "x", map[], map[], env).error == Some(UnknownKind("ignore"));
    assert FromDict(t, input, map[], map[], env) == FillNames(["skip"], t, input, map[], map[], env);
  }

  /** The listing loop of `parse_job_from_dict`: parse each line, in order, stopping at the first exception. */
  method ParseListing(parse: string -> Result<Value, string>, lines: seq<string>) returns (r: Result<seq<Value>, string>)
    ensures r == ParseEach(parse, lines)
  {
    var values: seq<Value> := [];
    var i := 0;
    while i < |lines|
      invariant 0 <= i <= |lines|
      invariant ParseEach(parse, lines[..i]) == Ok(values)
    {
      var v := parse(lines[i]);
      if v.Err? {
        ParseEachFails(parse, lines, i);
        return Err(v.error);
      }
      ParseEachStep(parse, lines, i);
      values := values + [v.value];
      i := i + 1;
    }
    ParseEachWhole(parse, lines);
    return Ok(values);
  }

  /** The value one parser gives for a file token, reading a listing line by line for `file_list`. */
  method ParseParser(p: FileParser, kind: Kind, path: string, env: Env) returns (r: Result<Value, string>)
    ensures r == FileValue(p, kind, path, env)
  {
    if kind == GzipFile {
      r := ParseFile(p, path, true, env.io);
    } else if kind == FileList {
      r := ParseListingFile(p, path, env);
    } else {
      r := ParseFile(p, path, false, env.io);
    }
  }

  /** The values of a `file_list` token: read the listing, then parse each of its lines. */
  method ParseListingFile(p: FileParser, path: string, env: Env) returns (r: Result<Value, string>)
    ensures r == ListingValue(p, path, env)
  {
    var read := env.readLines(path);
    match read
    case Err(e) =>
      r := Err(e);
    case Ok(lines) =>
      var vs := ParseListing(LineParser(p, env.io), lines);
      r := ListingOf(vs);
  }

  // ---------------------------------------------------------------------
  // align_and_indicate_differences

  /** What a regex engine gives: the groups of a match, None for no match, or the `re.error` the pattern raises. */
  type Outcome = Result<Option<map<string, string>>, string>

  /** The regex engines and the sequence matcher the diagnostic relies on, taken as parameters. */
  datatype Engines = Engines(
    /** `re.match(pattern, text).groupdict()`. */
    exact: (string, string) -> Outcome,
    /** `regex.fullmatch(pattern, text).groupdict()` for a fuzzy pattern. */
    fuzzy: (string, string) -> Outcome,
    opcodes: JobSpecDiagnostics.Matcher)

  /** The text whose presence makes the diagnostic rebuild the regex with named ignore groups. */
  const IGNORE_SUFFIX := "ignore}"

  /** `(?b)(?:raw){e}`: best match of the job regex with any number of errors. */
  function FuzzyPattern(raw: Option<string>): string
  {
    "(?b)(?:" + ShowOptional(raw) + "){e}"
  }

  /**
   * The diagnostic for a spec `s` (its unnamed ignores already renamed) and
   * the regex `raw`: an exact match when asked for, else the fuzzy match;
   * a pattern an engine refuses raises its `re.error`, and no match at all
   * is the source's placeholder ValueError.
   */
  function AlignText(s: string, raw: Option<string>, kinds: map<string, Kind>, cmd: string, tryExact: bool,
                     eng: Engines, toFloat: FloatParser): (r: Result<string, SpecError>)
    ensures tryExact && raw.None? ==> r == Err(NoneRegex)
    ensures tryExact && raw.Some? && eng.exact(raw.value, cmd).Err? ==> r == Err(BadPattern(eng.exact(raw.value, cmd).error))
    ensures !(tryExact && raw.None?) && (tryExact ==> eng.exact(raw.value, cmd) == Ok(None))
      ==> var f := eng.fuzzy(FuzzyPattern(raw), cmd);
        && (f.Err? ==> r == Err(BadPattern(f.error)))
        && (f == Ok(None) ==> r == Err(DiagnosticFailed("TODO: handle no matches")))
  {
    if tryExact && raw.None? then Err(NoneRegex)
    else
      var exact := if tryExact then eng.exact(raw.value, cmd) else Ok(None);
      if exact.Err? then Err(BadPattern(exact.error))
      else
        var m := if exact.value.Some? then exact else eng.fuzzy(FuzzyPattern(raw), cmd);
        if m.Err? then Err(BadPattern(m.error))
        else if m.value.None? then Err(DiagnosticFailed("TODO: handle no matches"))
        else
          JobSpecDiagnostics.DiagnosticText(JobSpecDiagnostics.Pieces(Tokenize(s)), m.value.value, cmd,
            JobSpecDiagnostics.Header(tryExact, exact.value.Some?), eng.opcodes, kinds, toFloat)
  }

  /** The outcome of the diagnostic and the token table it leaves. */
  datatype Aligned = Aligned(result: Result<string, SpecError>, tables: Tables)

  /**
   * `align_and_indicate_differences` on a spec, its regex and its token
   * table. A spec mentioning `ignore}` is compiled again in named-ignore mode
   * with the parser tables `avail` and `parserNames`, which updates the token
   * table, and its unnamed ignores are renamed to match.
   */
  function Align(spec: Option<string>, raw: Option<string>, t: Tables, cmd: string, tryExact: bool,
                 avail: Option<map<string, FileParser>>, parserNames: Option<map<string, string>>,
                 eng: Engines, toFloat: FloatParser): (a: Aligned)
    ensures spec.None? ==> a == Aligned(Err(NoneSpec), t)
    ensures spec.Some? && !Contains(spec.value, IGNORE_SUFFIX) ==>
      a == Aligned(AlignText(spec.value, raw, t.kinds, cmd, tryExact, eng, toFloat), t)
  {
    if spec.None? then Aligned(Err(NoneSpec), t)
    else if !Contains(spec.value, IGNORE_SUFFIX) then Aligned(AlignText(spec.value, raw, t.kinds, cmd, tryExact, eng, toFloat), t)
    else
      var b := RewriteLoop(spec.value, t, 0, true, avail, parserNames);
      if b.result.Err? then Aligned(Err(b.result.error), b.tables)
      else
        var s := JobSpecDiagnostics.RenameIgnores(spec.value, 0);
        Aligned(AlignText(s, Some(b.result.value), b.tables.kinds, cmd, tryExact, eng, toFloat), b.tables)
  }

  /** The regex of a spec with every placeholder a named group, unnamed ignores numbered from 0. */
  function NamedRegex(spec: string): string
  {
    "^" + Pattern(Tokenize(spec), 0, true) + "$"
  }

  /** A spec with a file placeholder and no other error fails without tables at its first file placeholder. */
  lemma {:induction false} FirstErrorWithoutTables(segs: seq<Segment>, avail: Option<map<string, FileParser>>,
                                                   parserNames: Option<map<string, string>>, i: nat)
    requires FirstError(segs, avail, parserNames).None?
    requires i < |segs| && FileToken(segs[i])
    ensures FirstError(segs, None, None) == Some(MissingParserTable)
    decreases |segs|
  {
    if !FileToken(segs[0]) {
      assert segs[1..][i - 1] == segs[i];
      FirstErrorWithoutTables(segs[1..], avail, parserNames, i - 1);
    }
  }

  /** Compiling a spec, in either mode and on any table, fails exactly at the first placeholder that raises. */
  lemma CompileError(spec: string, t: Tables, named: bool,
                     avail: Option<map<string, FileParser>>, parserNames: Option<map<string, string>>)
    requires BraceFreeNames(Tokenize(spec))
    ensures var r := RewriteLoop(spec, t, 0, named, avail, parserNames).result;
      && (r.Err? <==> FirstError(Tokenize(spec), avail, parserNames).Some?)
      && (r.Err? ==> r.error == FirstError(Tokenize(spec), avail, parserNames).value)
  {
    RewriteIsOnePass(spec, t, named, avail, parserNames);
    CompileSegsError(Tokenize(spec), t, 0, named, avail, parserNames);
  }

  /** A successful compile gives the anchored pattern of the spec. */
  lemma CompilePattern(spec: string, t: Tables, named: bool,
                       avail: Option<map<string, FileParser>>, parserNames: Option<map<string, string>>)
    requires BraceFreeNames(Tokenize(spec))
    ensures var r := RewriteLoop(spec, t, 0, named, avail, parserNames).result;
      r.Ok? ==> r.value == "^" + Pattern(Tokenize(spec), 0, named) + "$"
  {
    var segs := Tokenize(spec);
    var c := CompileSegs(segs, t, 0, named, avail, parserNames);
    var b := RewriteLoop(spec, t, 0, named, avail, parserNames);
    RewriteIsOnePass(spec, t, named, avail, parserNames);
    assert b == Anchor("", c);
    CompileSegsPattern(segs, t, 0, named, avail, parserNames);
    if c.result.Ok? {
      var body := c.result.value;
      assert body == Pattern(segs, 0, named);
      assert b.result == Ok("^" + "" + body + "$");
      assert "^" + "" + body == "^" + body;
    }
  }

  /**
   * As written, the rebuild runs without parser tables: for a spec the
   * constructor accepted that mentions `ignore}` and has a file placeholder,
   * the diagnostic raises the TypeError instead of describing the mismatch.
   */
  lemma AlignWithoutTablesFails(spec: string, t: Tables, t': Tables, raw: Option<string>, cmd: string, tryExact: bool,
                                avail: Option<map<string, FileParser>>, parserNames: Option<map<string, string>>,
                                eng: Engines, toFloat: FloatParser, i: nat)
    requires BraceFreeNames(Tokenize(spec)) && Contains(spec, IGNORE_SUFFIX)
    requires RewriteLoop(spec, t, 0, false, avail, parserNames).result.Ok?
    requires i < |Tokenize(spec)| && FileToken(Tokenize(spec)[i])
    ensures Align(Some(spec), raw, t', cmd, tryExact, None, None, eng, toFloat).result == Err(MissingParserTable)
  {
    CompileError(spec, t, false, avail, parserNames);
    CompileError(spec, t', true, None, None);
    FirstErrorWithoutTables(Tokenize(spec), avail, parserNames, i);
  }

  /**
   * With the parser tables the spec was compiled with, the rebuild of a spec
   * the constructor accepted always succeeds: the diagnostic is the one for
   * the named-group regex and the renamed spec.
   */
  lemma AlignWithTables(spec: string, t: Tables, t': Tables, raw: Option<string>, cmd: string, tryExact: bool,
                        avail: Option<map<string, FileParser>>, parserNames: Option<map<string, string>>,
                        eng: Engines, toFloat: FloatParser)
    requires BraceFreeNames(Tokenize(spec)) && Contains(spec, IGNORE_SUFFIX)
    requires RewriteLoop(spec, t, 0, false, avail, parserNames).result.Ok?
    ensures var b := RewriteLoop(spec, t', 0, true, avail, parserNames);
      && b.result == Ok(NamedRegex(spec))
      && Align(Some(spec), raw, t', cmd, tryExact, avail, parserNames, eng, toFloat)
        == Aligned(AlignText(JobSpecDiagnostics.RenameIgnores(spec, 0), Some(NamedRegex(spec)), b.tables.kinds,
             cmd, tryExact, eng, toFloat), b.tables)
  {
    CompileError(spec, t, false, avail, parserNames);
    CompileError(spec, t', true, avail, parserNames);
    CompilePattern(spec, t', true, avail, parserNames);
  }

  // ---------------------------------------------------------------------
  // A spec with a file placeholder and an unnamed ignore

  /** The smallest spec on which the diagnostic's rebuild without parser tables raises. */
  const MIXED_SPEC := "{a:file}{ignore}"
  /** The parser the file placeholder `a` of the mixed spec is assigned. */
  const LINES_PARSER := FileParser("lines", "NUMERICAL", FileLines)
  /** The tokenized mixed spec. */
  const MIXED_SEGS := [Literal(""), Placeholder(Some("a"), "file"), Literal(""), Placeholder(None, "ignore"), Literal("")]

  /** The first match of the mixed spec is its file placeholder. */
  lemma FileMatch()
    ensures MatchAt(MIXED_SPEC, 0) == Some(Token(0, 8, Some("a"), "file"))
  {
    MixedFirstBrace(MIXED_SPEC);
    FileBody("a:file");
    MatchAtClosedBy(MIXED_SPEC, 0, 7, "a:file");
  }

  /** The first placeholder of the mixed spec closes at index 7 around `a:file`. */
  lemma MixedFirstBrace(s: string)
    requires s == MIXED_SPEC
    ensures s[0] == '{' && CharFrom(s, 1, '}') == Some(7) && s[1..7] == "a:file"
  {
    assert CharFrom(s, 1, '}') == Some(7);
  }

  /** `a:file` splits into the name `a` and the kind `file`. */
  lemma FileBody(body: string)
    requires body == "a:file"
    ensures IsKindGroup(body) && SplitBody(body) == (Some("a"), "file")
  {
    assert IndexOf(body, ':') == Some(1);
    assert body[..1] == "a" && body[2..] == "file";
  }

  /** `{ignore}` is one unnamed ignore placeholder. */
  lemma IgnoreMatch()
    ensures MatchAt("{ignore}", 0) == Some(Token(0, 8, None, "ignore"))
  {
    IgnoreBrace("{ignore}");
    IgnoreBody("ignore");
    MatchAtClosedBy("{ignore}", 0, 7, "ignore");
  }

  /** The placeholder `{ignore}` closes at index 7 around `ignore`. */
  lemma IgnoreBrace(s: string)
    requires s == "{ignore}"
    ensures s[0] == '{' && CharFrom(s, 1, '}') == Some(7) && s[1..7] == "ignore"
  {
    assert s[1] == 'i' && s[2] == 'g' && s[3] == 'n' && s[4] == 'o' && s[5] == 'r' && s[6] == 'e' && s[7] == '}';
    assert CharFrom(s, 7, '}') == Some(7);
    assert CharFrom(s, 1, '}') == CharFrom(s, 2, '}') == CharFrom(s, 3, '}') == CharFrom(s, 4, '}')
      == CharFrom(s, 5, '}') == CharFrom(s, 6, '}') == CharFrom(s, 7, '}');
  }

  /** `ignore` has no name part. */
  lemma IgnoreBody(body: string)
    requires body == "ignore"
    ensures IsKindGroup(body) && SplitBody(body) == (None, "ignore")
  {
    assert IndexOf(body, ':') == None;
  }

  /** `{ignore}` tokenizes to that placeholder between two empty literals. */
  lemma IgnoreTokenized(s: string)
    requires s == "{ignore}"
    ensures Tokenize(s) == [Literal(""), Placeholder(None, "ignore"), Literal("")]
  {
    IgnoreMatch();
    assert FindToken(s) == Some(Token(0, 8, None, "ignore"));
    TokenizeUnfolds(s);
    assert s[8..] == "" && s[..0] == "";
    assert FindToken("") == None;
  }

  /** The leftmost match of the mixed spec and the text around it. */
  lemma MixedFirst(s: string)
    requires s == MIXED_SPEC
    ensures FindToken(s) == Some(Token(0, 8, Some("a"), "file"))
    ensures s[..0] == "" && s[8..] == "{ignore}"
  {
    FileMatch();
    FindTokenUnique(s, Some(Token(0, 8, Some("a"), "file")));
  }

  /** The mixed spec tokenizes to `MIXED_SEGS`. */
  lemma MixedTokenized(s: string)
    requires s == MIXED_SPEC
    ensures Tokenize(s) == MIXED_SEGS
  {
    MixedFirst(s);
    TokenizeUnfolds(s);
    var rest := s[8..];
    IgnoreTokenized(rest);
    MixedSegsJoin([Literal("")], [Placeholder(Some("a"), "file")], [Literal(""), Placeholder(None, "ignore"), Literal("")]);
  }

  /** `MIXED_SEGS` is its first literal, its file placeholder and the tokenized `{ignore}`. */
  lemma MixedSegsJoin(a: seq<Segment>, b: seq<Segment>, c: seq<Segment>)
    requires a == [Literal("")] && b == [Placeholder(Some("a"), "file")]
    requires c == [Literal(""), Placeholder(None, "ignore"), Literal("")]
    ensures a + (b + c) == MIXED_SEGS
  {
  }

  /** The file placeholder's parser list resolves to the one parser. */
  lemma MixedResolves()
    ensures ResolveParsers("a", Some(map["lines" := LINES_PARSER]), Some(map["a" := "lines"])) == Ok([LINES_PARSER])
  {
    assert IndexOf("lines", ',') == None;
    assert Split("lines", ',') == ["lines"];
    assert ["lines"][1..] == [];
    assert LookupAll([], map["lines" := LINES_PARSER]) == Ok([]);
    assert [LINES_PARSER] + [] == [LINES_PARSER];
  }

  /** An unnamed ignore placeholder never raises while compiling. */
  lemma IgnoreTailNoError(tail: seq<Segment>, avail: Option<map<string, FileParser>>, parserNames: Option<map<string, string>>)
    requires tail == [Literal(""), Placeholder(None, "ignore"), Literal("")]
    ensures FirstError(tail, avail, parserNames).None?
  {
    assert tail[1..][1..] == [Literal("")] && tail[1..][1..][1..] == [];
    assert FirstError(tail[1..][1..], avail, parserNames).None?;
  }

  /** No placeholder of the mixed spec raises with its parser table, and the second segment is a file placeholder. */
  lemma MixedNoError(segs: seq<Segment>, avail: Option<map<string, FileParser>>, parserNames: Option<map<string, string>>)
    requires segs == MIXED_SEGS && avail == Some(map["lines" := LINES_PARSER]) && parserNames == Some(map["a" := "lines"])
    ensures FirstError(segs, avail, parserNames).None?
    ensures BraceFreeNames(segs) && FileToken(segs[1])
  {
    MixedResolves();
    IgnoreTailNoError(segs[2..], avail, parserNames);
    assert segs[1..][1..] == segs[2..];
  }

  /** The mixed spec mentions `ignore}`, so the diagnostic rebuilds its regex. */
  lemma MixedMentionsIgnore(spec: string)
    requires spec == MIXED_SPEC
    ensures Contains(spec, IGNORE_SUFFIX)
  {
    assert OccursAt(spec, IGNORE_SUFFIX, 9);
  }

  /**
   * The mixed spec compiles with its parser table, yet the diagnostic as
   * written, which rebuilds it without tables, raises the TypeError.
   */
  lemma MixedSpecWithoutTables(spec: string, raw: Option<string>, t: Tables, cmd: string, tryExact: bool, eng: Engines, toFloat: FloatParser)
    requires spec == MIXED_SPEC
    ensures RewriteLoop(spec, NoTables, 0, false, Some(map["lines" := LINES_PARSER]), Some(map["a" := "lines"])).result.Ok?
    ensures Align(Some(spec), raw, t, cmd, tryExact, None, None, eng, toFloat).result == Err(MissingParserTable)
  {
    var avail, pn := Some(map["lines" := LINES_PARSER]), Some(map["a" := "lines"]);
    MixedTokenized(spec);
    MixedNoError(Tokenize(spec), avail, pn);
    MixedMentionsIgnore(spec);
    CompileError(spec, NoTables, false, avail, pn);
    AlignWithoutTablesFails(spec, NoTables, t, raw, cmd, tryExact, avail, pn, eng, toFloat, 1);
  }

  // ---------------------------------------------------------------------
  // The class

  class JobSpec {
    /** `job_spec_str`. */
    var specStr: Option<string>
    /** The keys of `token_kinds` in insertion order. */
    var names: seq<string>
    /** `token_kinds`. */
    var kinds: map<string, Kind>
    /** `file_parsers`. */
    var fileParsers: map<string, seq<FileParser>>
    /** `job_regex`. */
    var jobRegex: Option<string>

    function Table(): Tables
      reads this
    {
      Tables(names, kinds, fileParsers)
    }

    predicate Valid()
      reads this
    {
      WellFormed(Table())
    }

    /** The object before `build_regex` runs: the spec kept, the tables empty, no regex. */
    constructor Blank(spec: Option<string>)
      ensures specStr == spec && Table() == NoTables && jobRegex.None? && Valid()
    {
      specStr := spec;
      names := [];
      kinds := map[];
      fileParsers := map[];
      jobRegex := None;
    }

    /** `update_file_parsers`: on success the token's parser list is (re)set; otherwise the error. */
    method UpdateFileParsers(name: string, avail: Option<map<string, FileParser>>, parserNames: Option<map<string, string>>)
      returns (err: Option<SpecError>)
      modifies this
      ensures var r := ResolveParsers(name, avail, parserNames);
        && (r.Ok? ==> err.None? && fileParsers == old(fileParsers)[name := r.value])
        && (r.Err? ==> err == Some(r.error) && fileParsers == old(fileParsers))
      ensures specStr == old(specStr) && names == old(names) && kinds == old(kinds) && jobRegex == old(jobRegex)
    {
      match ResolveParsers(name, avail, parserNames) {
        case Ok(ps) =>
          fileParsers := fileParsers[name := ps];
          err := None;
        case Err(e) =>
          err := Some(e);
      }
    }

    /**
     * The body of the `build_regex` loop for one match with groups `name` and
     * `kind` and text `text`: check the kind; an ignore placeholder is only
     * replaced (named after the counter when `named` and it has no name);
     * any other placeholder needs a name, is registered, and a file
     * placeholder gets its parsers. Returns the replacement and the counter,
     * or the exception.
     */
    method HandleMatch(name: Option<string>, kind: string, text: string, ind: nat, named: bool,
                       avail: Option<map<string, FileParser>>, parserNames: Option<map<string, string>>)
      returns (repl: string, ind2: nat, err: Option<SpecError>)
      requires text == TokenText(name, kind)
      modifies this
      ensures var step := TokenStep(name, kind, old(Table()), ind, named, avail, parserNames);
        && Table() == step.tables
        && (step.Stop? ==> err == Some(step.error))
        && (step.Next? ==> err.None? && repl == step.repl && ind2 == step.ind)
      ensures specStr == old(specStr) && jobRegex == old(jobRegex)
    {
      repl, ind2, err := "", ind, None;
      var k := KindNamed(kind);
      if k.None? {
        err := Some(UnknownVariableType(kind, name));
        return;
      }
      if k.value == Ignore {
        if named {
          var n := name;
          if n.None? {
            n := Some(IgnoreName(ind));
            ind2 := ind + 1;
          }
          repl := Group(n.value, Fragment(Ignore));
        } else {
          repl := Fragment(Ignore);
        }
        return;
      }
      if name.None? {
        err := Some(NoName(text));
        return;
      }
      var n := name.value;
      if n !in kinds {
        names := names + [n];
      }
      kinds := kinds[n := k.value];
      repl := Group(n, Fragment(k.value));
      if IsFileKind(k.value) {
        err := UpdateFileParsers(n, avail, parserNames);
      }
    }

    /**
     * `build_regex`: the loop of the source, proved to compute `RewriteLoop`
     * from the spec and the tables as they were, leaving the tables it
     * returns, which stay well formed.
     */
    method BuildRegex(avail: Option<map<string, FileParser>>, parserNames: Option<map<string, string>>, named: bool)
      returns (r: Result<string, SpecError>)
      requires Valid()
      modifies this
      ensures Valid()
      ensures specStr == old(specStr) && jobRegex == old(jobRegex)
      ensures old(specStr).None? ==> r == Err(NoneSpec) && Table() == old(Table())
      ensures old(specStr).Some? ==>
        var b := RewriteLoop(old(specStr).value, old(Table()), 0, named, avail, parserNames);
        r == b.result && Table() == b.tables
    {
      if specStr.None? {
        return Err(NoneSpec);
      }
      var cur := specStr.value;
      var ind: nat := 0;
      ghost var goal := RewriteLoop(cur, Table(), 0, named, avail, parserNames);
      while true
        invariant Valid() && specStr == old(specStr) && jobRegex == old(jobRegex)
        invariant RewriteLoop(cur, Table(), ind, named, avail, parserNames) == goal
        decreases Count(cur, '}')
      {
        var m := FindToken(cur);
        if m.None? {
          return Ok("^" + cur + "$");
        }
        var t := m.value;
        TokenStepWellFormed(t.name, t.kind, Table(), ind, named, avail, parserNames);
        RewriteUnfold(cur, t, Table(), ind, named, avail, parserNames);
        MatchAtText(cur, t.start);
        var text := cur[t.start..t.end];
        var repl, ind2, err := HandleMatch(t.name, t.kind, text, ind, named, avail, parserNames);
        if err.Some? {
          return Err(err.value);
        }
        cur, ind := ReplaceFirst(cur, text, repl), ind2;
      }
    }

    /** `JobSpec(job_spec, file_parsers, available_parsers)`: with a spec, the regex is built at once. */
    static method New(spec: Option<string>, parserNames: Option<map<string, string>>,
                      avail: Option<map<string, FileParser>>) returns (r: Result<JobSpec, SpecError>)
      ensures r.Ok? ==> fresh(r.value) && r.value.Valid() && r.value.specStr == spec
      ensures spec.None? ==> r.Ok? && r.value.jobRegex.None? && r.value.Table() == NoTables
      ensures spec.Some? ==>
        var b := RewriteLoop(spec.value, NoTables, 0, false, avail, parserNames);
        && (r.Ok? <==> b.result.Ok?)
        && (r.Err? ==> r.error == b.result.error)
        && (r.Ok? ==> r.value.jobRegex == Some(b.result.value) && r.value.Table() == b.tables)
    {
      var js := new JobSpec.Blank(spec);
      if spec.Some? {
        var re := js.BuildRegex(avail, parserNames, false);
        if re.Err? {
          return Err(re.error);
        }
        js.jobRegex := Some(re.value);
      }
      return Ok(js);
    }

    /** `JobSpec.from_variables`: no spec and no regex, the table filled from the variables. */
    static method FromVariables(vars: seq<(string, string)>, parserNames: Option<map<string, string>>,
                                avail: Option<map<string, FileParser>>) returns (r: Result<JobSpec, SpecError>)
      ensures var v := VariablesTables(vars, NoTables, avail, parserNames);
        && (r.Ok? <==> v.Ok?)
        && (r.Err? ==> r.error == v.error)
        && (r.Ok? ==> fresh(r.value) && r.value.specStr.None? && r.value.jobRegex.None? && r.value.Table() == v.value)
    {
      var js := new JobSpec.Blank(None);
      var i := 0;
      while i < |vars|
        invariant 0 <= i <= |vars|
        invariant js.specStr.None? && js.jobRegex.None?
        invariant VariablesTables(vars[i..], js.Table(), avail, parserNames) == VariablesTables(vars, NoTables, avail, parserNames)
      {
        var name := vars[i].0;
        var kind := vars[i].1;
        assert vars[i..][0] == vars[i] && vars[i..][1..] == vars[i + 1..];
        var k := KindNamed(kind);
        if k.None? {
          return Err(UnknownVariableType(kind, Some(name)));
        }
        if name !in js.kinds {
          js.names := js.names + [name];
        }
        js.kinds := js.kinds[name := k.value];
        if IsFileKind(k.value) {
          var e := js.UpdateFileParsers(name, avail, parserNames);
          if e.Some? {
            return Err(e.value);
          }
        }
        i := i + 1;
      }
      return Ok(js);
    }

    /**
     * `validate_variables`: None when the variables name exactly the tokens
     * of the table, each with its recorded kind; otherwise the message for
     * the key mismatch, or for the first variable with another kind.
     */
    function ValidateVariables(vars: seq<(string, string)>): (r: Option<string>)
      reads this
      ensures r.None? <==> (VarKeys(vars) == kinds.Keys
        && forall i :: 0 <= i < |vars| ==> vars[i].0 in kinds && NameOf(kinds[vars[i].0]) == vars[i].1)
      ensures VarKeys(vars) != kinds.Keys ==> r == Some(KeyMismatchMessage(names, vars))
    {
      if VarKeys(vars) != kinds.Keys then Some(KeyMismatchMessage(names, vars))
      else
        assert forall i :: 0 <= i < |vars| ==> vars[i].0 in VarKeys(vars);
        FirstKindMismatch(vars, kinds)
    }

    /** One token of the table stored into `job`, or the exception it raises. */
    method FillTokenInto(name: string, text: string, job: JobData, env: Env) returns (err: Option<SpecError>)
      requires name in kinds
      modifies job
      ensures var x := FillToken(name, Table(), text, old(job.numerical), old(job.categorical), env);
        job.numerical == x.numerical && job.categorical == x.categorical && err == x.error
      ensures job.jobName == old(job.jobName) && job.slurmId == old(job.slurmId) && job.cmd == old(job.cmd)
        && job.memory == old(job.memory) && job.runtime == old(job.runtime)
    {
      var kind := kinds[name];
      if kind == Numeric {
        var x := env.io.toFloat(text);
        if x.None? {
          return Some(NotANumber(text));
        }
        job.numerical := job.numerical[name := Real(x.value)];
        return None;
      } else if kind == Category {
        job.categorical := job.categorical[name := Str(text)];
        return None;
      } else if kind == Ignore {
        return Some(UnknownKind(NameOf(Ignore)));
      }
      if name !in fileParsers {
        return Some(MissingFileParsers(name));
      }
      var ps := fileParsers[name];
      ghost var run := ParserRun(kind, text, env);
      var j := 0;
      while j < |ps|
        invariant 0 <= j <= |ps|
        invariant FillParsers(run, ps[j..], name, job.numerical, job.categorical)
          == FillParsers(run, ps, name, old(job.numerical), old(job.categorical))
        invariant job.jobName == old(job.jobName) && job.slurmId == old(job.slurmId) && job.cmd == old(job.cmd)
          && job.memory == old(job.memory) && job.runtime == old(job.runtime)
      {
        assert ps[j..][0] == ps[j] && ps[j..][1..] == ps[j + 1..];
        var v := ParseParser(ps[j], kind, text, env);
        assert v == run(ps[j]);
        if v.Err? {
          return Some(ParserFailed(v.error));
        }
        if IsNumeric(ps[j]) {
          job.numerical := job.numerical[ParserKey(name, ps[j]) := v.value];
        } else {
          job.categorical := job.categorical[ParserKey(name, ps[j]) := v.value];
        }
        j := j + 1;
      }
      return None;
    }

    /**
     * `parse_job_from_dict`: the key checks, then each token in insertion
     * order; `job` holds what was stored before any exception.
     */
    method ParseJobFromDict(input: map<string, string>, job: JobData, env: Env) returns (err: Option<SpecError>)
      requires Valid()
      modifies job
      ensures var x := FromDict(Table(), input, old(job.numerical), old(job.categorical), env);
        job.numerical == x.numerical && job.categorical == x.categorical && err == x.error
      ensures job.jobName == old(job.jobName) && job.slurmId == old(job.slurmId) && job.cmd == old(job.cmd)
        && job.memory == old(job.memory) && job.runtime == old(job.runtime)
    {
      var missing := kinds.Keys - input.Keys;
      if missing != {} {
        return Some(DictMissing(missing));
      }
      var extra := input.Keys - kinds.Keys;
      if extra != {} {
        return Some(DictExtra(extra));
      }
      var i := 0;
      while i < |names|
        invariant 0 <= i <= |names|
        invariant FillNames(names[i..], Table(), input, job.numerical, job.categorical, env)
          == FillNames(names, Table(), input, old(job.numerical), old(job.categorical), env)
        invariant job.jobName == old(job.jobName) && job.slurmId == old(job.slurmId) && job.cmd == old(job.cmd)
          && job.memory == old(job.memory) && job.runtime == old(job.runtime)
      {
        assert names[i..][0] == names[i] && names[i..][1..] == names[i + 1..];
        var e := FillTokenInto(names[i], input[names[i]], job, env);
        if e.Some? {
          return e;
        }
        i := i + 1;
      }
      return None;
    }

    /**
     * `align_and_indicate_differences`, with the parser tables of the
     * named-ignore rebuild as parameters: the source passes none.
     */
    method AlignAndIndicateDifferences(cmd: string, tryExact: bool,
                                       avail: Option<map<string, FileParser>>, parserNames: Option<map<string, string>>,
                                       eng: Engines, toFloat: FloatParser) returns (r: Result<string, SpecError>)
      requires Valid()
      modifies this
      ensures Valid() && specStr == old(specStr) && jobRegex == old(jobRegex)
      ensures var a := Align(old(specStr), old(jobRegex), old(Table()), cmd, tryExact, avail, parserNames, eng, toFloat);
        r == a.result && Table() == a.tables
    {
      if specStr.None? {
        return Err(NoneSpec);
      }
      var spec := specStr.value;
      var raw := jobRegex;
      if Find(spec, IGNORE_SUFFIX).Some? {
        var rebuilt := BuildRegex(avail, parserNames, true);
        if rebuilt.Err? {
          return Err(rebuilt.error);
        }
        raw := Some(rebuilt.value);
        spec := JobSpecDiagnostics.NameIgnores(spec);
      }
      ghost var expected := AlignText(spec, raw, kinds, cmd, tryExact, eng, toFloat);
      var exact: Outcome := Ok(None);
      if tryExact {
        if raw.None? {
          return Err(NoneRegex);
        }
        exact := eng.exact(raw.value, cmd);
        if exact.Err? {
          return Err(BadPattern(exact.error));
        }
      }
      var m := exact;
      if m.value.None? {
        m := eng.fuzzy(FuzzyPattern(raw), cmd);
      }
      if m.Err? {
        return Err(BadPattern(m.error));
      }
      if m.value.None? {
        return Err(DiagnosticFailed("TODO: handle no matches"));
      }
      var header := JobSpecDiagnostics.Header(tryExact, exact.value.Some?);
      r := JobSpecDiagnostics.Diagnose(JobSpecDiagnostics.Pieces(Tokenize(spec)), m.value.value, cmd, header, eng.opcodes, kinds, toFloat);
      assert r == expected;
    }

    /**
     * `parse_job_cmd`: match the command against the job regex and extract
     * the features from the groups; a command that does not match raises
     * with the diagnostic, computed with the parser tables given.
     */
    method ParseJobCmd(job: JobData, env: Env,
                       avail: Option<map<string, FileParser>>, parserNames: Option<map<string, string>>,
                       eng: Engines) returns (err: Option<SpecError>)
      requires Valid()
      modifies this, job
      ensures Valid() && specStr == old(specStr) && jobRegex == old(jobRegex)
      ensures job.jobName == old(job.jobName) && job.slurmId == old(job.slurmId) && job.cmd == old(job.cmd)
        && job.memory == old(job.memory) && job.runtime == old(job.runtime)
      ensures old(jobRegex).None? ==>
        (err == Some(NoJobSpecEntry(old(job.jobName)))
         && Table() == old(Table()) && job.numerical == old(job.numerical) && job.categorical == old(job.categorical))
      ensures old(jobRegex).Some? && old(job.cmd).None? ==>
        (err == Some(CmdNotString)
         && Table() == old(Table()) && job.numerical == old(job.numerical) && job.categorical == old(job.categorical))
      ensures old(jobRegex).Some? && old(job.cmd).Some? && eng.exact(old(jobRegex).value, old(job.cmd).value).Err? ==>
        (err == Some(BadPattern(eng.exact(old(jobRegex).value, old(job.cmd).value).error))
         && Table() == old(Table()) && job.numerical == old(job.numerical) && job.categorical == old(job.categorical))
      ensures old(jobRegex).Some? && old(job.cmd).Some? && eng.exact(old(jobRegex).value, old(job.cmd).value) == Ok(None) ==>
        var a := Align(old(specStr), old(jobRegex), old(Table()), old(job.cmd).value, false, avail, parserNames, eng, env.io.toFloat);
        && Table() == a.tables && job.numerical == old(job.numerical) && job.categorical == old(job.categorical)
        && err == Some(if a.result.Ok? then DoesNotMatch(old(job.jobName), a.result.value) else a.result.error)
      ensures (old(jobRegex).Some? && old(job.cmd).Some? && eng.exact(old(jobRegex).value, old(job.cmd).value).Ok?
        && eng.exact(old(jobRegex).value, old(job.cmd).value).value.Some?) ==>
        var x := FromDict(old(Table()), eng.exact(old(jobRegex).value, old(job.cmd).value).value.value,
          old(job.numerical), old(job.categorical), env);
        && Table() == old(Table()) && job.numerical == x.numerical && job.categorical == x.categorical && err == x.error
    {
      if jobRegex.None? {
        return Some(NoJobSpecEntry(job.jobName));
      }
      if job.cmd.None? {
        return Some(CmdNotString);
      }
      var cmd := job.cmd.value;
      var m := eng.exact(jobRegex.value, cmd);
      if m.Err? {
        return Some(BadPattern(m.error));
      }
      if m.value.None? {
        var result := AlignAndIndicateDifferences(cmd, false, avail, parserNames, eng, env.io.toFloat);
        if result.Err? {
          return Some(result.error);
        }
        return Some(DoesNotMatch(job.jobName, result.value));
      }
      err := ParseJobFromDict(m.value.value, job, env);
    }
  }

  /** Variables with distinct names that `from_variables` accepts pass `validate_variables` on the object it built. */
  lemma FromVariablesValidates(vars: seq<(string, string)>, js: JobSpec,
                               avail: Option<map<string, FileParser>>, parserNames: Option<map<string, string>>)
    requires DistinctKeys(vars)
    requires VariablesTables(vars, NoTables, avail, parserNames) == Ok(js.Table())
    ensures js.ValidateVariables(vars).None?
  {
    VariablesTablesKeys(vars, NoTables, avail, parserNames);
    VariablesTablesKinds(vars, NoTables, avail, parserNames);
  }
}
