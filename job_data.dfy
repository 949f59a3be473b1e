/**
 * `job_data.py`: the `JobData` record of one slurm job, its equality helper
 * `array_safe_eq`, and the two ways a record is built from stored data
 * (`from_dataset`) and from a Snakemake benchmark file
 * (`from_snakemake_benchmark_file`).
 */
module JobRecords {
  import opened Wrappers
  import opened Text
  import opened Values

  /** A `JobData` dataclass instance; the parsers fill its two feature maps in place. */
  class JobData {
    var jobName: Option<string>
    var slurmId: Option<string>
    var categorical: map<string, Value>
    var numerical: map<string, Value>
    var memory: Option<Value>
    var runtime: Option<Value>
    var cmd: Option<string>

    /** `JobData(job_name=..., slurm_id=..., cmd=...)`, every other field at its default. */
    constructor (jobName: Option<string>, slurmId: Option<string>, cmd: Option<string>)
      ensures this.jobName == jobName && this.slurmId == slurmId && this.cmd == cmd
      ensures categorical == map[] && numerical == map[]
      ensures memory.None? && runtime.None?
    {
      this.jobName := jobName;
      this.slurmId := slurmId;
      this.cmd := cmd;
      categorical := map[];
      numerical := map[];
      memory := None;
      runtime := None;
    }

    /** `JobData(...)` with every field given except `cmd`. */
    constructor Full(jobName: Option<string>, slurmId: Option<string>,
                     categorical: map<string, Value>, numerical: map<string, Value>,
                     memory: Option<Value>, runtime: Option<Value>)
      ensures this.jobName == jobName && this.slurmId == slurmId
      ensures this.categorical == categorical && this.numerical == numerical
      ensures this.memory == memory && this.runtime == runtime && cmd.None?
    {
      this.jobName := jobName;
      this.slurmId := slurmId;
      this.categorical := categorical;
      this.numerical := numerical;
      this.memory := memory;
      this.runtime := runtime;
      cmd := None;
    }
  }

  // ---------------------------------------------------------------------
  // array_safe_eq

  /** Python's `a == b` on these values: numbers compare by value, containers element-wise. */
  predicate PyEq(a: Value, b: Value)
    decreases a
  {
    match (a, b)
    case (Int(x), Int(y)) => x == y
    case (Int(x), Real(y)) => x as real == y
    case (Real(x), Int(y)) => x == y as real
    case (Real(x), Real(y)) => x == y
    case (Str(x), Str(y)) => x == y
    case (List(xs), List(ys)) => |xs| == |ys| && forall i :: 0 <= i < |xs| ==> PyEq(xs[i], ys[i])
    case (Dict(m), Dict(n)) => m.Keys == n.Keys && forall k :: k in m ==> PyEq(m[k], n[k])
    case _ => false
  }

  /**
   * `array_safe_eq(a, b)` without its numpy branch: two dicts are equal when
   * they have the same keys and every pair of values is `array_safe_eq`;
   * anything else falls back to `==`. (`a is b` implies `a == b` here, since
   * floats are exact reals without NaN.)
   */
  predicate ArraySafeEq(a: Value, b: Value)
    decreases a
  {
    if a.Dict? && b.Dict? then
      a.entries.Keys == b.entries.Keys
      && forall k :: k in a.entries ==> ArraySafeEq(a.entries[k], b.entries[k])
    else PyEq(a, b)
  }

  /** Every integer as the float it equals: Python's `==` identifies the two. */
  function Canon(v: Value): (c: Value)
    decreases v
  {
    match v
    case Int(i) => Real(i as real)
    case Real(r) => Real(r)
    case Str(s) => Str(s)
    case List(xs) => List(seq(|xs|, i requires 0 <= i < |xs| => Canon(xs[i])))
    case Dict(m) => Dict(map k | k in m :: Canon(m[k]))
  }

  lemma {:induction false} PyEqIsCanonEq(a: Value, b: Value)
    ensures PyEq(a, b) <==> Canon(a) == Canon(b)
    decreases a
  {
    match (a, b)
    case (List(xs), List(ys)) =>
      var cx, cy := Canon(a).items, Canon(b).items;
      forall i | 0 <= i < |xs| && i < |ys| ensures PyEq(xs[i], ys[i]) <==> cx[i] == cy[i] {
        PyEqIsCanonEq(xs[i], ys[i]);
      }
      if |xs| == |ys| && cx == cy {
        assert forall i :: 0 <= i < |xs| ==> cx[i] == cy[i];
      }
    case (Dict(m), Dict(n)) =>
      var cm, cn := Canon(a).entries, Canon(b).entries;
      forall k | k in m && k in n ensures PyEq(m[k], n[k]) <==> cm[k] == cn[k] {
        PyEqIsCanonEq(m[k], n[k]);
      }
      if cm == cn {
        assert cm.Keys == m.Keys && cn.Keys == n.Keys;
      }
    case _ =>
  }

  /**
   * On these values `array_safe_eq` is Python equality, and both identify
   * exactly the values that agree once integers are read as floats.
   */
  lemma {:induction false} ArraySafeEqIsCanonEq(a: Value, b: Value)
    ensures ArraySafeEq(a, b) <==> PyEq(a, b)
    ensures ArraySafeEq(a, b) <==> Canon(a) == Canon(b)
    decreases a
  {
    PyEqIsCanonEq(a, b);
    if a.Dict? && b.Dict? {
      forall k | k in a.entries && k in b.entries
        ensures ArraySafeEq(a.entries[k], b.entries[k]) <==> PyEq(a.entries[k], b.entries[k])
      {
        ArraySafeEqIsCanonEq(a.entries[k], b.entries[k]);
      }
    }
  }

  /** Consequently `array_safe_eq` is an equivalence: reflexive, symmetric and transitive. */
  lemma ArraySafeEqIsEquivalence(a: Value, b: Value, c: Value)
    ensures ArraySafeEq(a, a)
    ensures ArraySafeEq(a, b) ==> ArraySafeEq(b, a)
    ensures ArraySafeEq(a, b) && ArraySafeEq(b, c) ==> ArraySafeEq(a, c)
  {
    ArraySafeEqIsCanonEq(a, a);
    ArraySafeEqIsCanonEq(a, b);
    ArraySafeEqIsCanonEq(b, a);
    ArraySafeEqIsCanonEq(b, c);
    ArraySafeEqIsCanonEq(a, c);
  }

  // ---------------------------------------------------------------------
  // from_dataset

  /** The fields `from_dataset` reads out of a stored dataset's members. */
  datatype DatasetFields = DatasetFields(numerical: map<string, Value>, memory: Option<Value>, runtime: Option<Value>)

  /**
   * Every member except `runtime` and `memory` becomes a numerical feature;
   * those two become the record's runtime and memory, `None` when absent.
   */
  function FromDatasetFields(dataset: map<string, Value>): (f: DatasetFields)
    ensures f.numerical.Keys == dataset.Keys - {"runtime", "memory"}
    ensures forall k :: k in f.numerical ==> f.numerical[k] == dataset[k]
    ensures f.runtime == (if "runtime" in dataset then Some(dataset["runtime"]) else None)
    ensures f.memory == (if "memory" in dataset then Some(dataset["memory"]) else None)
  {
    DatasetFields(
      map k | k in dataset && k != "runtime" && k != "memory" :: dataset[k],
      if "memory" in dataset then Some(dataset["memory"]) else None,
      if "runtime" in dataset then Some(dataset["runtime"]) else None)
  }

  /** `JobData.from_dataset(job_name, slurm_id, dataset, categorical)`. */
  method FromDataset(jobName: string, slurmId: string, dataset: map<string, Value>, categorical: map<string, Value>)
    returns (job: JobData)
    ensures fresh(job)
    ensures job.jobName == Some(jobName) && job.slurmId == Some(slurmId) && job.cmd.None?
    ensures job.categorical == categorical
    ensures var f := FromDatasetFields(dataset);
      job.numerical == f.numerical && job.memory == f.memory && job.runtime == f.runtime
  {
    var f := FromDatasetFields(dataset);
    job := new JobData.Full(Some(jobName), Some(slurmId), categorical, f.numerical, f.memory, f.runtime);
  }

  // ---------------------------------------------------------------------
  // from_snakemake_benchmark_file

  /** `{key: value for key, value in zip(header, data)}` built up from `acc`. */
  function ZipInto(acc: map<string, string>, header: seq<string>, data: seq<string>): (m: map<string, string>)
    decreases |header|
  {
    if header == [] || data == [] then acc
    else ZipInto(acc[header[0] := data[0]], header[1..], data[1..])
  }

  function ZipDict(header: seq<string>, data: seq<string>): map<string, string>
  {
    ZipInto(map[], header, data)
  }

  /** The last position below `n` at which `header` holds `k`. */
  predicate LastAt(header: seq<string>, n: nat, k: string, j: nat)
  {
    j < n <= |header| && header[j] == k && forall i :: j < i < n ==> header[i] != k
  }

  lemma {:induction false} ZipIntoSpec(acc: map<string, string>, header: seq<string>, data: seq<string>, k: string)
    ensures var n := if |header| < |data| then |header| else |data|;
      var m := ZipInto(acc, header, data);
      (k in m <==> k in acc || k in header[..n])
      && (k in header[..n] ==> exists j: nat :: LastAt(header, n, k, j) && m[k] == data[j])
      && (k !in header[..n] && k in acc ==> m[k] == acc[k])
    decreases |header|
  {
    var n := if |header| < |data| then |header| else |data|;
    if header == [] || data == [] {
    } else {
      var h, d := header[1..], data[1..];
      var n' := n - 1;
      ZipIntoSpec(acc[header[0] := data[0]], h, d, k);
      assert header[..n] == [header[0]] + h[..n'];
      if k in h[..n'] {
        var j': nat :| LastAt(h, n', k, j') && ZipInto(acc[header[0] := data[0]], h, d)[k] == d[j'];
        assert LastAt(header, n, k, j' + 1);
      } else if k == header[0] {
        assert LastAt(header, n, k, 0) by {
          forall i | 0 < i < n ensures header[i] != k {
            assert header[i] == h[..n'][i - 1];
          }
        }
      }
    }
  }

  /**
   * Header and data fields pair up by position: the shorter list decides how
   * many pairs there are, and a repeated header keeps its last field.
   */
  lemma ZipDictSpec(header: seq<string>, data: seq<string>, k: string)
    ensures var n := if |header| < |data| then |header| else |data|;
      var m := ZipDict(header, data);
      (k in m <==> k in header[..n])
      && (k in m ==> exists j: nat :: LastAt(header, n, k, j) && m[k] == data[j])
  {
    ZipIntoSpec(map[], header, data, k);
  }

  /** `float(v)` on a value: strings go through the float parser, containers raise TypeError. */
  datatype Conversion = Converted(r: real) | NotConvertible | WrongType

  function FloatOfValue(v: Value, toFloat: FloatParser): Conversion
  {
    match v
    case Int(i) => Converted(i as real)
    case Real(r) => Converted(r)
    case Str(s) => (match toFloat(s) case Some(r) => Converted(r) case None => NotConvertible)
    case _ => WrongType
  }

  /** The two maps the partition loop fills, or the TypeError it stops on. */
  datatype Partition = Partitioned(numerical: map<string, Value>, categorical: map<string, Value>) | PartitionTypeError

  /** What the loop over `(wildcards | params).items()` produces. */
  function PartitionSpec(merged: map<string, Value>, toFloat: FloatParser): Partition
  {
    if exists k :: k in merged && FloatOfValue(merged[k], toFloat).WrongType? then PartitionTypeError
    else Partitioned(NumericalOf(merged, merged.Keys, toFloat), CategoricalOf(merged, merged.Keys, toFloat))
  }

  /** The values among `keys` that `float` accepts, converted. */
  function NumericalOf(merged: map<string, Value>, keys: set<string>, toFloat: FloatParser): map<string, Value>
  {
    map k | k in keys && k in merged && FloatOfValue(merged[k], toFloat).Converted? :: Real(FloatOfValue(merged[k], toFloat).r)
  }

  /** The values among `keys` that `float` rejects, as they are. */
  function CategoricalOf(merged: map<string, Value>, keys: set<string>, toFloat: FloatParser): map<string, Value>
  {
    map k | k in keys && k in merged && FloatOfValue(merged[k], toFloat).NotConvertible? :: merged[k]
  }

  /** Taking one more key into account adds it to the map its value belongs in, and to no other. */
  lemma OfOneMore(merged: map<string, Value>, keys: set<string>, k: string, toFloat: FloatParser)
    requires k in merged
    ensures var c := FloatOfValue(merged[k], toFloat);
      && NumericalOf(merged, keys + {k}, toFloat)
        == (if c.Converted? then NumericalOf(merged, keys, toFloat)[k := Real(c.r)] else NumericalOf(merged, keys, toFloat))
      && CategoricalOf(merged, keys + {k}, toFloat)
        == (if c.NotConvertible? then CategoricalOf(merged, keys, toFloat)[k := merged[k]] else CategoricalOf(merged, keys, toFloat))
  {
  }

  /**
   * The numerical and categorical keys are disjoint and together are every
   * key of `merged`; a value is numerical exactly when `float` accepts it.
   */
  lemma PartitionIsPartition(merged: map<string, Value>, toFloat: FloatParser)
    ensures var p := PartitionSpec(merged, toFloat);
      p.Partitioned? ==>
        p.numerical.Keys !! p.categorical.Keys
        && p.numerical.Keys + p.categorical.Keys == merged.Keys
        && (forall k :: k in p.numerical <==> k in merged && FloatOfValue(merged[k], toFloat).Converted?)
        && (forall k :: k in p.categorical ==> p.categorical[k] == merged[k])
  {
    var p := PartitionSpec(merged, toFloat);
    if p.Partitioned? {
      forall k | k in merged ensures k in p.numerical.Keys + p.categorical.Keys {
        assert !FloatOfValue(merged[k], toFloat).WrongType?;
      }
    }
  }

  /** The for loop of `from_snakemake_benchmark_file` that sorts values into the two maps. */
  method PartitionFeatures(merged: map<string, Value>, toFloat: FloatParser) returns (p: Partition)
    ensures p == PartitionSpec(merged, toFloat)
  {
    var numerical: map<string, Value> := map[];
    var categorical: map<string, Value> := map[];
    var todo := merged.Keys;
    ghost var done: set<string> := {};
    assert NumericalOf(merged, done, toFloat) == map[] && CategoricalOf(merged, done, toFloat) == map[];
    while todo != {}
      invariant todo <= merged.Keys && done == merged.Keys - todo
      invariant forall k :: k in done ==> !FloatOfValue(merged[k], toFloat).WrongType?
      invariant numerical == NumericalOf(merged, done, toFloat)
      invariant categorical == CategoricalOf(merged, done, toFloat)
      decreases todo
    {
      var k :| k in todo;
      OfOneMore(merged, done, k, toFloat);
      match FloatOfValue(merged[k], toFloat) {
        case Converted(r) => numerical := numerical[k := Real(r)];
        case NotConvertible => categorical := categorical[k := merged[k]];
        case WrongType => return PartitionTypeError;
      }
      todo := todo - {k};
      done := done + {k};
    }
    return Partitioned(numerical, categorical);
  }

  /** `int(x)` of a float: truncation toward zero. */
  function Trunc(x: real): (n: int)
    ensures x >= 0.0 ==> n as real <= x < n as real + 1.0
    ensures x < 0.0 ==> n as real - 1.0 < x <= n as real
  {
    if x >= 0.0 then x.Floor else -((-x).Floor)
  }

  /** A benchmark file's contents as `from_snakemake_benchmark_file` returns them. */
  datatype BenchmarkRecord = BenchmarkRecord(
    ruleName: Option<string>, jobId: Option<string>,
    categorical: map<string, Value>, numerical: map<string, Value>,
    memory: int, runtime: int,
    /** the keys the shared-keys warning names */
    sharedKeys: set<string>)

  datatype BenchmarkError =
    | MissingLine            // IndexError on lines[0] or lines[1]
    | BadLiteral(text: string) // ast.literal_eval raised
    | NoKeys(value: Value)     // AttributeError: `.keys()` of a literal that is no dict
    | FeatureTypeError       // float() of a list or dict
    | BadNumber(text: string)  // float() of max_rss or cpu_time raised

  /** `int(float(job_data.get(key, 0)))`. */
  function IntOfColumn(row: map<string, string>, key: string, toFloat: FloatParser): Result<int, BenchmarkError>
  {
    if key !in row then Ok(0)
    else match toFloat(row[key])
      case Some(x) => Ok(Trunc(x))
      case None => Err(BadNumber(row[key]))
  }

  /** `ast.literal_eval(job_data.get(key, "{}"))`: an absent column is the empty dict. */
  function LiteralOfColumn(row: map<string, string>, key: string, literalEval: string -> Option<Value>): (r: Result<Value, BenchmarkError>)
    ensures key !in row ==> r == Ok(Dict(map[]))
    ensures key in row ==> (r.Err? <==> literalEval(row[key]).None?) && (r.Err? ==> r.error == BadLiteral(row[key]))
  {
    if key !in row then Ok(Dict(map[]))
    else match literalEval(row[key])
      case Some(v) => Ok(v)
      case None => Err(BadLiteral(row[key]))
  }

  /**
   * `from_snakemake_benchmark_file` on the file's lines: the first line is the
   * header, the second the data; wildcards and params are merged (params win)
   * and partitioned; max_rss is truncated to an integer and cpu_time to whole
   * minutes.
   */
  function BenchmarkSpec(lines: seq<string>, literalEval: string -> Option<Value>, toFloat: FloatParser): Result<BenchmarkRecord, BenchmarkError>
  {
    if |lines| < 2 then Err(MissingLine)
    else
      var row := ZipDict(Split(Strip(lines[0]), '\t'), Split(Strip(lines[1]), '\t'));
      match LiteralOfColumn(row, "wildcards", literalEval)
      case Err(e) => Err(e)
      case Ok(w) =>
        match LiteralOfColumn(row, "params", literalEval)
        case Err(e) => Err(e)
        case Ok(p) =>
          // `wildcards.keys()` is read before `params.keys()`
          if !w.Dict? then Err(NoKeys(w))
          else if !p.Dict? then Err(NoKeys(p))
          else
            var wildcards, params := w.entries, p.entries;
            match PartitionSpec(wildcards + params, toFloat)
            case PartitionTypeError => Err(FeatureTypeError)
            case Partitioned(numerical, categorical) =>
              match IntOfColumn(row, "max_rss", toFloat)
              case Err(e) => Err(e)
              case Ok(memory) =>
                match IntOfColumn(row, "cpu_time", toFloat)
                case Err(e) => Err(e)
                case Ok(seconds) =>
                  Ok(BenchmarkRecord(
                    if "rule_name" in row then Some(row["rule_name"]) else None,
                    if "jobid" in row then Some(row["jobid"]) else None,
                    categorical, numerical, memory, seconds / 60,
                    wildcards.Keys * params.Keys))
  }

  /**
   * The features of a benchmark record: disjoint numerical and categorical
   * keys covering every wildcard and param; a shared key takes the param's
   * value; runtime is the truncated cpu time in whole minutes (floor division).
   */
  lemma BenchmarkFeatures(lines: seq<string>, literalEval: string -> Option<Value>, toFloat: FloatParser)
    ensures var r := BenchmarkSpec(lines, literalEval, toFloat);
      r.Ok? ==>
        var row := ZipDict(Split(Strip(lines[0]), '\t'), Split(Strip(lines[1]), '\t'));
        var wildcards := LiteralOfColumn(row, "wildcards", literalEval).value.entries;
        var params := LiteralOfColumn(row, "params", literalEval).value.entries;
        r.value.numerical.Keys !! r.value.categorical.Keys
        && r.value.numerical.Keys + r.value.categorical.Keys == wildcards.Keys + params.Keys
        && (forall k :: k in r.value.categorical && k in params ==> r.value.categorical[k] == params[k])
        && r.value.sharedKeys == wildcards.Keys * params.Keys
        && 60 * r.value.runtime <= IntOfColumn(row, "cpu_time", toFloat).value < 60 * r.value.runtime + 60
  {
    var r := BenchmarkSpec(lines, literalEval, toFloat);
    if r.Ok? {
      var row := ZipDict(Split(Strip(lines[0]), '\t'), Split(Strip(lines[1]), '\t'));
      var wildcards := LiteralOfColumn(row, "wildcards", literalEval).value.entries;
      var params := LiteralOfColumn(row, "params", literalEval).value.entries;
      PartitionIsPartition(wildcards + params, toFloat);
    }
  }

  /** `JobData.from_snakemake_benchmark_file(path)` once the file's lines are read. */
  method FromBenchmark(lines: seq<string>, literalEval: string -> Option<Value>, toFloat: FloatParser)
    returns (r: Result<JobData, BenchmarkError>)
    ensures var spec := BenchmarkSpec(lines, literalEval, toFloat);
      (r.Ok? <==> spec.Ok?) && (r.Err? ==> r.error == spec.error)
    ensures r.Ok? ==> fresh(r.value)
    ensures r.Ok? ==> var b := BenchmarkSpec(lines, literalEval, toFloat).value;
      r.value.jobName == b.ruleName && r.value.slurmId == b.jobId
      && r.value.categorical == b.categorical && r.value.numerical == b.numerical
      && r.value.memory == Some(Int(b.memory)) && r.value.runtime == Some(Int(b.runtime))
  {
    if |lines| < 2 {
      return Err(MissingLine);
    }
    var row := ZipDict(Split(Strip(lines[0]), '\t'), Split(Strip(lines[1]), '\t'));
    var w :- LiteralOfColumn(row, "wildcards", literalEval);
    var q :- LiteralOfColumn(row, "params", literalEval);
    if !w.Dict? {
      return Err(NoKeys(w));
    }
    if !q.Dict? {
      return Err(NoKeys(q));
    }
    var wildcards, params := w.entries, q.entries;
    var p := PartitionFeatures(wildcards + params, toFloat);
    if p.PartitionTypeError? {
      return Err(FeatureTypeError);
    }
    var memory :- IntOfColumn(row, "max_rss", toFloat);
    var seconds :- IntOfColumn(row, "cpu_time", toFloat);
    var job := new JobData.Full(
      if "rule_name" in row then Some(row["rule_name"]) else None,
      if "jobid" in row then Some(row["jobid"]) else None,
      p.categorical, p.numerical, Some(Int(memory)), Some(Int(seconds / 60)));
    return Ok(job);
  }
}
