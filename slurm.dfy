/**
 * `slurm.py`: the metadata of one step of a slurm job, read from the JSON
 * document `sacct --json` prints. Running `sacct` and reading `SLURM_JOBID`
 * from the environment are not modelled: the decoded document is the input.
 */
module Slurm {
  import opened Wrappers
  import opened Text
  import opened Values

  /** A decoded JSON value. Floating-point numbers are not modelled. */
  datatype Json =
    | JNull
    | JBool(b: bool)
    | JInt(i: int)
    | JStr(s: string)
    | JList(items: seq<Json>)
    | JObj(fields: map<string, Json>)

  /** `2**20`: the memory counts of `sacct` are bytes, the result is in MiB. */
  const MIB: int := 0x10_0000

  /** The exception every failed lookup inside the `try` block becomes: it carries the whole document. */
  datatype SlurmError = CouldNotParse(payload: Json)

  /** The message of the ValueError, `repr` standing for Python's `str()` of the document. */
  function Message(e: SlurmError, repr: Json -> string): string
  {
    "Could not parse json from sacct cmd:\n\n " + repr(e.payload)
  }

  // ---------------------------------------------------------------------
  // Python's operations on decoded JSON

  /** `j[key]` with a string key: only an object holding the key has one. */
  function Get(j: Json, key: string): Option<Json>
  {
    if j.JObj? && key in j.fields then Some(j.fields[key]) else None
  }

  /** `j[0]`: the first item of a list, or the first character of a string. */
  function First(j: Json): Option<Json>
  {
    match j
    case JList(xs) => if xs != [] then Some(xs[0]) else None
    case JStr(s) => if s != "" then Some(JStr(s[..1])) else None
    case _ => None
  }

  /**
   * The items of `for x in j` when the loop body subscripts `x` by a string
   * straight away, as both loops here do. Iterating a non-empty object or
   * string yields strings, which raise when subscripted so, and numbers,
   * booleans and None are not iterable: those are None. An empty object or
   * string runs the loop zero times.
   */
  function ItemsToSubscript(j: Json): Option<seq<Json>>
  {
    match j
    case JList(xs) => Some(xs)
    case JObj(m) => if m == map[] then Some([]) else None
    case JStr(s) => if s == "" then Some([]) else None
    case _ => None
  }

  /** `int(j)`: integers as they are, booleans as 0 and 1, strings by Python's parser. */
  function IntOf(j: Json, parseInt: IntParser): Option<int>
  {
    match j
    case JInt(i) => Some(i)
    case JBool(b) => Some(if b then 1 else 0)
    case JStr(s) => parseInt(s)
    case _ => None
  }

  /** `j` as an operand of `//`, `*` and `max`: an integer, or a boolean counting as 0 or 1. */
  function Num(j: Json): Option<int>
  {
    match j
    case JInt(i) => Some(i)
    case JBool(b) => Some(if b then 1 else 0)
    case _ => None
  }

  /** `str(j)` as an f-string shows it; `repr` stands for lists and objects. */
  function PyStr(j: Json, repr: Json -> string): string
  {
    match j
    case JNull => "None"
    case JBool(b) => if b then "True" else "False"
    case JInt(i) => IntToString(i)
    case JStr(s) => s
    case _ => repr(j)
  }

  /** Whether `{}`-keys of this kind can be put in a dict: lists and objects are unhashable. */
  predicate Hashable(j: Json)
  {
    !j.JList? && !j.JObj?
  }

  // ---------------------------------------------------------------------
  // The loop over the steps: `steps[id] = step; jobstep_ids.append(id)`

  /** `step["step"]["id"]`. */
  function StepId(step: Json): Option<Json>
  {
    match Get(step, "step")
    case None => None
    case Some(s) => Get(s, "id")
  }

  /**
   * The `steps` dict, restricted to its string keys (the only keys ever
   * looked up), and the `jobstep_ids` list after the loop has run over `xs`;
   * None when a step has no id or an unhashable one.
   */
  datatype StepTable = StepTable(steps: map<string, Json>, ids: seq<Json>)

  function CollectSteps(xs: seq<Json>): Option<StepTable>
    decreases |xs|
  {
    if xs == [] then Some(StepTable(map[], []))
    else
      match CollectSteps(xs[..|xs| - 1])
      case None => None
      case Some(t) =>
        var x := xs[|xs| - 1];
        match StepId(x)
        case None => None
        case Some(id) =>
          if !Hashable(id) then None
          else Some(StepTable(if id.JStr? then t.steps[id.s := x] else t.steps, t.ids + [id]))
  }

  /** The loop fails exactly when some step has no id or an unhashable one. */
  lemma {:induction false} CollectStepsFails(xs: seq<Json>)
    ensures CollectSteps(xs).None? <==> exists i :: 0 <= i < |xs| && (StepId(xs[i]).None? || !Hashable(StepId(xs[i]).value))
    decreases |xs|
  {
    if xs != [] {
      var init := xs[..|xs| - 1];
      CollectStepsFails(init);
      if CollectSteps(init).None? {
        var i :| 0 <= i < |init| && (StepId(init[i]).None? || !Hashable(StepId(init[i]).value));
        assert xs[i] == init[i];
      } else {
        forall i | 0 <= i < |xs| - 1 ensures StepId(xs[i]).Some? && Hashable(StepId(xs[i]).value) {
          assert xs[i] == init[i];
        }
      }
    }
  }

  /** Whether `i` is the last position of `xs` whose step id is the string `k`. */
  predicate LastWithId(xs: seq<Json>, k: string, i: int)
  {
    0 <= i < |xs| && StepId(xs[i]) == Some(JStr(k))
    && forall j :: i < j < |xs| ==> StepId(xs[j]) != Some(JStr(k))
  }

  /** After the loop the id list holds every step's id in order, duplicates included. */
  lemma {:induction false} CollectStepsIds(xs: seq<Json>)
    requires CollectSteps(xs).Some?
    ensures |CollectSteps(xs).value.ids| == |xs|
    ensures forall i :: 0 <= i < |xs| ==> StepId(xs[i]) == Some(CollectSteps(xs).value.ids[i])
    decreases |xs|
  {
    if xs != [] {
      var init := xs[..|xs| - 1];
      CollectStepsIds(init);
      assert forall i :: 0 <= i < |init| ==> xs[i] == init[i];
    }
  }

  /** Every string id is a key of the dict. */
  lemma {:induction false} CollectStepsKeys(xs: seq<Json>, i: int, k: string)
    requires CollectSteps(xs).Some? && 0 <= i < |xs| && StepId(xs[i]) == Some(JStr(k))
    ensures k in CollectSteps(xs).value.steps
    decreases |xs|
  {
    var init := xs[..|xs| - 1];
    if i < |init| {
      assert init[i] == xs[i];
      CollectStepsKeys(init, i, k);
    }
  }

  /** Each key of the dict maps to the last step that has it as its id: a later step replaces an earlier one. */
  lemma {:induction false} CollectStepsLastWins(xs: seq<Json>, k: string)
    requires CollectSteps(xs).Some? && k in CollectSteps(xs).value.steps
    ensures exists i :: LastWithId(xs, k, i) && CollectSteps(xs).value.steps[k] == xs[i]
    decreases |xs|
  {
    var init := xs[..|xs| - 1];
    var x := xs[|xs| - 1];
    if StepId(x) == Some(JStr(k)) {
      assert LastWithId(xs, k, |xs| - 1);
    } else {
      assert k in CollectSteps(init).value.steps && CollectSteps(xs).value.steps[k] == CollectSteps(init).value.steps[k];
      CollectStepsLastWins(init, k);
      var i :| LastWithId(init, k, i) && CollectSteps(init).value.steps[k] == init[i];
      assert forall j :: 0 <= j < |init| ==> xs[j] == init[j];
      assert LastWithId(xs, k, i);
    }
  }

  /** A failing prefix makes the whole loop fail. */
  lemma {:induction false} CollectStepsPrefixFails(xs: seq<Json>, n: nat)
    requires n <= |xs| && CollectSteps(xs[..n]).None?
    ensures CollectSteps(xs).None?
    decreases |xs| - n
  {
    if n < |xs| {
      assert xs[..n + 1][..n] == xs[..n];
      CollectStepsPrefixFails(xs, n + 1);
    } else {
      assert xs[..n] == xs;
    }
  }

  // ---------------------------------------------------------------------
  // Step selection

  /**
   * The key of the chosen step and the step name reported: without a step
   * name the last listed id, which must be a string, and the text after its
   * last `.`; with one, `{job_id}.{step_name}` and the name itself.
   */
  function SelectStep(ids: seq<Json>, stepName: Option<string>, jobId: Json, repr: Json -> string): Option<(string, string)>
  {
    if stepName.Some? then Some((PyStr(jobId, repr) + "." + stepName.value, stepName.value))
    else if ids == [] then None
    else
      var last := ids[|ids| - 1];
      if last.JStr? then Some((last.s, LastPiece(last.s, '.'))) else None
  }

  // ---------------------------------------------------------------------
  // The max-RSS fold: `max_rss = max(max_rss, (item["count"] // 2**20) * node_count)`

  /** Whether an entry of `tres.requested.max` is the memory entry. */
  predicate IsMem(item: Json)
  {
    Get(item, "type") == Some(JStr("mem"))
  }

  /**
   * The MiB a memory entry contributes: its byte count divided down, times
   * the node count. Dafny's `/` is Python's `//` here, the divisor being
   * positive.
   */
  function MemValue(item: Json, nodeCount: Json): Option<int>
  {
    match Get(item, "count")
    case None => None
    case Some(c) =>
      if Num(c).None? || Num(nodeCount).None? then None
      else Some((Num(c).value / MIB) * Num(nodeCount).value)
  }

  /** `max_rss` after the loop has run over `items`, from 0; None when an entry raises. */
  function MemFold(items: seq<Json>, nodeCount: Json): Option<int>
    decreases |items|
  {
    if items == [] then Some(0)
    else
      match MemFold(items[..|items| - 1], nodeCount)
      case None => None
      case Some(m) =>
        var item := items[|items| - 1];
        if Get(item, "type").None? then None
        else if !IsMem(item) then Some(m)
        else match MemValue(item, nodeCount)
          case None => None
          case Some(v) => Some(if v > m then v else m)
  }

  /** An entry the fold accepts: it has a type, and a memory entry has a value. */
  predicate Accepted(item: Json, nodeCount: Json)
  {
    Get(item, "type").Some? && (IsMem(item) ==> MemValue(item, nodeCount).Some?)
  }

  /**
   * The fold succeeds exactly when every entry is accepted, and then gives
   * the largest of 0 and the values of the memory entries; entries of other
   * types are ignored.
   */
  lemma {:induction false} MemFoldSpec(items: seq<Json>, nodeCount: Json)
    ensures MemFold(items, nodeCount).Some? <==> forall i :: 0 <= i < |items| ==> Accepted(items[i], nodeCount)
    ensures MemFold(items, nodeCount).Some? ==> var m := MemFold(items, nodeCount).value;
      && m >= 0
      && (forall i :: 0 <= i < |items| && IsMem(items[i]) ==> MemValue(items[i], nodeCount).value <= m)
      && (m == 0 || exists i :: 0 <= i < |items| && IsMem(items[i]) && MemValue(items[i], nodeCount) == Some(m))
    decreases |items|
  {
    if items != [] {
      var init := items[..|items| - 1];
      MemFoldSpec(init, nodeCount);
      assert forall i :: 0 <= i < |init| ==> items[i] == init[i];
      if MemFold(init, nodeCount).None? {
        var i :| 0 <= i < |init| && !Accepted(init[i], nodeCount);
        assert !Accepted(items[i], nodeCount);
      } else if MemFold(items, nodeCount).Some? {
        var m0, m := MemFold(init, nodeCount).value, MemFold(items, nodeCount).value;
        if m != 0 && m != m0 {
          assert MemValue(items[|items| - 1], nodeCount) == Some(m);
        } else if m != 0 {
          var i :| 0 <= i < |init| && IsMem(init[i]) && MemValue(init[i], nodeCount) == Some(m0);
          assert IsMem(items[i]) && MemValue(items[i], nodeCount) == Some(m);
        }
      }
    }
  }

  /** A failing prefix makes the whole fold fail. */
  lemma {:induction false} MemFoldPrefixFails(items: seq<Json>, nodeCount: Json, n: nat)
    requires n <= |items| && MemFold(items[..n], nodeCount).None?
    ensures MemFold(items, nodeCount).None?
    decreases |items| - n
  {
    if n < |items| {
      assert items[..n + 1][..n] == items[..n];
      MemFoldPrefixFails(items, nodeCount, n + 1);
    } else {
      assert items[..n] == items;
    }
  }

  // ---------------------------------------------------------------------
  // parse_slurm_job_metadata

  /** The ten entries of the returned dict. */
  datatype Metadata = Metadata(
    slurmId: Json, stepId: string, jobName: Json, state: Json, partition: Json,
    elapsedSeconds: int, cpus: Json, memoryPerCpu: Json, memoryPerNode: Json, maxRss: int)

  const METADATA_KEYS: set<string> := {"slurm_id", "step_id", "job_name", "state", "partition",
    "elapsed_seconds", "CPUs", "memory_per_cpu", "memory_per_node", "max_rss"}

  /** The dict the function returns. */
  function ToDict(m: Metadata): (d: map<string, Json>)
    ensures d.Keys == METADATA_KEYS
  {
    map["slurm_id" := m.slurmId, "step_id" := JStr(m.stepId), "job_name" := m.jobName, "state" := m.state,
        "partition" := m.partition, "elapsed_seconds" := JInt(m.elapsedSeconds), "CPUs" := m.cpus,
        "memory_per_cpu" := m.memoryPerCpu, "memory_per_node" := m.memoryPerNode, "max_rss" := JInt(m.maxRss)]
  }

  /** A lookup inside the `try` block: a missing value raises the wrapped error. */
  function Need<T>(o: Option<T>, sacct: Json): (r: Result<T, SlurmError>)
    ensures r.Err? ==> o.None? && r.error == CouldNotParse(sacct)
    ensures r.Ok? ==> o == Some(r.value)
  {
    if o.Some? then Ok(o.value) else Err(CouldNotParse(sacct))
  }

  /** `j[k1][k2]`. */
  function Get2(j: Json, k1: string, k2: string): Option<Json>
  {
    var x :- Get(j, k1);
    Get(x, k2)
  }

  /** `sacct_json["jobs"][0]`. */
  function JobOf(sacct: Json): Option<Json>
  {
    var jobs :- Get(sacct, "jobs");
    First(jobs)
  }

  /** The fields read from the job itself. */
  datatype JobFields = JobFields(jobId: Json, jobName: Json, state: Json, partition: Json,
    cpus: Json, memoryPerCpu: Json, memoryPerNode: Json)

  function JobFieldsOf(job: Json): Option<JobFields>
  {
    var jobId :- Get(job, "job_id");
    var jobName :- Get(job, "name");
    var current :- Get2(job, "state", "current");
    var state :- First(current);
    var partition :- Get(job, "partition");
    var cpus :- Get2(job, "required", "CPUs");
    var memoryPerCpu :- Get2(job, "required", "memory_per_cpu");
    var memoryPerNode :- Get2(job, "required", "memory_per_node");
    Some(JobFields(jobId, jobName, state, partition, cpus, memoryPerCpu, memoryPerNode))
  }

  /** The steps of the job's `steps` list. */
  function StepListOf(job: Json): Option<seq<Json>>
  {
    var s :- Get(job, "steps");
    ItemsToSubscript(s)
  }

  /** `d[k]` on the steps dict. */
  function Lookup(d: map<string, Json>, k: string): Option<Json>
  {
    if k in d then Some(d[k]) else None
  }

  /** The step measured and the step id reported. */
  function ChosenStep(job: Json, jobId: Json, stepName: Option<string>, repr: Json -> string): Option<(Json, string)>
  {
    var xs :- StepListOf(job);
    var t :- CollectSteps(xs);
    var sel :- SelectStep(t.ids, stepName, jobId, repr);
    var chosen :- Lookup(t.steps, sel.0);
    Some((chosen, sel.1))
  }

  /** What the chosen step gives before the memory fold: elapsed seconds, node count, memory entries. */
  function StepInputs(step: Json, parseInt: IntParser): Option<(int, Json, seq<Json>)>
  {
    var el :- Get2(step, "time", "elapsed");
    var elapsed :- IntOf(el, parseInt);
    var nodeCount :- Get2(step, "nodes", "count");
    var req :- Get2(step, "tres", "requested");
    var mx :- Get(req, "max");
    var items :- ItemsToSubscript(mx);
    Some((elapsed, nodeCount, items))
  }

  /** The elapsed seconds and the max RSS of a step. */
  function StepMetrics(step: Json, parseInt: IntParser): Option<(int, int)>
  {
    var inputs :- StepInputs(step, parseInt);
    var rss :- MemFold(inputs.2, inputs.1);
    Some((inputs.0, rss))
  }

  /** What the function returns for a decoded `sacct` document. */
  function MetadataOf(sacct: Json, stepName: Option<string>, parseInt: IntParser, repr: Json -> string)
    : (r: Result<Metadata, SlurmError>)
    ensures r.Err? ==> r.error == CouldNotParse(sacct)
  {
    var job :- Need(JobOf(sacct), sacct);
    var f :- Need(JobFieldsOf(job), sacct);
    var c :- Need(ChosenStep(job, f.jobId, stepName, repr), sacct);
    var m :- Need(StepMetrics(c.0, parseInt), sacct);
    Ok(Metadata(f.jobId, c.1, f.jobName, f.state, f.partition, m.0, f.cpus, f.memoryPerCpu, f.memoryPerNode, m.1))
  }

  /** The steps of the document, when the job and its list are there. */
  function StepsOf(sacct: Json): Option<seq<Json>>
  {
    var job :- JobOf(sacct);
    StepListOf(job)
  }

  /**
   * Without a step name the last listed step is the one measured, even when
   * an earlier step has the same id, and the reported id is the text after
   * the last `.` of its id.
   */
  lemma DefaultStepIsLast(sacct: Json, parseInt: IntParser, repr: Json -> string)
    requires MetadataOf(sacct, None, parseInt, repr).Ok?
    ensures StepsOf(sacct).Some? && StepsOf(sacct).value != []
    ensures var xs := StepsOf(sacct).value; var last := xs[|xs| - 1]; var m := MetadataOf(sacct, None, parseInt, repr).value;
      && StepId(last).Some? && StepId(last).value.JStr?
      && m.stepId == LastPiece(StepId(last).value.s, '.')
      && StepMetrics(last, parseInt) == Some((m.elapsedSeconds, m.maxRss))
  {
    var job, f, c := MetadataParts(sacct, None, parseInt, repr);
    var xs := StepListOf(job).value;
    var t := CollectSteps(xs).value;
    DefaultChosenStep(xs, t, f.jobId, repr);
    CollectStepsIds(xs);
    var k := t.ids[|t.ids| - 1].s;
    assert StepId(xs[|xs| - 1]) == Some(JStr(k));
    CollectStepsLastWins(xs, k);
    var i :| LastWithId(xs, k, i) && t.steps[k] == xs[i];
    assert i == |xs| - 1;
  }

  /** The pieces a successful run is made of: the job, its fields and the chosen step. */
  lemma MetadataParts(sacct: Json, stepName: Option<string>, parseInt: IntParser, repr: Json -> string)
    returns (job: Json, f: JobFields, c: (Json, string))
    requires MetadataOf(sacct, stepName, parseInt, repr).Ok?
    ensures JobOf(sacct) == Some(job) && JobFieldsOf(job) == Some(f)
    ensures ChosenStep(job, f.jobId, stepName, repr) == Some(c)
    ensures StepsOf(sacct) == StepListOf(job)
    ensures var m := MetadataOf(sacct, stepName, parseInt, repr).value;
      StepMetrics(c.0, parseInt) == Some((m.elapsedSeconds, m.maxRss)) && m.stepId == c.1 && m.slurmId == f.jobId
  {
    job := JobOf(sacct).value;
    f := JobFieldsOf(job).value;
    c := ChosenStep(job, f.jobId, stepName, repr).value;
  }

  /** Without a step name the chosen step is the dict entry of the last id, which is a string. */
  lemma DefaultChosenStep(xs: seq<Json>, t: StepTable, jobId: Json, repr: Json -> string)
    requires CollectSteps(xs) == Some(t)
    requires SelectStep(t.ids, None, jobId, repr).Some?
    ensures t.ids != [] && t.ids[|t.ids| - 1].JStr?
    ensures SelectStep(t.ids, None, jobId, repr).value == (t.ids[|t.ids| - 1].s, LastPiece(t.ids[|t.ids| - 1].s, '.'))
  {
  }

  /**
   * With a step name the step measured is the last one whose id is
   * `{job_id}.{step_name}`, and the name is reported unchanged.
   */
  lemma NamedStepIsLastWithId(sacct: Json, stepName: string, parseInt: IntParser, repr: Json -> string)
    requires MetadataOf(sacct, Some(stepName), parseInt, repr).Ok?
    ensures var m := MetadataOf(sacct, Some(stepName), parseInt, repr).value;
      && m.stepId == stepName && StepsOf(sacct).Some?
      && (exists i ::
            LastWithId(StepsOf(sacct).value, PyStr(m.slurmId, repr) + "." + stepName, i)
            && StepMetrics(StepsOf(sacct).value[i], parseInt) == Some((m.elapsedSeconds, m.maxRss)))
  {
    var job := JobOf(sacct).value;
    var f := JobFieldsOf(job).value;
    var xs := StepListOf(job).value;
    var t := CollectSteps(xs).value;
    var k := PyStr(f.jobId, repr) + "." + stepName;
    assert ChosenStep(job, f.jobId, Some(stepName), repr) == Some((t.steps[k], stepName));
    CollectStepsLastWins(xs, k);
  }

  /**
   * The max RSS of a step is at least 0 and at least the value of each of
   * its memory entries, and it is 0 or one of those values.
   */
  lemma StepMaxRss(step: Json, parseInt: IntParser)
    requires StepMetrics(step, parseInt).Some?
    ensures var inputs := StepInputs(step, parseInt).value; var rss := StepMetrics(step, parseInt).value.1;
      && rss >= 0
      && (forall i :: 0 <= i < |inputs.2| && IsMem(inputs.2[i]) ==> MemValue(inputs.2[i], inputs.1).Some? && MemValue(inputs.2[i], inputs.1).value <= rss)
      && (rss == 0 || exists i :: 0 <= i < |inputs.2| && IsMem(inputs.2[i]) && MemValue(inputs.2[i], inputs.1) == Some(rss))
  {
    var inputs := StepInputs(step, parseInt).value;
    MemFoldSpec(inputs.2, inputs.1);
  }

  /** A parsed document reports a max RSS of at least 0. */
  lemma MaxRssNonNegative(sacct: Json, stepName: Option<string>, parseInt: IntParser, repr: Json -> string)
    requires MetadataOf(sacct, stepName, parseInt, repr).Ok?
    ensures MetadataOf(sacct, stepName, parseInt, repr).value.maxRss >= 0
  {
    var job := JobOf(sacct).value;
    var f := JobFieldsOf(job).value;
    var step := ChosenStep(job, f.jobId, stepName, repr).value.0;
    StepMaxRss(step, parseInt);
  }

  /** The loop over the steps, building the dict and the id list. */
  method CollectStepTable(stepList: seq<Json>) returns (r: Option<StepTable>)
    ensures r == CollectSteps(stepList)
  {
    var steps: map<string, Json> := map[];
    var ids: seq<Json> := [];
    var i := 0;
    while i < |stepList|
      invariant 0 <= i <= |stepList|
      invariant CollectSteps(stepList[..i]) == Some(StepTable(steps, ids))
    {
      assert stepList[..i + 1][..i] == stepList[..i];
      var step := stepList[i];
      var id := StepId(step);
      if id.None? || !Hashable(id.value) {
        CollectStepsPrefixFails(stepList, i + 1);
        return None;
      }
      if id.value.JStr? {
        steps := steps[id.value.s := step];
      }
      ids := ids + [id.value];
      i := i + 1;
    }
    assert stepList[..i] == stepList;
    return Some(StepTable(steps, ids));
  }

  /** The loop over `tres.requested.max`, keeping the largest memory value. */
  method FoldMaxRss(items: seq<Json>, nodeCount: Json) returns (r: Option<int>)
    ensures r == MemFold(items, nodeCount)
  {
    var maxRss := 0;
    var j := 0;
    while j < |items|
      invariant 0 <= j <= |items|
      invariant MemFold(items[..j], nodeCount) == Some(maxRss)
    {
      assert items[..j + 1][..j] == items[..j];
      var item := items[j];
      var kind := Get(item, "type");
      if kind.None? {
        MemFoldPrefixFails(items, nodeCount, j + 1);
        return None;
      }
      if kind.value == JStr("mem") {
        var v := MemValue(item, nodeCount);
        if v.None? {
          MemFoldPrefixFails(items, nodeCount, j + 1);
          return None;
        }
        maxRss := if v.value > maxRss then v.value else maxRss;
      }
      j := j + 1;
    }
    assert items[..j] == items;
    return Some(maxRss);
  }

  /**
   * `parse_slurm_job_metadata` on a decoded document: the lookups, the loop
   * that collects the steps, the step selection and the loop that folds the
   * memory entries.
   */
  method ParseSlurmJobMetadata(sacct: Json, stepName: Option<string>, parseInt: IntParser, repr: Json -> string)
    returns (r: Result<map<string, Json>, SlurmError>)
    ensures var m := MetadataOf(sacct, stepName, parseInt, repr);
      && (r.Ok? <==> m.Ok?)
      && (r.Ok? ==> r.value == ToDict(m.value))
      && (r.Err? ==> r.error == CouldNotParse(sacct))
  {
    var job :- Need(JobOf(sacct), sacct);
    var f :- Need(JobFieldsOf(job), sacct);
    var stepList :- Need(StepListOf(job), sacct);
    var table := CollectStepTable(stepList);
    var t :- Need(table, sacct);
    var sel :- Need(SelectStep(t.ids, stepName, f.jobId, repr), sacct);
    var chosen :- Need(Lookup(t.steps, sel.0), sacct);
    assert ChosenStep(job, f.jobId, stepName, repr) == Some((chosen, sel.1));
    var inputs :- Need(StepInputs(chosen, parseInt), sacct);
    var rss := FoldMaxRss(inputs.2, inputs.1);
    var maxRss :- Need(rss, sacct);
    return Ok(ToDict(Metadata(f.jobId, sel.1, f.jobName, f.state, f.partition, inputs.0,
      f.cpus, f.memoryPerCpu, f.memoryPerNode, maxRss)));
  }
}
