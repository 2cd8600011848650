/** Saving jobs to JSON, loading them back, and recovering after a crash (BRAIN-DAEMON/quantize/manager.py). */
module QuantStore {
  import opened Helpers
  import opened QuantJob

  // ---------------------------------------------------------------- fields to JSON and back

  function StatusName(s: Status): string {
    match s
    case Pending => "pending"
    case Queued => "queued"
    case Running => "running"
    case Done => "done"
    case Failed => "failed"
    case Cancelled => "cancelled"
  }

  function StatusNamed(name: string): Option<Status> {
    if name == "pending" then Some(Pending)
    else if name == "queued" then Some(Queued)
    else if name == "running" then Some(Running)
    else if name == "done" then Some(Done)
    else if name == "failed" then Some(Failed)
    else if name == "cancelled" then Some(Cancelled)
    else None
  }

  function OfString(s: Option<string>): Json {
    if s.Some? then JStr(s.value) else JNull
  }

  function OfReal(r: Option<real>): Json {
    if r.Some? then JNum(r.value) else JNull
  }

  function OfInt(i: Option<int>): Json {
    if i.Some? then JInt(i.value) else JNull
  }

  function OfStrings(items: seq<string>): Json {
    JArr(seq(|items|, k requires 0 <= k < |items| => JStr(items[k])))
  }

  function OutputToDict(o: JobOutput): Json {
    JObj([("name", JStr(o.name)), ("path", JStr(o.path)), ("size_bytes", JInt(o.sizeBytes)),
          ("preset_name", JStr(o.presetName)), ("warnings", OfStrings(o.warnings))])
  }

  function OutputsToDict(outputs: seq<JobOutput>): Json {
    JArr(seq(|outputs|, k requires 0 <= k < |outputs| => OutputToDict(outputs[k])))
  }

  /** `Job.to_dict` */
  function ToDict(j: Job): Json {
    JObj([("id", JStr(j.id)), ("type", JStr(j.jobType)), ("status", JStr(StatusName(j.status))),
          ("payload", j.payload), ("created_at", JNum(j.createdAt)), ("started_at", OfReal(j.startedAt)),
          ("finished_at", OfReal(j.finishedAt)), ("progress_pct", JNum(j.progressPct)),
          ("progress_message", OfString(j.progressMessage)), ("outputs", OutputsToDict(j.outputs)),
          ("error_message", OfString(j.errorMessage)), ("pid", OfInt(j.pid)), ("log_path", OfString(j.logPath))])
  }

  /** `d.get(key, default)`; of two equal keys the later one counts. */
  function Get(fields: seq<(string, Json)>, key: string, default: Json): Json {
    if fields == [] then default
    else
      var last := fields[|fields| - 1];
      if last.0 == key then last.1 else Get(fields[..|fields| - 1], key, default)
  }

  predicate HasKey(fields: seq<(string, Json)>, key: string) {
    exists k :: 0 <= k < |fields| && fields[k].0 == key
  }

  const JOB_FIELDS := ["id", "type", "status", "payload", "created_at", "started_at", "finished_at", "progress_pct",
                       "progress_message", "outputs", "error_message", "pid", "log_path"]
  const REQUIRED_FIELDS := ["id", "type", "status", "payload", "created_at"]
  const OUTPUT_FIELDS := ["name", "path", "size_bytes", "preset_name", "warnings"]
  const REQUIRED_OUTPUT_FIELDS := ["name", "path", "size_bytes", "preset_name"]

  /** A keyword call succeeds when the keys are known ones and none without a default is missing. */
  predicate Callable(fields: seq<(string, Json)>, known: seq<string>, required: seq<string>) {
    && (forall k :: 0 <= k < |fields| ==> fields[k].0 in known)
    && (forall k :: 0 <= k < |required| ==> HasKey(fields, required[k]))
  }

  function ToStringOption(j: Json): Option<Option<string>> {
    match j
    case JStr(s) => Some(Some(s))
    case JNull => Some(None)
    case _ => None
  }

  function ToRealOption(j: Json): Option<Option<real>> {
    match j
    case JNum(r) => Some(Some(r))
    case JNull => Some(None)
    case _ => None
  }

  function ToIntOption(j: Json): Option<Option<int>> {
    match j
    case JInt(i) => Some(Some(i))
    case JNull => Some(None)
    case _ => None
  }

  function ToStrings(items: seq<Json>): Option<seq<string>> {
    if forall k :: 0 <= k < |items| ==> items[k].JStr?
    then Some(seq(|items|, k requires 0 <= k < |items| && items[k].JStr? => items[k].s)) else None
  }

  /** `JobOutput(**o)` */
  function OutputFromDict(j: Json): Option<JobOutput> {
    if !j.JObj? || !Callable(j.fields, OUTPUT_FIELDS, REQUIRED_OUTPUT_FIELDS) then None
    else
      var f := j.fields;
      match (Get(f, "name", JNull), Get(f, "path", JNull), Get(f, "size_bytes", JNull),
             Get(f, "preset_name", JNull), Get(f, "warnings", JArr([])))
      case (JStr(name), JStr(path), JInt(size), JStr(preset), JArr(items)) =>
        var warnings := ToStrings(items);
        if warnings.Some? then Some(JobOutput(name, path, size, preset, warnings.value)) else None
      case _ => None
  }

  function OutputsFromDict(items: seq<Json>): Option<seq<JobOutput>> {
    if items == [] then Some([])
    else
      var first, rest := OutputFromDict(items[0]), OutputsFromDict(items[1..]);
      if first.Some? && rest.Some? then Some([first.value] + rest.value) else None
  }

  /** `Job(**d)` after its outputs have been rebuilt. */
  function FromDict(j: Json): Option<Job> {
    if !j.JObj? || !Callable(j.fields, JOB_FIELDS, REQUIRED_FIELDS) then None
    else
      var f := j.fields;
      var outputs := Get(f, "outputs", JArr([]));
      if !outputs.JArr? then None
      else
        match (Get(f, "id", JNull), Get(f, "type", JNull), Get(f, "status", JNull), Get(f, "created_at", JNull),
               Get(f, "progress_pct", JNum(0.0)))
        case (JStr(id), JStr(jobType), JStr(status), JNum(createdAt), JNum(pct)) =>
          Assemble(id, jobType, StatusNamed(status), Get(f, "payload", JNull), createdAt,
                   ToRealOption(Get(f, "started_at", JNull)), ToRealOption(Get(f, "finished_at", JNull)), pct,
                   ToStringOption(Get(f, "progress_message", JNull)), OutputsFromDict(outputs.items),
                   ToStringOption(Get(f, "error_message", JNull)), ToIntOption(Get(f, "pid", JNull)),
                   ToStringOption(Get(f, "log_path", JNull)))
        case _ => None
  }

  function Assemble(id: Id, jobType: string, status: Option<Status>, payload: Json, createdAt: real,
                    startedAt: Option<Option<real>>, finishedAt: Option<Option<real>>, pct: real,
                    message: Option<Option<string>>, outputs: Option<seq<JobOutput>>,
                    error: Option<Option<string>>, pid: Option<Option<int>>, log: Option<Option<string>>): Option<Job> {
    if status.None? || startedAt.None? || finishedAt.None? || message.None? || outputs.None? || error.None?
       || pid.None? || log.None? then None
    else Some(Job(id, jobType, status.value, payload, createdAt, startedAt.value, finishedAt.value, pct,
                  message.value, outputs.value, error.value, pid.value, log.value))
  }

  // ---------------------------------------------------------------- round trip

  /** Looking a key up in a list of fields with distinct keys. */
  lemma {:induction false} GetAt(fields: seq<(string, Json)>, k: nat, default: Json)
    requires k < |fields| && forall i :: k < i < |fields| ==> fields[i].0 != fields[k].0
    ensures Get(fields, fields[k].0, default) == fields[k].1
    decreases |fields|
  {
    if k < |fields| - 1 {
      GetAt(fields[..|fields| - 1], k, default);
    }
  }

  /** Fields with exactly these keys in this order can be passed by keyword. */
  lemma KeysInOrder(fields: seq<(string, Json)>, known: seq<string>, required: seq<string>)
    requires |fields| == |known| && forall k :: 0 <= k < |known| ==> fields[k].0 == known[k]
    requires forall k :: 0 <= k < |required| ==> required[k] in known
    ensures Callable(fields, known, required)
  {
    forall k | 0 <= k < |required| ensures HasKey(fields, required[k]) {
      var i :| 0 <= i < |known| && known[i] == required[k];
      assert fields[i].0 == required[k];
    }
  }

  lemma FieldsAreDistinct()
    ensures Distinct(JOB_FIELDS) && Distinct(OUTPUT_FIELDS)
  {
    DistinctByTail(JOB_FIELDS);
  }

  lemma DistinctByTail(keys: seq<string>)
    requires keys == JOB_FIELDS
    ensures Distinct(keys)
  {
    assert |"id"| == 2 && |"pid"| == 3 && |"type"| == 4 && |"status"| == 6;
    assert "status"[0] == 's' && "status"[1] == 't';
    assert |"payload"| == 7 && "payload"[0] == 'p' && |"outputs"| == 7 && "outputs"[0] == 'o';
    assert |"log_path"| == 8;
    assert |"created_at"| == 10 && "created_at"[0] == 'c' && |"started_at"| == 10 && "started_at"[0] == 's';
    assert |"finished_at"| == 11 && |"progress_pct"| == 12;
    assert |"error_message"| == 13 && |"progress_message"| == 16;
  }

  lemma GetField(fields: seq<(string, Json)>, keys: seq<string>, k: nat, default: Json)
    requires |fields| == |keys| && Distinct(keys) && forall i :: 0 <= i < |keys| ==> fields[i].0 == keys[i]
    requires k < |keys|
    ensures Get(fields, keys[k], default) == fields[k].1
  {
    GetAt(fields, k, default);
  }

  lemma OutputRoundTrip(o: JobOutput)
    ensures OutputFromDict(OutputToDict(o)) == Some(o)
  {
    hide Get, Callable, Distinct;
    var f, keys := OutputToDict(o).fields, OUTPUT_FIELDS;
    FieldsAreDistinct();
    KeysInOrder(f, keys, REQUIRED_OUTPUT_FIELDS);
    GetField(f, keys, 0, JNull);
    GetField(f, keys, 1, JNull);
    GetField(f, keys, 2, JNull);
    GetField(f, keys, 3, JNull);
    GetField(f, keys, 4, JArr([]));
    var items := OfStrings(o.warnings).items;
    assert ToStrings(items) == Some(o.warnings) by {
      assert ToStrings(items).value == o.warnings;
    }
  }

  lemma {:induction false} OutputsRoundTrip(outputs: seq<JobOutput>)
    ensures OutputsFromDict(OutputsToDict(outputs).items) == Some(outputs)
  {
    hide OutputFromDict, OutputToDict;
    if outputs != [] {
      OutputRoundTrip(outputs[0]);
      OutputsRoundTrip(outputs[1..]);
      assert OutputsToDict(outputs).items[1..] == OutputsToDict(outputs[1..]).items;
      assert outputs == [outputs[0]] + outputs[1..];
    }
  }

  lemma RequiredFieldsStored(j: Job)
    ensures var f := ToDict(j).fields;
      && Get(f, "id", JNull) == JStr(j.id) && Get(f, "type", JNull) == JStr(j.jobType)
      && Get(f, "status", JNull) == JStr(StatusName(j.status)) && Get(f, "payload", JNull) == j.payload
      && Get(f, "created_at", JNull) == JNum(j.createdAt)
  {
    hide Get, Distinct, OutputsToDict, StatusName;
    var f, keys := ToDict(j).fields, JOB_FIELDS;
    FieldsAreDistinct();
    GetField(f, keys, 0, JNull);
    GetField(f, keys, 1, JNull);
    GetField(f, keys, 2, JNull);
    GetField(f, keys, 3, JNull);
    GetField(f, keys, 4, JNull);
  }

  lemma TimesStored(j: Job)
    ensures var f := ToDict(j).fields;
      && Get(f, "started_at", JNull) == OfReal(j.startedAt) && Get(f, "finished_at", JNull) == OfReal(j.finishedAt)
      && Get(f, "progress_pct", JNum(0.0)) == JNum(j.progressPct)
      && Get(f, "progress_message", JNull) == OfString(j.progressMessage)
  {
    hide Get, Distinct, OutputsToDict, StatusName;
    var f, keys := ToDict(j).fields, JOB_FIELDS;
    FieldsAreDistinct();
    GetField(f, keys, 5, JNull);
    GetField(f, keys, 6, JNull);
    GetField(f, keys, 7, JNum(0.0));
    GetField(f, keys, 8, JNull);
  }

  lemma ResultsStored(j: Job)
    ensures var f := ToDict(j).fields;
      && Get(f, "outputs", JArr([])) == OutputsToDict(j.outputs)
      && Get(f, "error_message", JNull) == OfString(j.errorMessage)
      && Get(f, "pid", JNull) == OfInt(j.pid) && Get(f, "log_path", JNull) == OfString(j.logPath)
  {
    hide Get, Distinct, OutputsToDict, StatusName;
    var f, keys := ToDict(j).fields, JOB_FIELDS;
    FieldsAreDistinct();
    GetField(f, keys, 9, JArr([]));
    GetField(f, keys, 10, JNull);
    GetField(f, keys, 11, JNull);
    GetField(f, keys, 12, JNull);
  }

  lemma StoredIsCallable(j: Job)
    ensures Callable(ToDict(j).fields, JOB_FIELDS, REQUIRED_FIELDS)
  {
    KeysInOrder(ToDict(j).fields, JOB_FIELDS, REQUIRED_FIELDS);
  }

  /** `Job(**job.to_dict())` is the job. */
  lemma JobRoundTrip(j: Job)
    ensures FromDict(ToDict(j)) == Some(j)
  {
    RequiredFieldsStored(j);
    TimesStored(j);
    ResultsStored(j);
    StoredIsCallable(j);
    OutputsRoundTrip(j.outputs);
    StatusRoundTrip(j.status);
    var d := ToDict(j);
    assert d.JObj?;
    hide Get, Callable, OutputsFromDict, StatusName, StatusNamed, ToDict;
  }

  lemma StatusRoundTrip(s: Status)
    ensures StatusNamed(StatusName(s)) == Some(s)
  {
    assert "pending"[0] == 'p' && "queued"[0] == 'q' && "running"[0] == 'r' && "done"[0] == 'd';
    assert "failed"[0] == 'f' && "cancelled"[0] == 'c';
  }

  // ---------------------------------------------------------------- other records

  /** The names under which the six statuses are stored. */
  lemma StatusNames(s: Status)
    ensures StatusName(s) ==
      match s
      case Pending => "pending"
      case Queued => "queued"
      case Running => "running"
      case Done => "done"
      case Failed => "failed"
      case Cancelled => "cancelled"
  {
  }

  lemma {:induction false} GetMissing(fields: seq<(string, Json)>, key: string, default: Json)
    requires forall k :: 0 <= k < |fields| ==> fields[k].0 != key
    ensures Get(fields, key, default) == default
    decreases |fields|
  {
    if fields != [] {
      GetMissing(fields[..|fields| - 1], key, default);
    }
  }

  /** A record with a field that a job does not have, or without one of the five it must have, is refused. */
  lemma OtherFieldsAreRefused(fields: seq<(string, Json)>, key: string)
    ensures HasKey(fields, key) && FromDict(JObj(fields)).Some? ==>
      key in {"id", "type", "status", "payload", "created_at", "started_at", "finished_at", "progress_pct",
              "progress_message", "outputs", "error_message", "pid", "log_path"}
    ensures !HasKey(fields, key) && FromDict(JObj(fields)).Some? ==> key !in {"id", "type", "status", "payload", "created_at"}
  {
    hide Get, OutputsFromDict, StatusNamed, HasKey;
    if FromDict(JObj(fields)).Some? {
      CallableKeys(fields, key);
    }
  }

  lemma CallableKeys(fields: seq<(string, Json)>, key: string)
    requires Callable(fields, JOB_FIELDS, REQUIRED_FIELDS)
    ensures HasKey(fields, key) ==> key in JOB_FIELDS
    ensures !HasKey(fields, key) ==> key !in REQUIRED_FIELDS
  {
  }

  /** The first five of a job's fields, and no others. */
  predicate FirstFive(fields: seq<(string, Json)>) {
    |fields| == 5 && forall k :: 0 <= k < 5 ==> fields[k].0 == JOB_FIELDS[k]
  }

  lemma FiveAreEnough(fields: seq<(string, Json)>)
    requires FirstFive(fields)
    ensures Callable(fields, JOB_FIELDS, REQUIRED_FIELDS)
  {
    assert forall k :: 0 <= k < 5 ==> REQUIRED_FIELDS[k] == JOB_FIELDS[k];
    forall k | 0 <= k < |REQUIRED_FIELDS| ensures HasKey(fields, REQUIRED_FIELDS[k]) {
      assert fields[k].0 == REQUIRED_FIELDS[k];
    }
  }

  lemma FieldOfFive(fields: seq<(string, Json)>, k: nat, default: Json)
    requires FirstFive(fields) && k < |JOB_FIELDS|
    ensures Get(fields, JOB_FIELDS[k], default) == if k < 5 then fields[k].1 else default
  {
    FieldsAreDistinct();
    if k < 5 {
      GetAt(fields, k, default);
    } else {
      GetMissing(fields, JOB_FIELDS[k], default);
    }
  }

  lemma EveryFieldOfFive(f: seq<(string, Json)>)
    requires FirstFive(f)
    ensures Get(f, "id", JNull) == f[0].1 && Get(f, "type", JNull) == f[1].1 && Get(f, "status", JNull) == f[2].1
    ensures Get(f, "payload", JNull) == f[3].1 && Get(f, "created_at", JNull) == f[4].1
    ensures Get(f, "started_at", JNull) == JNull && Get(f, "finished_at", JNull) == JNull
    ensures Get(f, "progress_pct", JNum(0.0)) == JNum(0.0) && Get(f, "progress_message", JNull) == JNull
    ensures Get(f, "outputs", JArr([])) == JArr([]) && Get(f, "error_message", JNull) == JNull
    ensures Get(f, "pid", JNull) == JNull && Get(f, "log_path", JNull) == JNull
  {
    hide Get, FirstFive;
    FieldOfFive(f, 0, JNull);
    FieldOfFive(f, 1, JNull);
    FieldOfFive(f, 2, JNull);
    FieldOfFive(f, 3, JNull);
    FieldOfFive(f, 4, JNull);
    FieldOfFive(f, 5, JNull);
    FieldOfFive(f, 6, JNull);
    FieldOfFive(f, 7, JNum(0.0));
    FieldOfFive(f, 8, JNull);
    FieldOfFive(f, 9, JArr([]));
    FieldOfFive(f, 10, JNull);
    FieldOfFive(f, 11, JNull);
    FieldOfFive(f, 12, JNull);
  }

  /** A record with those five and nothing else has the defaults for the rest. */
  lemma ShortestRecord(id: Id, jobType: string, payload: Json, createdAt: real, s: Status)
    ensures FromDict(JObj([("id", JStr(id)), ("type", JStr(jobType)), ("status", JStr(StatusName(s))),
                           ("payload", payload), ("created_at", JNum(createdAt))]))
         == Some(Job(id, jobType, s, payload, createdAt, None, None, 0.0, None, [], None, None, None))
  {
    var f := [("id", JStr(id)), ("type", JStr(jobType)), ("status", JStr(StatusName(s))),
              ("payload", payload), ("created_at", JNum(createdAt))];
    assert FirstFive(f);
    hide *;
    StatusRoundTrip(s);
    FiveAreEnough(f);
    EveryFieldOfFive(f);
    RebuiltFromFive(f, id, jobType, payload, createdAt, s);
  }

  lemma RebuiltFromFive(f: seq<(string, Json)>, id: Id, jobType: string, payload: Json, createdAt: real, s: Status)
    requires Callable(f, JOB_FIELDS, REQUIRED_FIELDS) && StatusNamed(StatusName(s)) == Some(s)
    requires Get(f, "id", JNull) == JStr(id) && Get(f, "type", JNull) == JStr(jobType)
    requires Get(f, "status", JNull) == JStr(StatusName(s))
    requires Get(f, "payload", JNull) == payload && Get(f, "created_at", JNull) == JNum(createdAt)
    requires Get(f, "started_at", JNull) == JNull && Get(f, "finished_at", JNull) == JNull
    requires Get(f, "progress_pct", JNum(0.0)) == JNum(0.0) && Get(f, "progress_message", JNull) == JNull
    requires Get(f, "outputs", JArr([])) == JArr([]) && Get(f, "error_message", JNull) == JNull
    requires Get(f, "pid", JNull) == JNull && Get(f, "log_path", JNull) == JNull
    ensures FromDict(JObj(f)) == Some(Job(id, jobType, s, payload, createdAt, None, None, 0.0, None, [], None, None, None))
  {
    assert OutputsFromDict([]) == Some([]);
    hide Get, StatusNamed, StatusName, Callable, OutputsFromDict;
  }
}
