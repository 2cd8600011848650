/** Jobs of the quantization manager and their JSON form (BRAIN-DAEMON/quantize/manager.py). */
module QuantJob {
  import opened Helpers

  type Id = string

  datatype Json =
    | JNull | JNum(n: real) | JInt(i: int) | JStr(s: string) | JBool(b: bool)
    | JArr(items: seq<Json>) | JObj(fields: seq<(string, Json)>)

  datatype Status = Pending | Queued | Running | Done | Failed | Cancelled

  datatype JobOutput = JobOutput(name: string, path: string, sizeBytes: int, presetName: string, warnings: seq<string>)

  datatype Job = Job(
    id: Id,
    jobType: string,
    status: Status,
    payload: Json,
    createdAt: real,
    startedAt: Option<real>,
    finishedAt: Option<real>,
    progressPct: real,
    progressMessage: Option<string>,
    outputs: seq<JobOutput>,
    errorMessage: Option<string>,
    pid: Option<int>,
    logPath: Option<string>)

  const JOB_TYPES: set<string> := {"quantize", "imatrix_build", "analyze_gguf", "calibration_build"}

  /** A freshly submitted job. */
  function NewJob(id: Id, jobType: string, payload: Json, now: real): (job: Job)
    ensures job.id == id && job.status == Queued
  {
    Job(id, jobType, Queued, payload, now, None, None, 0.0, None, [], None, None, None)
  }
}
