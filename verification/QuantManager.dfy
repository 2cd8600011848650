/** The manager as an object: one method per step, each proved to be the step of the machine. */
module QuantManager {
  import opened Helpers
  import opened QuantJob
  import opened QuantSpec
  import opened QuantRuns
  import opened QuantStore

  // ---------------------------------------------------------------- what recovery does to one job

  const ORPHAN_NOTE := " / daemon restart (orphan)"

  function RecoverJob(j: Job, now: real): Job {
    match j.status
    case Running =>
      var earlier := if j.errorMessage.Some? then j.errorMessage.value else "";
      j.(status := Failed, errorMessage := Some(earlier + ORPHAN_NOTE), finishedAt := Some(now), pid := None)
    case Pending => j.(status := Queued)
    case _ => j
  }

  function Recovered(jobs: map<Id, Job>, now: real): map<Id, Job> {
    map id | id in jobs :: RecoverJob(jobs[id], now)
  }

  /** The jobs with those in `done` recovered and the others as before. */
  ghost predicate PartlyRecovered(before: map<Id, Job>, jobs: map<Id, Job>, done: seq<Id>, now: real) {
    && jobs.Keys == before.Keys
    && forall id :: id in before ==> jobs[id] == if id in done then RecoverJob(before[id], now) else before[id]
  }

  lemma RecoverOneMore(before: map<Id, Job>, jobs: map<Id, Job>, done: seq<Id>, id: Id, now: real)
    requires PartlyRecovered(before, jobs, done, now) && id in before && id !in done
    ensures id in jobs && jobs[id] == before[id]
    ensures PartlyRecovered(before, jobs[id := RecoverJob(jobs[id], now)], done + [id], now)
  {
    hide RecoverJob;
  }

  lemma NoneRecovered(order: seq<Id>, jobs: map<Id, Job>, now: real)
    requires RegistryOk(Registry(order, jobs))
    ensures PartlyRecovered(jobs, jobs, order[..0], now)
    ensures forall id :: id in order ==> id in jobs
    ensures Requeued(order[..0], jobs) == [] && KilledPids(order[..0], jobs) == []
  {
  }

  lemma OneOrderMore(order: seq<Id>, jobs: map<Id, Job>, i: nat)
    requires RegistryOk(Registry(order, jobs)) && i < |order|
    ensures order[i] in jobs && order[i] !in order[..i] && order[..i + 1] == order[..i] + [order[i]]
    ensures forall id :: id in order[..i + 1] ==> id in jobs
    ensures Requeued(order[..i + 1], jobs) == Requeued(order[..i], jobs) + if Resumes(jobs[order[i]]) then [order[i]] else []
    ensures KilledPids(order[..i + 1], jobs) == KilledPids(order[..i], jobs) + KilledBy(jobs[order[i]])
  {
    hide Resumes, KilledBy;
    assert order[i] in order && order[..i + 1][..i] == order[..i] && order[..i + 1][i] == order[i];
  }

  lemma AllRecovered(order: seq<Id>, before: map<Id, Job>, jobs: map<Id, Job>, now: real)
    requires RegistryOk(Registry(order, before)) && PartlyRecovered(before, jobs, order, now)
    ensures jobs == Recovered(before, now)
  {
    hide RecoverJob;
  }

  predicate Resumes(j: Job) {
    j.status == Queued || j.status == Pending
  }

  /** The ids put back in the queue, in stored order. */
  function Requeued(order: seq<Id>, jobs: map<Id, Job>): (ids: seq<Id>)
    requires forall id :: id in order ==> id in jobs
    ensures forall id :: id in ids <==> id in order && Resumes(jobs[id])
  {
    if order == [] then []
    else
      var last := order[|order| - 1];
      Requeued(order[..|order| - 1], jobs) + if Resumes(jobs[last]) then [last] else []
  }

  lemma {:induction false} RequeuedOnce(order: seq<Id>, jobs: map<Id, Job>)
    requires forall id :: id in order ==> id in jobs
    requires Distinct(order)
    ensures Distinct(Requeued(order, jobs))
  {
    if order != [] {
      var init, last := order[..|order| - 1], order[|order| - 1];
      RequeuedOnce(init, jobs);
      assert last !in init;
      assert last !in Requeued(init, jobs);
    }
  }

  /** They keep their order. */
  lemma {:induction false} RequeuedInOrder(order: seq<Id>, jobs: map<Id, Job>)
    requires forall id :: id in order ==> id in jobs
    ensures Subsequence(Requeued(order, jobs), order)
  {
    if order != [] {
      var init, last := order[..|order| - 1], order[|order| - 1];
      RequeuedInOrder(init, jobs);
      assert order == init + [last];
      SubsequenceGrows(Requeued(init, jobs), init, last);
      assert Requeued(init, jobs) + [] == Requeued(init, jobs);
    }
  }

  /** The process groups killed on the way: those of running jobs with a stored, non-zero pid. */
  function KilledPids(order: seq<Id>, jobs: map<Id, Job>): seq<int>
    requires forall id :: id in order ==> id in jobs
  {
    if order == [] then []
    else
      var last := jobs[order[|order| - 1]];
      KilledPids(order[..|order| - 1], jobs) + KilledBy(last)
  }

  /** Exactly the stored, non-zero pids of running jobs are killed. */
  lemma {:induction false} KilledAreTheOrphans(order: seq<Id>, jobs: map<Id, Job>, pid: int)
    requires forall id :: id in order ==> id in jobs
    ensures pid in KilledPids(order, jobs) <==>
      pid != 0 && exists id :: id in order && jobs[id].status == Running && jobs[id].pid == Some(pid)
  {
    if order != [] {
      var init, last := order[..|order| - 1], order[|order| - 1];
      KilledAreTheOrphans(init, jobs, pid);
      assert forall id :: id in order <==> id in init || id == last;
    }
  }

  function KilledBy(j: Job): seq<int> {
    if j.status == Running && j.pid.Some? && j.pid.value != 0 then [j.pid.value] else []
  }

  /** After recovery no job runs, every formerly running one has failed without a pid, every unstarted one is queued
      exactly once, and jobs that had ended are as they were. */
  lemma RecoveredIsBooted(order: seq<Id>, disk: map<Id, Job>, now: real, s: State)
    requires RegistryOk(Registry(order, disk))
    requires s.jobs == Recovered(disk, now) && s.queue == Requeued(order, disk)
    requires s.worker == Idle && s.published == [] && s.dispatched == 0 && s.consumers == map[]
    requires forall id :: id in s.streams ==> s.streams[id] == {}
    requires s.used == s.jobs.Keys
    requires s.endedBefore == set id | id in s.jobs && IsFinal(s.jobs[id].status)
    ensures Booted(s) && WellKept(s) && RegistryOk(Registry(order, s.jobs))
    ensures forall id :: id in disk ==> (id in s.jobs &&
      match disk[id].status
       case Running =>
         var earlier := if disk[id].errorMessage.Some? then disk[id].errorMessage.value else "";
         s.jobs[id] == disk[id].(status := Failed, errorMessage := Some(earlier + " / daemon restart (orphan)"),
                                 finishedAt := Some(now), pid := None)
       case Pending => s.jobs[id] == disk[id].(status := Queued)
       case _ => s.jobs[id] == disk[id])
  {
    hide Requeued, Inv, Distinct;
    RequeuedOnce(order, disk);
    forall id | id in disk ensures s.jobs[id].status == Queued <==> Resumes(disk[id]) {
    }
    BootedIsFine(s);
  }

  /** Recovering what recovery left changes nothing but the queue. */
  lemma RecoveredTwice(jobs: map<Id, Job>, now: real, later: real)
    ensures Recovered(Recovered(jobs, now), later) == Recovered(jobs, now)
  {
    forall id | id in jobs ensures RecoverJob(RecoverJob(jobs[id], now), later) == RecoverJob(jobs[id], now) {
    }
  }

  // ---------------------------------------------------------------- loading

  datatype Registry = Registry(order: seq<Id>, jobs: map<Id, Job>)

  /** `self._jobs[id] = job` on an insertion-ordered dictionary. */
  function Insert(r: Registry, j: Job): Registry {
    Registry(if j.id in r.jobs then r.order else r.order + [j.id], r.jobs[j.id := j])
  }

  /** Records are loaded in order; the first one that cannot be rebuilt ends the loading. */
  function Loaded(r: Registry, saved: seq<Json>): Registry
    decreases |saved|
  {
    if saved == [] || FromDict(saved[0]).None? then r else Loaded(Insert(r, FromDict(saved[0]).value), saved[1..])
  }

  ghost predicate RegistryOk(r: Registry) {
    && Distinct(r.order)
    && (forall id :: id in r.order <==> id in r.jobs)
    && (forall id :: id in r.jobs ==> r.jobs[id].id == id)
  }

  /** The registry after a new record, a changed one, and a deletion. */
  lemma NewRecordIsOk(r: Registry, id: Id, j: Job)
    requires RegistryOk(r) && id !in r.jobs && j.id == id
    ensures RegistryOk(Registry(r.order + [id], r.jobs[id := j]))
  {
    assert id !in r.order;
  }

  lemma ChangedRecordIsOk(r: Registry, id: Id, j: Job)
    requires RegistryOk(r) && id in r.jobs && j.id == id
    ensures RegistryOk(Registry(r.order, r.jobs[id := j]))
  {
  }

  lemma DeletedRecordIsOk(r: Registry, id: Id)
    requires RegistryOk(r)
    ensures RegistryOk(Registry(Without(r.order, id), r.jobs - {id}))
  {
    WithoutRemoves(r.order, id);
  }

  lemma {:induction false} LoadedIsOk(r: Registry, saved: seq<Json>)
    requires RegistryOk(r)
    ensures RegistryOk(Loaded(r, saved))
    decreases |saved|
  {
    hide FromDict;
    if saved != [] && FromDict(saved[0]).Some? {
      LoadedIsOk(Insert(r, FromDict(saved[0]).value), saved[1..]);
    }
  }

  /** `[j.to_dict() for j in jobs.values()]` */
  function Saved(r: Registry): seq<Json>
    requires forall id :: id in r.order ==> id in r.jobs
  {
    seq(|r.order|, k requires 0 <= k < |r.order| => assert r.order[k] in r.order; ToDict(r.jobs[r.order[k]]))
  }

  /** Loading what was saved gives the same jobs in the same order. */
  lemma LoadAfterSave(r: Registry)
    requires RegistryOk(r)
    ensures Loaded(Registry([], map[]), Saved(r)) == r
  {
    LoadRest(r, 0);
    assert Saved(r)[0..] == Saved(r) && Prefix(r, 0) == Registry([], map[]);
  }

  function Prefix(r: Registry, n: nat): Registry
    requires n <= |r.order| && forall id :: id in r.order ==> id in r.jobs
  {
    Registry(r.order[..n], map id | id in r.order[..n] :: r.jobs[id])
  }

  lemma {:induction false} LoadRest(r: Registry, n: nat)
    requires RegistryOk(r) && n <= |r.order|
    ensures Loaded(Prefix(r, n), Saved(r)[n..]) == r
    decreases |r.order| - n
  {
    hide FromDict, ToDict, Prefix, Insert;
    if n < |r.order| {
      assert r.order[n] in r.order;
      JobRoundTrip(r.jobs[r.order[n]]);
      PrefixGrows(r, n);
      LoadRest(r, n + 1);
      assert Saved(r)[n..][1..] == Saved(r)[n + 1..];
    } else {
      WholePrefix(r);
    }
  }

  lemma WholePrefix(r: Registry)
    requires RegistryOk(r)
    ensures Prefix(r, |r.order|) == r
  {
    assert r.order[..|r.order|] == r.order;
    assert Prefix(r, |r.order|).jobs == r.jobs;
  }

  lemma PrefixGrows(r: Registry, n: nat)
    requires RegistryOk(r) && n < |r.order| && r.order[n] in r.jobs
    ensures Insert(Prefix(r, n), r.jobs[r.order[n]]) == Prefix(r, n + 1)
  {
    var id := r.order[n];
    assert r.order[..n + 1] == r.order[..n] + [id];
    assert id !in r.order[..n];
    assert Insert(Prefix(r, n), r.jobs[id]).jobs == Prefix(r, n + 1).jobs;
  }

  // ---------------------------------------------------------------- the object

  class Manager {
    var order: seq<Id>
    var jobs: map<Id, Job>
    var queue: seq<Id>
    var worker: Worker
    var cancelRequests: set<Id>
    var published: seq<Published>
    var dispatched: nat
    var streams: map<Id, set<nat>>
    var consumers: map<nat, Consumer>
    ghost var used: set<Id>
    ghost var endedBefore: set<Id>

    ghost function View(): State
      reads this
    {
      State(jobs, queue, worker, cancelRequests, published, dispatched, streams, consumers, used, endedBefore)
    }

    ghost predicate Valid()
      reads this
    {
      RegistryOk(Registry(order, jobs)) && WellKept(View())
    }

    constructor ()
      ensures order == [] && jobs == map[] && queue == [] && worker == Idle && cancelRequests == {}
      ensures published == [] && dispatched == 0 && streams == map[] && consumers == map[]
    {
      order, jobs, queue, worker, cancelRequests := [], map[], [], Idle, {};
      published, dispatched, streams, consumers := [], 0, map[], map[];
      used, endedBefore := {}, {};
    }

    /** `_load_state` into an empty manager. */
    method LoadState(saved: seq<Json>)
      requires order == [] && jobs == map[]
      modifies this`order, this`jobs
      ensures Registry(order, jobs) == Loaded(Registry([], map[]), saved)
      ensures RegistryOk(Registry(order, jobs))
    {
      hide FromDict;
      LoadedIsOk(Registry([], map[]), saved);
      var i := 0;
      assert saved[0..] == saved;
      while i < |saved|
        invariant 0 <= i <= |saved|
        invariant Loaded(Registry(order, jobs), saved[i..]) == Loaded(Registry([], map[]), saved)
      {
        var parsed := FromDict(saved[i]);
        assert saved[i..][0] == saved[i] && saved[i..][1..] == saved[i + 1..];
        if parsed.None? {
          return;
        }
        var job := parsed.value;
        if job.id !in jobs {
          order := order + [job.id];
        }
        jobs := jobs[job.id := job];
        i := i + 1;
      }
    }

    /** One turn of the recovery loop; at most one process group is killed. */
    method RecoverOne(id: Id, now: real) returns (killed: seq<int>)
      requires id in jobs
      modifies this`jobs, this`queue, this`streams
      ensures jobs == old(jobs)[id := RecoverJob(old(jobs)[id], now)]
      ensures queue == old(queue) + if Resumes(old(jobs)[id]) then [id] else []
      ensures killed == KilledBy(old(jobs)[id])
      ensures streams == old(streams) || (id !in old(streams) && streams == old(streams)[id := {}])
    {
      killed := [];
      var j := jobs[id];
      if j.status == Running {
        if j.pid.Some? && j.pid.value != 0 {
          killed := [j.pid.value];
        }
        var earlier := if j.errorMessage.Some? then j.errorMessage.value else "";
        jobs := jobs[id := j.(status := Failed, errorMessage := Some(earlier + ORPHAN_NOTE),
                              finishedAt := Some(now), pid := None)];
      } else if j.status == Queued || j.status == Pending {
        jobs := jobs[id := j.(status := Queued)];
        queue := queue + [id];
        if id !in streams {
          streams := streams[id := {}];
        }
      }
    }

    /** `_recover_orphans`; the pids are those sent SIGKILL. */
    method RecoverOrphans(now: real) returns (killed: seq<int>)
      requires RegistryOk(Registry(order, jobs)) && queue == [] && streams == map[]
      modifies this`jobs, this`queue, this`streams
      ensures jobs == Recovered(old(jobs), now)
      ensures queue == Requeued(order, old(jobs))
      ensures killed == KilledPids(order, old(jobs))
      ensures forall id :: id in streams ==> streams[id] == {}
    {
      hide RecoverJob, KilledBy, Resumes, PartlyRecovered, Requeued, KilledPids, RegistryOk;
      killed := [];
      ghost var before := jobs;
      NoneRecovered(order, jobs, now);
      for i := 0 to |order|
        invariant forall id :: id in order ==> id in before
        invariant PartlyRecovered(before, jobs, order[..i], now)
        invariant queue == Requeued(order[..i], before)
        invariant killed == KilledPids(order[..i], before)
        invariant forall id :: id in streams ==> streams[id] == {}
      {
        OneOrderMore(order, before, i);
        RecoverOneMore(before, jobs, order[..i], order[i], now);
        var more := RecoverOne(order[i], now);
        killed := killed + more;
      }
      assert order[..|order|] == order;
      AllRecovered(order, before, jobs, now);
    }

    /** `start` in a fresh process: afterwards no job runs and every unstarted one is queued, once, in stored order. */
    method Start(saved: seq<Json>, now: real) returns (killed: seq<int>)
      requires order == [] && jobs == map[] && queue == [] && worker == Idle
      requires published == [] && dispatched == 0 && streams == map[] && consumers == map[]
      modifies this
      ensures Booted(View()) && Valid()
      ensures var disk := Loaded(Registry([], map[]), saved);
        && RegistryOk(disk)
        && order == disk.order && jobs == Recovered(disk.jobs, now)
        && queue == Requeued(disk.order, disk.jobs) && killed == KilledPids(disk.order, disk.jobs)
    {
      hide Loaded, KilledPids, Requeued, RecoverJob, WellKept;
      LoadState(saved);
      ghost var disk := jobs;
      killed := RecoverOrphans(now);
      used := jobs.Keys;
      endedBefore := set id | id in jobs && IsFinal(jobs[id].status);
      RecoveredIsBooted(order, disk, now, View());
    }

    /** The list written by `_save_state`. */
    method SaveState() returns (saved: seq<Json>)
      requires RegistryOk(Registry(order, jobs))
      ensures saved == Saved(Registry(order, jobs))
      ensures Loaded(Registry([], map[]), saved) == Registry(order, jobs)
    {
      hide ToDict;
      saved := [];
      for i := 0 to |order|
        invariant |saved| == i
        invariant forall k :: 0 <= k < i ==> order[k] in jobs && saved[k] == ToDict(jobs[order[k]])
      {
        assert order[i] in order;
        saved := saved + [ToDict(jobs[order[i]])];
      }
      LoadAfterSave(Registry(order, jobs));
    }

    // -------------------------------------------------------------- the steps

    /** `_publish`: the event is handed to the event loop. */
    method Announce(id: Id, e: Event)
      modifies this`published
      ensures published == old(published) + [Published(id, e)]
    {
      published := published + [Published(id, e)];
    }

    /** `submit_job`; `id` is a fresh random identifier. */
    method SubmitJob(id: Id, jobType: string, payload: Json, now: real) returns (accepted: bool)
      requires Valid() && id !in used
      modifies this`jobs, this`order, this`streams, this`cancelRequests, this`queue, this`used, this`published
      ensures Valid()
      ensures View() == Next(old(View()), Submit(id, jobType, payload, now))
      ensures accepted <==> jobType in {"quantize", "imatrix_build", "analyze_gguf", "calibration_build"}
      ensures order == if accepted then old(order) + [id] else old(order)
      ensures accepted ==>
        && jobs == old(jobs)[id := Job(id, jobType, Queued, payload, now, None, None, 0.0, None, [], None, None, None)]
        && queue == old(queue) + [id] && published == old(published) + [Published(id, QueuedEvent)]
        && streams == old(streams)[id := {}] && cancelRequests == old(cancelRequests) - {id}
      ensures !accepted ==> View() == old(View())
    {
      hide WellKept, Next, NewJob, IsFinal, RegistryOk, JOB_TYPES;
      StepKeepsAll(View(), Submit(id, jobType, payload, now));
      FreshIdIsNew(View(), id);
      NextSubmit(View(), id, jobType, payload, now);
      JobTypesAre(jobType);
      if jobType !in JOB_TYPES {
        return false;
      }
      var job := NewJob(id, jobType, payload, now);
      NewJobIs(id, jobType, payload, now);
      NewRecordIsOk(Registry(order, jobs), id, job);
      Enqueue(id, job);
      accepted := true;
    }

    /** What is stored of a new job before anybody else can run. */
    method Enqueue(id: Id, job: Job)
      modifies this`jobs, this`order, this`streams, this`cancelRequests, this`queue, this`used, this`published
      ensures jobs == old(jobs)[id := job] && order == old(order) + [id]
      ensures streams == old(streams)[id := {}] && cancelRequests == old(cancelRequests) - {id}
      ensures queue == old(queue) + [id] && used == old(used) + {id}
      ensures published == old(published) + [Published(id, QueuedEvent)]
    {
      jobs, order := jobs[id := job], order + [id];
      streams, cancelRequests := streams[id := {}], cancelRequests - {id};
      queue, used := queue + [id], used + {id};
      Announce(id, QueuedEvent);
    }

    method CancelJob(id: Id, now: real) returns (ok: bool)
      requires Valid()
      modifies this
      ensures Valid() && order == old(order)
      ensures View() == Next(old(View()), Cancel(id, now))
      ensures ok <==> id in old(jobs) && old(jobs)[id].status in {Queued, Running, Pending}
      ensures ok ==> cancelRequests == old(cancelRequests) + {id}
      ensures ok && old(jobs)[id].status == Queued ==>
        && jobs == old(jobs)[id := old(jobs)[id].(status := Cancelled, finishedAt := Some(now))]
        && published == old(published) + [Published(id, CancelledEvent)]
      ensures ok && old(jobs)[id].status != Queued ==> jobs == old(jobs) && published == old(published)
      ensures !ok ==> View() == old(View())
    {
      hide WellKept, Next, RegistryOk;
      StepKeepsAll(View(), Cancel(id, now));
      RecordHasItsId(View());
      NextStep(View(), Cancel(id, now));
      if id !in jobs || jobs[id].status !in {Queued, Running, Pending} {
        return false;
      }
      cancelRequests := cancelRequests + {id};
      if jobs[id].status == Queued {
        ChangedRecordIsOk(Registry(order, jobs), id, jobs[id].(status := Cancelled, finishedAt := Some(now)));
        jobs := jobs[id := jobs[id].(status := Cancelled, finishedAt := Some(now))];
        Announce(id, CancelledEvent);
      }
      ok := true;
    }

    method DeleteJob(id: Id) returns (ok: bool)
      requires Valid()
      modifies this
      ensures Valid()
      ensures View() == Next(old(View()), Delete(id))
      ensures ok <==> id in old(jobs) && old(jobs)[id].status !in {Running, Queued}
      ensures order == if ok then Without(old(order), id) else old(order)
      ensures ok ==> Subsequence(order, old(order)) && forall i :: i in order <==> i in old(order) && i != id
      ensures if ok then jobs == old(jobs) - {id} && streams == old(streams) - {id} && published == old(published)
              else View() == old(View())
    {
      hide WellKept, Next, RegistryOk;
      StepKeepsAll(View(), Delete(id));
      NextStep(View(), Delete(id));
      if id !in jobs || jobs[id].status in {Running, Queued} {
        return false;
      }
      DeletedRecordIsOk(Registry(order, jobs), id);
      WithoutRemoves(order, id);
      jobs := jobs - {id};
      order := Without(order, id);
      streams := streams - {id};
      cancelRequests := cancelRequests - {id};
      ok := true;
    }

    /** The worker's `queue.get()`. */
    method WorkerTake() returns (taken: bool)
      requires Valid()
      modifies this`queue, this`worker
      ensures Valid() && View() == Next(old(View()), Take)
      ensures taken <==> old(worker) == Idle && old(queue) != []
      ensures if taken then worker == Holding(old(queue)[0]) && queue == old(queue)[1..] else View() == old(View())
    {
      hide WellKept;
      StepKeepsAll(View(), Take);
      taken := worker.Idle? && queue != [];
      if taken {
        worker := Holding(queue[0]);
        queue := queue[1..];
      }
    }

    /** The worker looks the id up and starts the job, unless it is gone or cancelled. */
    method WorkerStart(now: real, log: string) returns (running: bool)
      requires Valid() && worker.Holding?
      modifies this`jobs, this`worker, this`published
      ensures Valid() && View() == Next(old(View()), QuantSpec.Start(now, log))
      ensures running <==> worker.Busy?
      ensures var id := old(worker).id;
        && (running <==> id in old(jobs) && old(jobs)[id].status != Cancelled)
        && (if running then
              && worker == Busy(id) && published == old(published) + [Published(id, StartedEvent)]
              && jobs == old(jobs)[id := old(jobs)[id].(status := Running, startedAt := Some(now), logPath := Some(log))]
            else worker == Idle && jobs == old(jobs) && published == old(published))
    {
      hide WellKept, Next, RegistryOk;
      StepKeepsAll(View(), QuantSpec.Start(now, log));
      RecordHasItsId(View());
      NextStep(View(), QuantSpec.Start(now, log));
      var id := worker.id;
      if id !in jobs || jobs[id].status == Cancelled {
        worker := Idle;
        return false;
      }
      var job := jobs[id].(status := Running, startedAt := Some(now), logPath := Some(log));
      ChangedRecordIsOk(Registry(order, jobs), id, job);
      jobs := jobs[id := job];
      worker := Busy(id);
      Announce(id, StartedEvent);
      running := true;
    }

    /** What the runner's callbacks write into the running job's record: progress, the subprocess, a finished output. */
    method UpdateRecord(change: Change)
      requires Valid() && worker.Busy?
      modifies this`jobs
      ensures Valid() && worker == old(worker) && View() == Next(old(View()), Update(change))
      ensures var id := worker.id;
        id in old(jobs) && jobs == old(jobs)[id := match change
          case SetProgress(pct, message) => old(jobs)[id].(progressPct := pct, progressMessage := Some(message))
          case SetPid(pid) => old(jobs)[id].(pid := pid)
          case AddOutput(output) => old(jobs)[id].(outputs := old(jobs)[id].outputs + [output])]
    {
      hide WellKept, Next, RegistryOk;
      StepKeepsAll(View(), Update(change));
      RunningRecordExists(View());
      NextOfRunner(View(), Update(change));
      var id := worker.id;
      ChangedRecordIsOk(Registry(order, jobs), id, Changed(jobs[id], change));
      match change {
        case SetProgress(pct, message) =>
          jobs := jobs[id := jobs[id].(progressPct := pct, progressMessage := Some(message))];
        case SetPid(pid) =>
          jobs := jobs[id := jobs[id].(pid := pid)];
        case AddOutput(output) =>
          jobs := jobs[id := jobs[id].(outputs := jobs[id].outputs + [output])];
      }
    }

    /** The runner says how far it is, or what it has skipped, started or finished. */
    method ReportStage(n: nat)
      requires Valid() && worker.Busy?
      modifies this`published
      ensures Valid() && View() == Next(old(View()), Report(n))
      ensures published == old(published) + [Published(worker.id, Progress(n))]
    {
      hide WellKept, Next, RegistryOk;
      StepKeepsAll(View(), Report(n));
      RunningRecordExists(View());
      NextOfRunner(View(), Report(n));
      Announce(worker.id, Progress(n));
    }

    /** A progress callback of the running job: the record first, then the event. */
    method ReportProgress(pct: real, message: string, n: nat)
      requires Valid() && worker.Busy?
      modifies this`jobs, this`published
      ensures Valid() && View() == Next(Next(old(View()), Update(SetProgress(pct, message))), Report(n))
    {
      hide WellKept, Next, RegistryOk;
      UpdateRecord(SetProgress(pct, message));
      ReportStage(n);
    }

    /** The end of `_run_job`: the runner returned normally.  It leaves the pid and the outputs as its callbacks did. */
    method RunnerReturned(cancelled: bool, now: real)
      requires Valid() && worker.Busy?
      modifies this`jobs, this`worker, this`published
      ensures Valid()
      ensures View() == Next(old(View()), if cancelled then FinishCancelled(now) else FinishDone(now))
      ensures var id := old(worker).id;
        && worker == Idle && id in old(jobs)
        && published == old(published) + [Published(id, if cancelled then CancelledEvent else DoneEvent)]
        && jobs == old(jobs)[id := if cancelled then old(jobs)[id].(status := Cancelled, finishedAt := Some(now))
                                   else old(jobs)[id].(status := Done, finishedAt := Some(now), progressPct := 100.0)]
    {
      hide WellKept, Next, RegistryOk;
      StepKeepsAll(View(), if cancelled then FinishCancelled(now) else FinishDone(now));
      RunningRecordExists(View());
      NextOfRunner(View(), if cancelled then FinishCancelled(now) else FinishDone(now));
      var id := worker.id;
      var job := jobs[id].(finishedAt := Some(now));
      if cancelled {
        job := job.(status := Cancelled);
      } else {
        job := job.(status := Done, progressPct := 100.0);
      }
      ChangedRecordIsOk(Registry(order, jobs), id, job);
      jobs := jobs[id := job];
      Announce(id, if cancelled then CancelledEvent else DoneEvent);
      worker := Idle;
    }

    /** The worker's exception handler. */
    method RunnerRaised(now: real, message: string)
      requires Valid() && worker.Busy?
      modifies this`jobs, this`worker, this`published
      ensures Valid() && View() == Next(old(View()), FinishFailed(now, message))
      ensures var id := old(worker).id;
        && worker == Idle && id in old(jobs) && published == old(published) + [Published(id, ErrorEvent(message))]
        && jobs == old(jobs)[id := old(jobs)[id].(status := Failed, finishedAt := Some(now), errorMessage := Some(message))]
    {
      hide WellKept, Next, RegistryOk;
      StepKeepsAll(View(), FinishFailed(now, message));
      RunningRecordExists(View());
      NextOfRunner(View(), FinishFailed(now, message));
      var id := worker.id;
      var job := jobs[id].(status := Failed, errorMessage := Some(message), finishedAt := Some(now));
      ChangedRecordIsOk(Registry(order, jobs), id, job);
      jobs := jobs[id := job];
      Announce(id, ErrorEvent(message));
      worker := Idle;
    }

    /** `_do_publish` of the oldest pending callback: every queue of the job is served in turn. */
    method DoPublish()
      requires Valid() && dispatched < |published|
      modifies this`dispatched, this`consumers
      ensures Valid() && View() == Next(old(View()), Dispatch)
    {
      hide WellKept, Offer, Next, RegistryOk, PartlyOffered;
      StepKeepsAll(View(), Dispatch);
      ghost var s := View();
      NextStep(s, Dispatch);
      StreamsHaveQueues(s);
      var p := published[dispatched];
      var todo := if p.job in streams then streams[p.job] else {};
      ghost var all := todo;
      NoneOffered(consumers, p.event);
      dispatched := dispatched + 1;
      assert all - todo == {};
      while todo != {}
        invariant todo <= all && dispatched == s.dispatched + 1
        invariant consumers.Keys == s.consumers.Keys && PartlyOffered(s.consumers, consumers, all - todo, p.event)
        decreases todo
      {
        var c :| c in todo;
        OfferOneMore(s.consumers, consumers, all - todo, c, p.event);
        PutOrDrop(c, p.event);
        assert all - (todo - {c}) == all - todo + {c};
        todo := todo - {c};
      }
      assert all - todo == all == StreamOf(s, p.job);
      AllOffered(s, consumers);
    }

    /** `stream`: a fresh bounded queue that starts with a snapshot of the job. */
    method Stream(id: Id, c: nat) returns (known: bool)
      requires Valid() && c !in consumers
      modifies this`streams, this`consumers
      ensures Valid() && View() == Next(old(View()), Subscribe(id, c))
      ensures known <==> id in jobs
      ensures known ==>
        && c in consumers && consumers[c].job == id && QuantSpec.View(consumers[c]) == [Snapshot(jobs[id])]
        && id in streams && streams[id] == (if id in old(streams) then old(streams)[id] else {}) + {c}
      ensures !known ==> View() == old(View())
    {
      hide WellKept, EventsOf, RegistryOk, Next;
      StepKeepsAll(View(), Subscribe(id, c));
      NextSubscribe(View(), id, c);
      known := id in jobs;
      if known {
        Attach(id, c, Snapshot(jobs[id]));
      }
    }

    /** The queue joins the job's list, with its first event in it. */
    method Attach(id: Id, c: nat, first: Event)
      modifies this`streams, this`consumers
      ensures streams == old(streams)[id := (if id in old(streams) then old(streams)[id] else {}) + {c}]
      ensures consumers == old(consumers)[c := Consumer(id, [first], [], [], first,
                                                        EventsOf(published[..Min(dispatched, |published|)], id), [])]
    {
      hide EventsOf;
      streams := streams[id := (if id in streams then streams[id] else {}) + {c}];
      consumers := consumers[c := Consumer(id, [first], [], [], first,
                                           EventsOf(published[..Min(dispatched, |published|)], id), [])];
    }

    method RemoveStream(c: nat)
      requires Valid()
      modifies this`streams
      ensures Valid() && View() == Next(old(View()), Unsubscribe(c))
      ensures c in consumers && consumers[c].job in streams ==> c !in streams[consumers[c].job]
    {
      hide WellKept;
      StepKeepsAll(View(), Unsubscribe(c));
      if c in consumers && consumers[c].job in streams {
        streams := streams[consumers[c].job := streams[consumers[c].job] - {c}];
      }
    }

    /** A waiting `put` goes through once there is room. */
    method SafePut(c: nat) returns (put: bool)
      requires Valid() && c in consumers
      modifies this`consumers
      ensures Valid() && View() == Next(old(View()), Deliver(c))
      ensures put <==> old(consumers)[c].blocked != [] && |old(consumers)[c].buffer| < CAPACITY
    {
      hide WellKept;
      StepKeepsAll(View(), Deliver(c));
      var q := consumers[c];
      put := q.blocked != [] && |q.buffer| < CAPACITY;
      if put {
        consumers := consumers[c := q.(buffer := q.buffer + [q.blocked[0]], blocked := q.blocked[1..])];
      }
    }

    /** A terminal event is queued to be put as soon as there is room; another is dropped when there is none. */
    method PutOrDrop(c: nat, e: Event)
      requires c in consumers
      modifies this`consumers
      ensures consumers == old(consumers)[c := Offer(old(consumers)[c], e)]
    {
      var q := consumers[c];
      if IsTerminal(e) {
        q := q.(blocked := q.blocked + [e]);
      } else if |q.buffer| < CAPACITY {
        q := q.(buffer := q.buffer + [e]);
      }
      consumers := consumers[c := q.(offered := q.offered + [e])];
    }
  }

  /** The queues with those in `done` offered the event and the others as before. */
  ghost predicate PartlyOffered(before: map<nat, Consumer>, after: map<nat, Consumer>, done: set<nat>, e: Event) {
    && after.Keys == before.Keys
    && forall c :: c in before ==> after[c] == if c in done then Offer(before[c], e) else before[c]
  }

  lemma NoneOffered(consumers: map<nat, Consumer>, e: Event)
    ensures PartlyOffered(consumers, consumers, {}, e)
  {
  }

  lemma OfferOneMore(before: map<nat, Consumer>, now: map<nat, Consumer>, done: set<nat>, c: nat, e: Event)
    requires PartlyOffered(before, now, done, e) && c in before && c !in done
    ensures c in now && PartlyOffered(before, now[c := Offer(now[c], e)], done + {c}, e)
  {
    hide Offer;
  }

  lemma AllOffered(s: State, after: map<nat, Consumer>)
    requires s.dispatched < |s.published|
    requires var p := s.published[s.dispatched]; PartlyOffered(s.consumers, after, StreamOf(s, p.job), p.event)
    ensures after == DispatchOne(s).consumers
  {
    hide Offer, StreamOf;
  }

  // What `Next` is for each action, so that the methods need not look at the others.

  lemma JobTypesAre(jobType: string)
    ensures jobType in JOB_TYPES <==> jobType in {"quantize", "imatrix_build", "analyze_gguf", "calibration_build"}
  {
  }

  lemma NewJobIs(id: Id, jobType: string, payload: Json, now: real)
    ensures NewJob(id, jobType, payload, now)
         == Job(id, jobType, Queued, payload, now, None, None, 0.0, None, [], None, None, None)
  {
  }

  lemma NextSubmit(s: State, id: Id, jobType: string, payload: Json, now: real)
    requires id !in s.used
    ensures Next(s, Submit(id, jobType, payload, now)) ==
            if jobType !in JOB_TYPES then s
            else State(s.jobs[id := NewJob(id, jobType, payload, now)], s.queue + [id], s.worker, s.cancelRequests - {id},
                       s.published + [Published(id, QueuedEvent)], s.dispatched, s.streams[id := {}], s.consumers,
                       s.used + {id}, s.endedBefore)
  {
    hide JOB_TYPES;
  }

  lemma NextSubscribe(s: State, id: Id, c: nat)
    requires c !in s.consumers
    ensures Next(s, Subscribe(id, c)) ==
      if id !in s.jobs then s
      else
        var first := Snapshot(s.jobs[id]);
        var sofar := EventsOf(s.published[..Min(s.dispatched, |s.published|)], id);
        s.(streams := s.streams[id := (if id in s.streams then s.streams[id] else {}) + {c}],
           consumers := s.consumers[c := Consumer(id, [first], [], [], first, sofar, [])])
  {
    hide EventsOf;
  }

  lemma NextOfRunner(s: State, a: Action)
    requires s.worker.Busy? && s.worker.id in s.jobs
    ensures var job := s.jobs[s.worker.id];
      match a
      case Update(change) => Next(s, a) == WithJob(s, Changed(job, change))
      case Report(n) => Next(s, a) == Publish(s, job.id, Progress(n))
      case FinishCancelled(now) =>
        Next(s, a) == FinishJob(s, job.(status := Cancelled, finishedAt := Some(now)), CancelledEvent)
      case FinishDone(now) =>
        Next(s, a) == FinishJob(s, job.(status := Done, progressPct := 100.0, finishedAt := Some(now)), DoneEvent)
      case FinishFailed(now, message) =>
        Next(s, a) == FinishJob(s, job.(status := Failed, errorMessage := Some(message), finishedAt := Some(now)), ErrorEvent(message))
      case _ => true
  {
  }

  lemma NextStep(s: State, a: Action)
    ensures match a
      case Cancel(id, now) => Next(s, a) == QuantSpec.CancelJob(s, id, now)
      case Delete(id) => Next(s, a) == QuantSpec.DeleteJob(s, id)
      case Start(now, log) => Next(s, a) == StartJob(s, now, log)
      case Dispatch => Next(s, a) == DispatchOne(s)
      case _ => true
  {
    hide DispatchOne;
  }

  function Without(order: seq<Id>, id: Id): seq<Id> {
    if order == [] then []
    else if order[0] == id then Without(order[1..], id) else [order[0]] + Without(order[1..], id)
  }

  lemma {:induction false} WithoutRemoves(order: seq<Id>, id: Id)
    ensures forall i :: i in Without(order, id) <==> i in order && i != id
    ensures Distinct(order) ==> Distinct(Without(order, id))
    ensures Subsequence(Without(order, id), order)
  {
    if order != [] {
      WithoutRemoves(order[1..], id);
      assert Distinct(order) ==> Distinct(order[1..]) && order[0] !in order[1..];
    }
  }

  lemma RecordHasItsId(s: State)
    requires WellKept(s)
    ensures forall id :: id in s.jobs ==> s.jobs[id].id == id
  {
    forall id | id in s.jobs ensures s.jobs[id].id == id {
      assert JobInv(s, id);
    }
  }

  lemma FreshIdIsNew(s: State, id: Id)
    requires WellKept(s) && id !in s.used
    ensures id !in s.jobs
  {
    assert id in s.jobs ==> JobInv(s, id);
  }

  lemma RunningRecordExists(s: State)
    requires WellKept(s) && s.worker.Busy?
    ensures s.worker.id in s.jobs && s.jobs[s.worker.id].id == s.worker.id
  {
    RunningRecord(s);
  }

  lemma StreamsHaveQueues(s: State)
    requires WellKept(s)
    ensures forall id, c :: id in s.streams && c in s.streams[id] ==> c in s.consumers
  {
    hide ConsumerInv;
  }
}
