/** What every run of the manager keeps, and what follows for jobs and for clients. */
module QuantRuns {
  import opened Helpers
  import opened QuantJob
  import opened QuantSpec

  // ---------------------------------------------------------------- jobs

  /** A step that touches at most the record of job `id` (in a way `JobInv` accepts) and who waits or works. */
  lemma JobsKeptBy(s: State, t: State, id: Id)
    requires JobsInv(s)
    requires Distinct(Waiting(t)) && t.used == s.used
    requires forall i :: i in t.jobs && i != id ==> i in s.jobs && t.jobs[i] == s.jobs[i]
    requires forall i :: i != id ==> (i in Waiting(t) <==> i in Waiting(s))
    requires forall i :: i != id ==> (t.worker == Busy(i) <==> s.worker == Busy(i))
    requires id in Waiting(t) ==> id in s.used
    requires id in t.jobs ==> JobInv(t, id)
    requires t.worker.Busy? ==> t.worker.id in t.jobs
    ensures JobsInv(t)
  {
    forall i | i in t.jobs ensures JobInv(t, i) {
      if i != id {
        assert JobInv(s, i);
      }
    }
  }

  lemma SubmitKeepsJobs(s: State, id: Id, jobType: string, payload: Json, now: real)
    requires JobsInv(s) && id !in s.used
    ensures JobsInv(SubmitJob(s, id, jobType, payload, now))
  {
    var t := SubmitJob(s, id, jobType, payload, now);
    assert Waiting(t) == Waiting(s) + [id];
    forall i | i in t.jobs ensures JobInv(t, i) {
      assert i in s.jobs ==> JobInv(s, i);
    }
    assert s.worker.Busy? ==> JobInv(s, s.worker.id);
  }

  /** A step that leaves the jobs, the running worker and the waiting ids as they were. */
  lemma JobsUntouched(s: State, t: State)
    requires JobsInv(s)
    requires t.jobs == s.jobs && t.used == s.used && Waiting(t) == Waiting(s)
    requires s.worker.Busy? || t.worker.Busy? ==> t.worker == s.worker
    ensures JobsInv(t)
  {
    forall id | id in t.jobs ensures JobInv(t, id) {
      assert JobInv(s, id);
    }
  }

  lemma CancelKeepsJobs(s: State, id: Id, now: real)
    requires JobsInv(s)
    ensures JobsInv(CancelJob(s, id, now))
  {
    if id in s.jobs && s.jobs[id].status == Queued {
      assert JobInv(s, id);
      assert s.worker.Busy? ==> JobInv(s, s.worker.id);
      hide JobsInv;
      JobsKeptBy(s, CancelJob(s, id, now), id);
    } else {
      hide JobsInv;
      JobsUntouched(s, CancelJob(s, id, now));
    }
  }

  lemma DeleteKeepsJobs(s: State, id: Id)
    requires JobsInv(s)
    ensures JobsInv(DeleteJob(s, id))
  {
    var t := DeleteJob(s, id);
    assert id in s.jobs ==> JobInv(s, id);
    assert s.worker.Busy? ==> JobInv(s, s.worker.id);
    JobsKeptBy(s, t, id);
  }

  lemma StartKeepsJobs(s: State, now: real, log: string)
    requires JobsInv(s)
    ensures JobsInv(StartJob(s, now, log))
  {
    if s.worker.Holding? {
      var t, id := StartJob(s, now, log), s.worker.id;
      assert Waiting(s)[0] == id;
      assert id !in s.queue by {
        forall i | 0 <= i < |s.queue| ensures s.queue[i] != id {
          assert Waiting(s)[i + 1] == s.queue[i];
        }
      }
      assert Distinct(Waiting(t)) by {
        assert Waiting(t) == Waiting(s)[1..];
      }
      assert id in s.jobs ==> JobInv(s, id);
      assert forall i :: i in Waiting(s) <==> i == id || i in s.queue;
      JobsKeptBy(s, t, id);
    }
  }

  lemma FinishKeepsJobs(s: State, job: Job, e: Event)
    requires JobsInv(s) && s.worker == Busy(job.id)
    requires job.status in {Done, Failed, Cancelled}
    ensures JobsInv(FinishJob(s, job, e))
  {
    assert JobInv(s, job.id);
    JobsKeptBy(s, FinishJob(s, job, e), job.id);
  }

  predicate IsRunnerAction(a: Action) {
    a.Update? || a.Report? || a.Beat? || a.FinishDone? || a.FinishCancelled? || a.FinishFailed?
  }

  /** The event that goes with a step of the runner, unless it only updates the record. */
  function RunnerEvent(a: Action): Event {
    match a
    case Report(n) => Progress(n)
    case FinishDone(_) => DoneEvent
    case FinishCancelled(_) => CancelledEvent
    case FinishFailed(_, message) => ErrorEvent(message)
    case _ => Heartbeat
  }

  /** The record a runner leaves when it is through with its job. */
  function FinalRecord(job: Job, a: Action): Job {
    match a
    case FinishDone(now) => job.(status := Done, progressPct := 100.0, finishedAt := Some(now))
    case FinishCancelled(now) => job.(status := Cancelled, finishedAt := Some(now))
    case FinishFailed(now, message) => job.(status := Failed, finishedAt := Some(now), errorMessage := Some(message))
    case _ => job
  }

  predicate EndsTheJob(a: Action) {
    a.FinishDone? || a.FinishCancelled? || a.FinishFailed?
  }

  lemma RunnerEnds(s: State, job: Job, a: Action)
    requires EndsTheJob(a)
    ensures RunnerStep(s, job, a) == FinishJob(s, FinalRecord(job, a), RunnerEvent(a))
    ensures FinalRecord(job, a).id == job.id && FinalRecord(job, a).status in {Done, Failed, Cancelled}
  {
    hide FinishJob;
  }

  /** Updates, progress and heartbeats leave status and id of the running job alone. */
  lemma RunnerGoesOn(s: State, job: Job, a: Action)
    requires JobsInv(s) && RunningJob(s) == Some(job) && !EndsTheJob(a)
    ensures JobsInv(RunnerStep(s, job, a))
  {
    RunningRecord(s);
    assert s.worker == Busy(job.id) && job.id in s.jobs && s.jobs[job.id] == job;
    hide JobsInv, RunningJob;
    if a.Update? {
      UpdateKeepsJobs(s, RunnerStep(s, job, a));
    } else {
      JobsUntouched(s, RunnerStep(s, job, a));
    }
  }

  lemma RunnerKeepsJobs(s: State, job: Job, a: Action)
    requires JobsInv(s) && RunningJob(s) == Some(job)
    ensures JobsInv(RunnerStep(s, job, a))
  {
    if EndsTheJob(a) {
      RunningRecord(s);
      assert s.worker == Busy(job.id);
      hide *;
      RunnerEnds(s, job, a);
      FinishKeepsJobs(s, FinalRecord(job, a), RunnerEvent(a));
    } else {
      hide *;
      RunnerGoesOn(s, job, a);
    }
  }

  lemma JobsKept(s: State, a: Action)
    requires JobsInv(s)
    ensures JobsInv(Next(s, a))
  {
    var t := Next(s, a);
    hide JobsInv, SubmitJob, CancelJob, DeleteJob, StartJob, RunnerStep, RunningJob, Waiting, Offer, EventsOf;
    match a {
      case Submit(id, jobType, payload, now) =>
        if id !in s.used {
          SubmitKeepsJobs(s, id, jobType, payload, now);
        }
      case Cancel(id, now) => CancelKeepsJobs(s, id, now);
      case Delete(id) => DeleteKeepsJobs(s, id);
      case Take => TakeKeepsJobs(s);
      case Start(now, log) => StartKeepsJobs(s, now, log);
      case Dispatch => FanStepsKeepJobs(s, a);
      case Subscribe(_, _) => FanStepsKeepJobs(s, a);
      case Unsubscribe(_) => FanStepsKeepJobs(s, a);
      case Deliver(_) => FanStepsKeepJobs(s, a);
      case Drain(_) => FanStepsKeepJobs(s, a);
      case _ =>
        if RunningJob(s).Some? {
          RunnerKeepsJobs(s, RunningJob(s).value, a);
        }
    }
  }

  lemma TakeKeepsJobs(s: State)
    requires JobsInv(s)
    ensures JobsInv(TakeNext(s))
  {
    var t := TakeNext(s);
    assert t != s ==> Waiting(t) == Waiting(s);
    hide JobsInv;
    JobsUntouched(s, t);
  }

  predicate OnlyMovesEvents(a: Action) {
    a.Dispatch? || a.Subscribe? || a.Unsubscribe? || a.Deliver? || a.Drain?
  }

  lemma FanStepsKeepJobs(s: State, a: Action)
    requires JobsInv(s) && OnlyMovesEvents(a)
    ensures JobsInv(Next(s, a))
  {
    hide JobsInv, Offer, EventsOf;
    JobsUntouched(s, Next(s, a));
  }

  lemma RunningRecord(s: State)
    requires JobsInv(s) && s.worker.Busy?
    ensures s.worker.id in s.jobs && s.jobs[s.worker.id].id == s.worker.id && s.jobs[s.worker.id].status == Running
  {
    assert JobInv(s, s.worker.id);
  }

  lemma UpdateKeepsJobs(s: State, t: State)
    requires JobsInv(s) && s.worker.Busy?
    requires t.used == s.used && t.worker == s.worker && t.queue == s.queue
    requires s.worker.id in t.jobs && t.jobs == s.jobs[s.worker.id := t.jobs[s.worker.id]]
    requires t.jobs[s.worker.id].id == s.worker.id && t.jobs[s.worker.id].status == Running
    ensures JobsInv(t)
  {
    RunningRecord(s);
    assert JobInv(s, s.worker.id);
    JobsKeptBy(s, t, s.worker.id);
  }

  // ---------------------------------------------------------------- statuses

  predicate IsFinal(status: Status) {
    status in {Done, Failed, Cancelled}
  }

  /** Steps on behalf of a client or of the worker between two jobs touch no record that has ended. */
  lemma IdleStepsKeepFinal(s: State, a: Action, id: Id)
    requires id in s.jobs && id in s.used && IsFinal(s.jobs[id].status)
    requires s.worker == Holding(id) ==> s.jobs[id].status == Cancelled
    requires forall i :: i in s.jobs ==> s.jobs[i].id == i
    requires a.Submit? || a.Cancel? || a.Delete? || a.Take? || a.Start?
    ensures var t := Next(s, a); id in t.jobs ==> t.jobs[id].status == s.jobs[id].status
  {
    hide NewJob;
  }

  lemma RunnerStepsKeepFinal(s: State, a: Action, id: Id)
    requires JobsInv(s) && id in s.jobs && IsFinal(s.jobs[id].status) && IsRunnerAction(a)
    ensures var t := Next(s, a); id in t.jobs ==> t.jobs[id].status == s.jobs[id].status
  {
    assert JobInv(s, id);
    NextRunner(s, a);
    if s.worker.Busy? {
      RunningRecord(s);
      var job := s.jobs[s.worker.id];
      assert job.id != id;
      hide JobsInv, JobInv, RunnerStep, Next, IsFinal;
      RunnerChangesOneRecord(s, job, a);
    }
  }

  /** What the invariant says of a record that has ended and of the job in the worker's hand. */
  lemma FinalFacts(s: State, id: Id)
    requires JobsInv(s) && id in s.jobs && IsFinal(s.jobs[id].status)
    ensures id in s.used && (s.worker == Holding(id) ==> s.jobs[id].status == Cancelled)
    ensures forall i :: i in s.jobs ==> s.jobs[i].id == i
  {
    assert JobInv(s, id);
    forall i | i in s.jobs ensures s.jobs[i].id == i {
      assert JobInv(s, i);
    }
    if s.worker == Holding(id) {
      assert Waiting(s)[0] == id;
    }
  }

  /** No step takes a job out of a terminal status; it can only be deleted. */
  lemma FinalStatusKept(s: State, a: Action, id: Id)
    requires JobsInv(s) && id in s.jobs && IsFinal(s.jobs[id].status)
    ensures var t := Next(s, a); id in t.jobs ==> t.jobs[id].status == s.jobs[id].status
  {
    hide JobsInv, Next, IsFinal;
    FinalFacts(s, id);
    if IsRunnerAction(a) {
      RunnerStepsKeepFinal(s, a, id);
    } else if OnlyMovesEvents(a) {
      FanStepsKeepRecords(s, a);
    } else {
      IdleStepsKeepFinal(s, a, id);
    }
  }

  lemma FanStepsKeepRecords(s: State, a: Action)
    requires OnlyMovesEvents(a)
    ensures Next(s, a).jobs == s.jobs
  {
    hide Offer, EventsOf;
  }

  lemma RunnerChangesOneRecord(s: State, job: Job, a: Action)
    ensures forall id :: id != job.id && id in s.jobs ==>
      id in RunnerStep(s, job, a).jobs && RunnerStep(s, job, a).jobs[id] == s.jobs[id]
  {
    if EndsTheJob(a) {
      RunnerEnds(s, job, a);
      hide RunnerStep, FinalRecord, RunnerEvent;
    } else {
      hide FinishJob, Changed;
    }
  }

  lemma {:induction false} FinalForever(s: State, actions: seq<Action>, id: Id)
    requires JobsInv(s) && id in s.used && (id in s.jobs ==> IsFinal(s.jobs[id].status))
    ensures var t := Run(s, actions);
      id in t.jobs ==> id in s.jobs && t.jobs[id].status == s.jobs[id].status
    decreases |actions|
  {
    hide JobsInv, Next;
    if actions != [] {
      var t := Next(s, actions[0]);
      JobsKept(s, actions[0]);
      GoneStaysGone(s, actions[0], id);
      if id in s.jobs {
        FinalStatusKept(s, actions[0], id);
      }
      FinalForever(t, actions[1..], id);
    }
  }

  /** Ids are never used twice: what is not there any more does not come back. */
  lemma GoneStaysGone(s: State, a: Action, id: Id)
    requires JobsInv(s) && id in s.used
    ensures id in Next(s, a).used
    ensures id !in s.jobs ==> id !in Next(s, a).jobs
  {
    RecordsHaveTheirIds(s);
    if IsRunnerAction(a) {
      if s.worker.Busy? {
        RunningRecord(s);
      }
      hide JobsInv, Next, Changed;
      NextRunner(s, a);
    } else if OnlyMovesEvents(a) {
      hide JobsInv, Next;
      FanStepsKeepRecords(s, a);
      FanStepsKeepUsed(s, a);
    } else {
      hide JobsInv, Next;
      IdleStepsBringNothingBack(s, a, id);
    }
  }

  lemma IdleStepsBringNothingBack(s: State, a: Action, id: Id)
    requires !IsRunnerAction(a) && !OnlyMovesEvents(a) && id in s.used
    requires forall i :: i in s.jobs ==> s.jobs[i].id == i
    ensures id in Next(s, a).used
    ensures id !in s.jobs ==> id !in Next(s, a).jobs
  {
    hide NewJob, DispatchOne, AddQueue, DropQueue, DeliverOne, DrainOne, RunningJob, RunnerStep, JOB_TYPES;
  }

  lemma RecordsHaveTheirIds(s: State)
    requires JobsInv(s)
    ensures forall i :: i in s.jobs ==> s.jobs[i].id == i
  {
    forall i | i in s.jobs ensures s.jobs[i].id == i {
      assert JobInv(s, i);
    }
  }

  lemma FanStepsKeepUsed(s: State, a: Action)
    requires OnlyMovesEvents(a)
    ensures Next(s, a).used == s.used
  {
    hide Offer, EventsOf;
  }

  // ---------------------------------------------------------------- events

  /** A step that publishes `e` for `id` and touches at most that job's status. */
  lemma EventsKeptBy(s: State, t: State, id: Id, e: Event)
    requires EventsInv(s)
    requires t.published == s.published + [Published(id, e)] && t.endedBefore == s.endedBefore
    requires id in t.used && t.used == s.used + {id}
    requires forall i :: i in t.jobs && i != id ==> i in s.jobs && t.jobs[i].status == s.jobs[i].status
    requires (id in s.jobs && s.jobs[id].status in {Queued, Running}) || id !in s.used
    requires id in t.jobs && id !in t.endedBefore
    requires if IsTerminal(e) then Ends(e, t.jobs[id].status) else t.jobs[id].status in {Queued, Running}
    ensures EventsInv(t)
  {
    assert EventInv(s, id);
    forall i ensures EventInv(t, i) {
      EventsOfPublish(s.published, Published(id, e), i);
      assert EventInv(s, i);
    }
  }

  /** A step that publishes nothing and leaves every remaining job's status alone. */
  lemma EventsUntouched(s: State, t: State)
    requires EventsInv(s)
    requires t.published == s.published && t.endedBefore == s.endedBefore && s.used <= t.used
    requires forall i :: i in t.jobs ==> i in s.jobs && t.jobs[i].status == s.jobs[i].status
    ensures EventsInv(t)
  {
    hide EventsOf;
    forall i ensures EventInv(t, i) {
      assert EventInv(s, i);
    }
  }

  lemma StartKeepsEvents(s: State, now: real, log: string)
    requires JobsInv(s) && EventsInv(s)
    ensures EventsInv(StartJob(s, now, log))
  {
    hide EventsOf;
    var t := StartJob(s, now, log);
    if s.worker.Holding? && s.worker.id in s.jobs {
      var id := s.worker.id;
      assert Waiting(s)[0] == id;
      assert JobInv(s, id) && EventInv(s, id);
      if s.jobs[id].status != Cancelled {
        EventsKeptBy(s, t, id, StartedEvent);
      } else {
        EventsUntouched(s, t);
      }
    } else {
      EventsUntouched(s, t);
    }
  }

  lemma CancelKeepsEvents(s: State, id: Id, now: real)
    requires JobsInv(s) && EventsInv(s)
    ensures EventsInv(CancelJob(s, id, now))
  {
    hide EventsOf;
    if id in s.jobs && s.jobs[id].status == Queued {
      assert JobInv(s, id) && EventInv(s, id);
      EventsKeptBy(s, CancelJob(s, id, now), id, CancelledEvent);
    } else {
      EventsUntouched(s, CancelJob(s, id, now));
    }
  }

  lemma SubmitKeepsEvents(s: State, id: Id, jobType: string, payload: Json, now: real)
    requires EventsInv(s) && id !in s.used && s.endedBefore <= s.used
    ensures EventsInv(SubmitJob(s, id, jobType, payload, now))
  {
    hide EventsOf;
    EventsKeptBy(s, SubmitJob(s, id, jobType, payload, now), id, QueuedEvent);
  }

  lemma EventsKept(s: State, a: Action)
    requires JobsInv(s) && EventsInv(s) && s.endedBefore <= s.used
    ensures EventsInv(Next(s, a))
  {
    hide SubmitJob, CancelJob, StartJob, EventsInv, JobsInv, Offer, RunnerStep, EventsOf;
    match a {
      case Submit(id, jobType, payload, now) =>
        if id !in s.used && jobType in JOB_TYPES {
          SubmitKeepsEvents(s, id, jobType, payload, now);
        }
      case Cancel(id, now) => CancelKeepsEvents(s, id, now);
      case Start(now, log) => StartKeepsEvents(s, now, log);
      case Update(_) => RunnerKeepsEvents(s, a);
      case Report(_) => RunnerKeepsEvents(s, a);
      case Beat => RunnerKeepsEvents(s, a);
      case FinishDone(_) => RunnerKeepsEvents(s, a);
      case FinishCancelled(_) => RunnerKeepsEvents(s, a);
      case FinishFailed(_, _) => RunnerKeepsEvents(s, a);
      case _ => EventsUntouched(s, Next(s, a));
    }
  }

  lemma RunnerPublishes(s: State, job: Job, a: Action)
    requires IsRunnerAction(a) && !a.Update? && job.id in s.jobs && s.jobs[job.id] == job && job.status == Running
    ensures var t, e := RunnerStep(s, job, a), RunnerEvent(a);
      && t.published == s.published + [Published(job.id, e)] && t.endedBefore == s.endedBefore && t.used == s.used
      && job.id in t.jobs && t.jobs == s.jobs[job.id := t.jobs[job.id]]
      && (if IsTerminal(e) then Ends(e, t.jobs[job.id].status) else t.jobs[job.id].status == Running)
  {
    assert s.jobs == s.jobs[job.id := job];
  }

  lemma RunnerKeepsEvents(s: State, a: Action)
    requires JobsInv(s) && EventsInv(s) && IsRunnerAction(a)
    ensures EventsInv(Next(s, a))
  {
    NextRunner(s, a);
    if s.worker.Busy? {
      RunningRecord(s);
      var job := s.jobs[s.worker.id];
      if a.Update? {
        hide JobsInv, EventsInv, Next, Changed;
        EventsUntouched(s, RunnerStep(s, job, a));
      } else {
        hide JobsInv, EventsInv, Next, RunnerStep, RunnerEvent;
        RunnerPublishes(s, job, a);
        ActiveKeepsEvents(s, RunnerStep(s, job, a), RunnerEvent(a));
      }
    }
  }

  lemma NextRunner(s: State, a: Action)
    requires IsRunnerAction(a)
    ensures Next(s, a) == if RunningJob(s).Some? then RunnerStep(s, RunningJob(s).value, a) else s
  {
    hide RunnerStep;
  }

  /** Any event the running job publishes, with the status that goes with it. */
  lemma ActiveKeepsEvents(s: State, t: State, e: Event)
    requires JobsInv(s) && EventsInv(s) && s.worker.Busy? && s.worker.id in t.jobs
    requires t.published == s.published + [Published(s.worker.id, e)]
    requires t.endedBefore == s.endedBefore && t.used == s.used
    requires t.jobs == s.jobs[s.worker.id := t.jobs[s.worker.id]]
    requires if IsTerminal(e) then Ends(e, t.jobs[s.worker.id].status) else t.jobs[s.worker.id].status == Running
    ensures EventsInv(t)
  {
    hide EventsOf;
    assert JobInv(s, s.worker.id) && EventInv(s, s.worker.id);
    EventsKeptBy(s, t, s.worker.id, e);
  }

  // ---------------------------------------------------------------- consumers

  /** Steps that leave every consumer alone, publish at most more, and close streams or open empty ones. */
  lemma FanUntouched(s: State, t: State)
    requires FanInv(s)
    requires t.consumers == s.consumers && t.dispatched == s.dispatched && s.published <= t.published
    requires forall id :: StreamOf(t, id) <= StreamOf(s, id)
    ensures FanInv(t)
  {
    assert t.published[..t.dispatched] == s.published[..s.dispatched];
    hide Kept, EventsOf, View;
    forall c | c in t.consumers ensures ConsumerInv(t, c) {
      assert ConsumerInv(s, c);
    }
    forall id, c | id in t.streams && c in t.streams[id] ensures c in t.consumers && t.consumers[c].job == id {
      assert c in StreamOf(t, id) && c in StreamOf(s, id);
    }
  }

  /** While its terminal event still waits for room, nothing more is dispatched to a queue. */
  lemma NothingAfterBlocked(s: State, c: nat)
    requires FanInv(s) && EventsInv(s) && s.dispatched < |s.published| && c in s.consumers
    requires var p := s.published[s.dispatched]; s.consumers[c].job == p.job && c in StreamOf(s, p.job)
    ensures s.consumers[c].blocked == []
  {
    hide EventsOf, Kept, View;
    var q, p := s.consumers[c], s.published[s.dispatched];
    assert ConsumerInv(s, c) && EventInv(s, q.job);
    var sofar := EventsOf(s.published[..s.dispatched], q.job);
    var all := EventsOf(s.published, q.job);
    EventsOfPublish(s.published[..s.dispatched], p, q.job);
    assert s.published[..s.dispatched + 1] == s.published[..s.dispatched] + [p];
    EventsOfPrefix(s.published, s.dispatched + 1, q.job);
    hide EventsInv, FanInv, ConsumerInv, EventInv;
    NoTerminalBeforeMore(all, sofar, q.before, q.offered, p.event);
  }

  lemma NoTerminalBeforeMore(all: seq<Event>, sofar: seq<Event>, before: seq<Event>, offered: seq<Event>, e: Event)
    requires TerminalOnlyLast(all) && sofar + [e] <= all && sofar == before + offered
    ensures offered != [] ==> !IsTerminal(offered[|offered| - 1])
  {
    if offered != [] {
      var k := |sofar| - 1;
      assert all[k] == (sofar + [e])[k] == sofar[k] == offered[|offered| - 1];
    }
  }

  lemma OfferKeepsView(q: Consumer, e: Event)
    requires q.blocked == [] && View(q) != [] && Kept(View(q)[1..], q.offered) && |q.buffer| <= CAPACITY
    ensures var r := Offer(q, e);
      && |r.buffer| <= CAPACITY
      && View(r) != [] && View(r)[0] == View(q)[0] && Kept(View(r)[1..], r.offered)
      && r.offered == q.offered + [e]
  {
    var r := Offer(q, e);
    OfferMovesView(q, e);
    hide Offer, View, Kept;
    if View(r) != View(q) {
      assert View(r)[1..] == View(q)[1..] + [e];
      KeptGrows(View(q)[1..], q.offered, e);
    } else {
      KeptMisses(View(q)[1..], q.offered, e);
    }
  }

  lemma OfferMovesView(q: Consumer, e: Event)
    requires q.blocked == [] && |q.buffer| <= CAPACITY
    ensures var r := Offer(q, e);
      && |r.buffer| <= CAPACITY && r.offered == q.offered + [e]
      && (View(r) == View(q) + [e] || (View(r) == View(q) && !IsTerminal(e)))
  {
    var r := Offer(q, e);
    if IsTerminal(e) || |q.buffer| < CAPACITY {
      assert View(r) == View(q) + [e];
    }
  }

  lemma KeptGrows(kept: seq<Event>, offered: seq<Event>, e: Event)
    requires Kept(kept, offered)
    ensures Kept(kept + [e], offered + [e])
  {
    assert (offered + [e])[..|offered|] == offered && (kept + [e])[..|kept|] == kept;
  }

  lemma KeptMisses(kept: seq<Event>, offered: seq<Event>, e: Event)
    requires Kept(kept, offered) && !IsTerminal(e)
    ensures Kept(kept, offered + [e])
  {
    assert (offered + [e])[..|offered|] == offered;
  }

  /** What dispatching one more event does to the history of job `id`. */
  lemma HistoryGrows(s: State, id: Id)
    requires s.dispatched < |s.published|
    ensures var p, t := s.published[s.dispatched], DispatchOne(s);
            var sofar := EventsOf(s.published[..s.dispatched], id);
      EventsOf(t.published[..t.dispatched], id) == if p.job == id then sofar + [p.event] else sofar
  {
    EventsOfPublish(s.published[..s.dispatched], s.published[s.dispatched], id);
    hide EventsOf;
    assert s.published[..s.dispatched + 1] == s.published[..s.dispatched] + [s.published[s.dispatched]];
  }

  lemma ServedConsumerFine(s: State, c: nat)
    requires FanInv(s) && EventsInv(s) && s.dispatched < |s.published|
    requires c in StreamOf(s, s.published[s.dispatched].job)
    ensures c in DispatchOne(s).consumers && ConsumerInv(DispatchOne(s), c)
  {
    assert c in s.consumers && ConsumerInv(s, c);
    hide EventsInv, FanInv, ConsumerInv, EventsOf, Kept, View, Offer, DispatchOne;
    NothingAfterBlocked(s, c);
    DispatchServes(s, c);
    HistoryGrows(s, s.consumers[c].job);
    hide StreamOf;
    OfferedConsumerFine(s, DispatchOne(s), c, s.published[s.dispatched].event);
  }

  /** What a dispatch does to a queue on the list. */
  lemma DispatchServes(s: State, c: nat)
    requires s.dispatched < |s.published| && c in s.consumers && c in StreamOf(s, s.published[s.dispatched].job)
    ensures var t := DispatchOne(s);
      && t.published == s.published && t.streams == s.streams && t.dispatched == s.dispatched + 1
      && c in t.consumers && t.consumers[c] == Offer(s.consumers[c], s.published[s.dispatched].event)
      && forall id :: StreamOf(t, id) == StreamOf(s, id)
  {
    hide Offer;
  }

  lemma OfferedConsumerFine(s: State, t: State, c: nat, e: Event)
    requires s.dispatched <= |s.published| && t.dispatched <= |t.published| && c in s.consumers && c in t.consumers
    requires ConsumerInv(s, c) && s.consumers[c].blocked == [] && t.consumers[c] == Offer(s.consumers[c], e)
    requires c in StreamOf(s, s.consumers[c].job) && c in StreamOf(t, s.consumers[c].job)
    requires EventsOf(t.published[..t.dispatched], s.consumers[c].job)
          == EventsOf(s.published[..s.dispatched], s.consumers[c].job) + [e]
    ensures ConsumerInv(t, c)
  {
    hide EventsOf, Kept, View, StreamOf;
    var q := s.consumers[c];
    OfferKeepsView(q, e);
    Regroup(q.before, q.offered, [e]);
  }

  lemma OtherConsumerFine(s: State, c: nat)
    requires FanInv(s) && s.dispatched < |s.published| && c in s.consumers
    requires c !in StreamOf(s, s.published[s.dispatched].job)
    ensures ConsumerInv(DispatchOne(s), c)
  {
    assert ConsumerInv(s, c);
    var q := s.consumers[c];
    assert DispatchOne(s).consumers[c] == q;
    HistoryGrows(s, q.job);
    hide FanInv, EventsOf, Kept, View;
  }

  lemma DispatchKeepsConsumer(s: State, c: nat)
    requires FanInv(s) && EventsInv(s) && s.dispatched < |s.published| && c in s.consumers
    ensures ConsumerInv(DispatchOne(s), c)
  {
    hide FanInv, EventsInv, ConsumerInv, DispatchOne;
    if c in StreamOf(s, s.published[s.dispatched].job) {
      ServedConsumerFine(s, c);
    } else {
      OtherConsumerFine(s, c);
    }
  }

  lemma NewConsumerFine(s: State, id: Id, c: nat)
    requires FanInv(s) && id in s.jobs && c !in s.consumers
    ensures c in AddQueue(s, id, c).consumers && ConsumerInv(AddQueue(s, id, c), c)
  {
    hide EventsOf;
    var q := AddQueue(s, id, c).consumers[c];
    assert s.published[..Min(s.dispatched, |s.published|)] == s.published[..s.dispatched];
    assert View(q) == [q.snapshot] && View(q)[1..] == [] && q.before + [] == q.before;
  }

  lemma SubscribeKeepsOthers(s: State, id: Id, c: nat, d: nat)
    requires FanInv(s) && id in s.jobs && c !in s.consumers && d in s.consumers
    ensures d in AddQueue(s, id, c).consumers && ConsumerInv(AddQueue(s, id, c), d)
  {
    hide View, Kept, EventsOf;
    var t := AddQueue(s, id, c);
    assert ConsumerInv(s, d);
    assert d in StreamOf(t, s.consumers[d].job) <==> d in StreamOf(s, s.consumers[d].job);
  }

  lemma SubscribeKeepsFan(s: State, id: Id, c: nat)
    requires FanInv(s)
    ensures FanInv(AddQueue(s, id, c))
  {
    hide ConsumerInv, EventsOf;
    if id in s.jobs && c !in s.consumers {
      NewConsumerFine(s, id, c);
      forall d | d in s.consumers ensures ConsumerInv(AddQueue(s, id, c), d) {
        SubscribeKeepsOthers(s, id, c, d);
      }
    }
  }

  lemma MoveKeepsFan(s: State, t: State, c: nat)
    requires FanInv(s) && c in s.consumers
    requires c in t.consumers && t == s.(consumers := s.consumers[c := t.consumers[c]])
    requires var q, r := s.consumers[c], t.consumers[c];
      && View(r) == View(q) && r.job == q.job && r.snapshot == q.snapshot && r.before == q.before
      && r.offered == q.offered && (r.blocked == q.blocked || r.blocked == []) && r.received + r.buffer != []
      && |r.buffer| <= CAPACITY
    ensures FanInv(t)
  {
    hide View, Kept, EventsOf;
    forall d | d in t.consumers ensures ConsumerInv(t, d) {
      assert ConsumerInv(s, d);
    }
  }

  lemma DispatchKeepsFan(s: State)
    requires FanInv(s) && EventsInv(s)
    ensures FanInv(DispatchOne(s))
  {
    var t := DispatchOne(s);
    hide EventsInv, ConsumerInv, Offer;
    if s.dispatched < |s.published| {
      forall c | c in s.consumers ensures ConsumerInv(t, c) && t.consumers[c].job == s.consumers[c].job {
        DispatchKeepsConsumer(s, c);
        OfferKeepsJob(s.consumers[c], s.published[s.dispatched].event);
      }
    }
  }

  lemma DeliverKeepsFan(s: State, c: nat)
    requires FanInv(s)
    ensures FanInv(DeliverOne(s, c))
  {
    var t := DeliverOne(s, c);
    if t != s {
      assert ConsumerInv(s, c);
      hide FanInv, Kept, EventsOf;
      MoveKeepsFan(s, t, c);
    }
  }

  lemma DrainKeepsFan(s: State, c: nat)
    requires FanInv(s)
    ensures FanInv(DrainOne(s, c))
  {
    var t := DrainOne(s, c);
    if t != s {
      assert ConsumerInv(s, c);
      hide FanInv, Kept, EventsOf, ConsumerInv;
      HeadMoves(s.consumers[c].received, s.consumers[c].buffer, s.consumers[c].blocked);
      MoveKeepsFan(s, t, c);
    }
  }

  lemma FanKept(s: State, a: Action)
    requires FanInv(s) && EventsInv(s)
    ensures FanInv(Next(s, a))
  {
    match a {
      case Dispatch =>
        hide FanInv, EventsInv, DispatchOne;
        DispatchKeepsFan(s);
      case Subscribe(id, c) =>
        hide FanInv, EventsInv, AddQueue;
        SubscribeKeepsFan(s, id, c);
      case Deliver(c) =>
        hide FanInv, EventsInv, DeliverOne;
        DeliverKeepsFan(s, c);
      case Drain(c) =>
        hide FanInv, EventsInv, DrainOne;
        DrainKeepsFan(s, c);
      case _ =>
        hide FanInv, EventsInv, Next;
        OtherStepsKeepFan(s, a);
    }
  }

  lemma OtherStepsKeepFan(s: State, a: Action)
    requires FanInv(s)
    requires !a.Dispatch? && !a.Subscribe? && !a.Deliver? && !a.Drain?
    ensures FanInv(Next(s, a))
  {
    OtherStepsOnlyPublish(s, a);
    hide ConsumerInv, Next, StreamOf, FanInv;
    FanUntouched(s, Next(s, a));
  }

  lemma OtherStepsOnlyPublish(s: State, a: Action)
    requires !a.Dispatch? && !a.Subscribe? && !a.Deliver? && !a.Drain?
    ensures var t := Next(s, a);
      && t.consumers == s.consumers && t.dispatched == s.dispatched && s.published <= t.published
      && forall id :: StreamOf(t, id) <= StreamOf(s, id)
  {
    if IsRunnerAction(a) {
      RunnerLeavesLists(s, a);
      hide Next;
    } else {
      hide NewJob, DispatchOne, AddQueue, DeliverOne, DrainOne, RunningJob, RunnerStep, JOB_TYPES;
    }
  }

  lemma OfferKeepsJob(q: Consumer, e: Event)
    ensures Offer(q, e).job == q.job
  {
  }

  // ---------------------------------------------------------------- every run

  /** A manager as `start` leaves it: no job runs, the queued ones wait once each, nothing has been published. */
  ghost predicate Booted(s: State) {
    && s.worker == Idle && s.published == [] && s.dispatched == 0 && s.consumers == map[]
    && (forall id :: id in s.streams ==> s.streams[id] == {})
    && Distinct(s.queue)
    && (forall id :: id in s.queue <==> id in s.jobs && s.jobs[id].status == Queued)
    && (forall id :: id in s.jobs ==> s.jobs[id].id == id && s.jobs[id].status !in {Pending, Running})
    && s.used == s.jobs.Keys
    && s.endedBefore == set id | id in s.jobs && IsFinal(s.jobs[id].status)
  }

  lemma BootedIsFine(s: State)
    requires Booted(s)
    ensures Inv(s) && s.endedBefore <= s.used
  {
  }

  /** The invariant of the manager object. */
  ghost predicate WellKept(s: State) {
    Inv(s) && s.endedBefore <= s.used
  }

  lemma StepKeepsAll(s: State, a: Action)
    requires WellKept(s)
    ensures WellKept(Next(s, a))
  {
    hide JobsInv, EventsInv, FanInv, Next;
    JobsKept(s, a);
    EventsKept(s, a);
    FanKept(s, a);
    EndedBeforeKept(s, a);
  }

  lemma {:induction false} RunKeepsInv(s: State, actions: seq<Action>)
    requires Inv(s) && s.endedBefore <= s.used
    ensures Inv(Run(s, actions)) && Run(s, actions).endedBefore == s.endedBefore
    decreases |actions|
  {
    hide Inv, Next;
    if actions != [] {
      StepKeepsAll(s, actions[0]);
      EndedBeforeKept(s, actions[0]);
      RunKeepsInv(Next(s, actions[0]), actions[1..]);
    }
  }

  lemma EndedBeforeKept(s: State, a: Action)
    ensures Next(s, a).endedBefore == s.endedBefore && s.used <= Next(s, a).used
  {
    hide NewJob, Changed, Offer, EventsOf, StreamOf, JOB_TYPES;
  }

  // ---------------------------------------------------------------- what it means for jobs

  /** How often `id` occurs in `ids`. */
  function Occurrences(ids: seq<Id>, id: Id): nat {
    if ids == [] then 0 else (if ids[0] == id then 1 else 0) + Occurrences(ids[1..], id)
  }

  lemma {:induction false} OccursOnce(ids: seq<Id>, id: Id)
    requires Distinct(ids)
    ensures Occurrences(ids, id) == if id in ids then 1 else 0
  {
    if ids != [] {
      assert Distinct(ids[1..]);
      OccursOnce(ids[1..], id);
      assert forall k :: 0 <= k < |ids[1..]| ==> ids[1..][k] == ids[k + 1];
    }
  }

  /** In every reachable state at most one job runs, and a queued job waits exactly once: in the queue, or
      in the worker's hand between taking it and looking at it. */
  lemma OneRunsAndQueuedWaitOnce(boot: State, actions: seq<Action>)
    requires Booted(boot)
    ensures var s := Run(boot, actions);
      && (forall i, j :: i in s.jobs && j in s.jobs && s.jobs[i].status == Running && s.jobs[j].status == Running ==> i == j)
      && (forall id :: id in s.jobs && s.jobs[id].status == Queued ==> Occurrences(Waiting(s), id) == 1)
  {
    var s := Run(boot, actions);
    BootedIsFine(boot);
    RunKeepsInv(boot, actions);
    hide Run, Booted;
    forall id | id in s.jobs && s.jobs[id].status == Queued ensures Occurrences(Waiting(s), id) == 1 {
      assert JobInv(s, id);
      OccursOnce(Waiting(s), id);
    }
    forall i, j | i in s.jobs && j in s.jobs && s.jobs[i].status == Running && s.jobs[j].status == Running ensures i == j {
      assert JobInv(s, i) && JobInv(s, j);
    }
  }

  /** A job cancelled while it waited is never run, whatever happens next. */
  lemma CancelledNeverRuns(boot: State, earlier: seq<Action>, id: Id, now: real, later: seq<Action>)
    requires Booted(boot)
    requires var s := Run(boot, earlier); id in s.jobs && s.jobs[id].status == Queued
    ensures var t := Run(Next(Run(boot, earlier), Cancel(id, now)), later);
      id in t.jobs ==> t.jobs[id].status == Cancelled
  {
    var s := Run(boot, earlier);
    BootedIsFine(boot);
    RunKeepsInv(boot, earlier);
    assert JobInv(s, id);
    JobsKept(s, Cancel(id, now));
    hide Run, Booted, JobsInv;
    FinalForever(Next(s, Cancel(id, now)), later, id);
  }

  /** How many of `events` are terminal. */
  function Terminals(events: seq<Event>): nat {
    if events == [] then 0 else (if IsTerminal(events[0]) then 1 else 0) + Terminals(events[1..])
  }

  lemma {:induction false} LastIsTheOnlyTerminal(events: seq<Event>)
    requires TerminalOnlyLast(events)
    ensures Terminals(events) == if events != [] && IsTerminal(events[|events| - 1]) then 1 else 0
  {
    if |events| == 1 {
      assert events[1..] == [];
    } else if |events| > 1 {
      var rest := events[1..];
      forall i | 0 <= i < |rest| - 1 ensures !IsTerminal(rest[i]) {
        assert rest[i] == events[i + 1];
      }
      LastIsTheOnlyTerminal(rest);
    }
  }

  /** A job that ended in this run has published exactly one of done, cancelled and error: the one that matches
      its status, after everything else.  A job still queued or running has published none. */
  lemma OneTerminalEventPerJob(boot: State, actions: seq<Action>, id: Id)
    requires Booted(boot)
    requires var s := Run(boot, actions); id in s.jobs && id !in boot.endedBefore
    ensures var s := Run(boot, actions);
            var events := EventsOf(s.published, id);
      && Terminals(events) == (if IsFinal(s.jobs[id].status) then 1 else 0)
      && (IsFinal(s.jobs[id].status) ==> Ends(events[|events| - 1], s.jobs[id].status))
  {
    var s := Run(boot, actions);
    BootedIsFine(boot);
    RunKeepsInv(boot, actions);
    hide Run, Booted, EventsOf;
    assert EventInv(s, id) && JobInv(s, id);
    LastIsTheOnlyTerminal(EventsOf(s.published, id));
  }

  // ---------------------------------------------------------------- what it means for clients

  lemma {:induction false} KeptIsSubsequence(kept: seq<Event>, offered: seq<Event>)
    requires Kept(kept, offered)
    ensures Subsequence(kept, offered)
    ensures offered != [] && IsTerminal(offered[|offered| - 1]) ==>
      kept != [] && kept[|kept| - 1] == offered[|offered| - 1]
    decreases |offered|
  {
    if offered != [] {
      var e, rest := offered[|offered| - 1], offered[..|offered| - 1];
      assert offered == rest + [e];
      if kept != [] && kept[|kept| - 1] == e && Kept(kept[..|kept| - 1], rest) {
        var init := kept[..|kept| - 1];
        assert kept == init + [e];
        KeptIsSubsequence(init, rest);
        SubsequenceGrows(init, rest, e);
      } else {
        KeptIsSubsequence(kept, rest);
        SubsequenceGrows(kept, rest, e);
      }
    }
  }

  lemma PartsOfCalmAreCalm(part: seq<Event>, whole: seq<Event>)
    requires Subsequence(part, whole) && forall i :: 0 <= i < |whole| ==> !IsTerminal(whole[i])
    ensures forall i :: 0 <= i < |part| ==> !IsTerminal(part[i])
  {
    SubsequenceHasNoOther(part, whole);
  }

  lemma {:induction false} KeptEndsLikeOffered(kept: seq<Event>, offered: seq<Event>)
    requires Kept(kept, offered) && TerminalOnlyLast(offered)
    ensures TerminalOnlyLast(kept)
    decreases |offered|
  {
    if offered != [] {
      var e, rest := offered[|offered| - 1], offered[..|offered| - 1];
      assert forall i :: 0 <= i < |rest| ==> rest[i] == offered[i];
      if kept != [] && kept[|kept| - 1] == e && Kept(kept[..|kept| - 1], rest) {
        var init := kept[..|kept| - 1];
        KeptIsSubsequence(init, rest);
        PartsOfCalmAreCalm(init, rest);
        assert forall i :: 0 <= i < |init| ==> kept[i] == init[i];
      } else {
        KeptIsSubsequence(kept, rest);
        PartsOfCalmAreCalm(kept, rest);
      }
    }
  }

  /** A client receives its snapshot first, then a subsequence, in order, of the events dispatched for its job since
      it subscribed; a terminal event among them is there, once and last, whatever the full queue dropped. */
  lemma ClientView(boot: State, actions: seq<Action>, c: nat)
    requires Booted(boot)
    requires c in Run(boot, actions).consumers
    ensures var s := Run(boot, actions);
            var q := s.consumers[c];
            var sofar := EventsOf(s.published[..Min(s.dispatched, |s.published|)], q.job);
      && View(q) != [] && View(q)[0] == q.snapshot
      && Subsequence(View(q)[1..], q.offered)
      && TerminalOnlyLast(View(q)[1..])
      && (if c in StreamOf(s, q.job) then sofar == q.before + q.offered else q.before + q.offered <= sofar)
      && (q.offered != [] && IsTerminal(q.offered[|q.offered| - 1]) ==>
            View(q)[|View(q)| - 1] == q.offered[|q.offered| - 1])
  {
    var s := Run(boot, actions);
    BootedIsFine(boot);
    RunKeepsInv(boot, actions);
    hide Run, Booted, JobsInv;
    assert ConsumerInv(s, c);
    var q := s.consumers[c];
    assert EventInv(s, q.job);
    assert s.published[..Min(s.dispatched, |s.published|)] == s.published[..s.dispatched];
    EventsOfPrefix(s.published, s.dispatched, q.job);
    var sofar, all := EventsOf(s.published[..s.dispatched], q.job), EventsOf(s.published, q.job);
    hide EventsOf, Kept, View;
    OfferedEndsCalm(all, sofar, q.before, q.offered);
    KeptIsSubsequence(View(q)[1..], q.offered);
    KeptEndsLikeOffered(View(q)[1..], q.offered);
  }

  lemma OfferedEndsCalm(all: seq<Event>, sofar: seq<Event>, before: seq<Event>, offered: seq<Event>)
    requires TerminalOnlyLast(all) && sofar <= all && before + offered <= sofar
    ensures TerminalOnlyLast(offered)
  {
    forall i | 0 <= i < |offered| - 1 ensures !IsTerminal(offered[i]) {
      assert all[|before| + i] == (before + offered)[|before| + i] == offered[i];
    }
  }

  /** Letting the client read and the waiting `put` finish until nothing is left. */
  function ReadAll(s: State, c: nat, steps: nat): State
    decreases steps
  {
    if steps == 0 then s else ReadAll(Next(Next(s, Drain(c)), Deliver(c)), c, steps - 1)
  }

  /** In every reachable state, a client that keeps reading gets everything kept for it, including the terminal event
      that had to wait. */
  lemma ReaderGetsItAll(boot: State, actions: seq<Action>, c: nat, steps: nat)
    requires Booted(boot) && c in Run(boot, actions).consumers
    requires var q := Run(boot, actions).consumers[c]; |q.buffer| + 2 * |q.blocked| <= steps
    ensures var s := Run(boot, actions);
            var t := ReadAll(s, c, steps);
      c in t.consumers && t.consumers[c].received == View(s.consumers[c])
  {
    var s := Run(boot, actions);
    BootedIsFine(boot);
    RunKeepsInv(boot, actions);
    hide Run, Booted, JobsInv, EventsInv;
    assert ConsumerInv(s, c);
    hide *;
    ReadingEmptiesTheQueue(s, c, steps);
  }

  lemma {:induction false} ReadingEmptiesTheQueue(s: State, c: nat, steps: nat)
    requires c in s.consumers && |s.consumers[c].buffer| <= CAPACITY
    requires |s.consumers[c].buffer| + 2 * |s.consumers[c].blocked| <= steps
    ensures var t := ReadAll(s, c, steps);
      c in t.consumers && t.consumers[c].received == View(s.consumers[c])
    decreases steps
  {
    hide Next;
    if steps > 0 {
      ReadRound(s, c);
      hide View;
      ReadingEmptiesTheQueue(Next(Next(s, Drain(c)), Deliver(c)), c, steps - 1);
    }
  }

  /** Taking the head of the queue, or nothing from an empty one. */
  lemma DrainMovesOne(s: State, c: nat)
    requires c in s.consumers
    ensures var t := Next(s, Drain(c));
      && c in t.consumers && View(t.consumers[c]) == View(s.consumers[c]) && t.consumers[c].blocked == s.consumers[c].blocked
      && |t.consumers[c].buffer| == if s.consumers[c].buffer == [] then 0 else |s.consumers[c].buffer| - 1
  {
    var q := s.consumers[c];
    NextMoves(s, c);
    hide Next;
    if q.buffer != [] {
      HeadMoves(q.received, q.buffer, q.blocked);
    }
  }

  lemma NextMoves(s: State, c: nat)
    ensures Next(s, Drain(c)) == DrainOne(s, c) && Next(s, Deliver(c)) == DeliverOne(s, c)
  {
    hide DrainOne, DeliverOne;
  }

  lemma HeadMoves(received: seq<Event>, buffer: seq<Event>, blocked: seq<Event>)
    requires buffer != []
    ensures (received + [buffer[0]]) + buffer[1..] + blocked == received + buffer + blocked
  {
    assert buffer == [buffer[0]] + buffer[1..];
  }

  /** Letting a waiting event in, if there is one and room for it. */
  lemma DeliverMovesOne(s: State, c: nat)
    requires c in s.consumers
    ensures var t := Next(s, Deliver(c));
      && c in t.consumers && View(t.consumers[c]) == View(s.consumers[c])
      && (if s.consumers[c].blocked != [] && |s.consumers[c].buffer| < CAPACITY
          then |t.consumers[c].buffer| == |s.consumers[c].buffer| + 1 && |t.consumers[c].blocked| == |s.consumers[c].blocked| - 1
          else t.consumers[c] == s.consumers[c])
  {
    var q := s.consumers[c];
    NextMoves(s, c);
    hide Next;
    if q.blocked != [] {
      assert q.blocked == [q.blocked[0]] + q.blocked[1..];
    }
  }

  /** One round moves the head of the queue to the client and then lets a waiting event in. */
  lemma ReadRound(s: State, c: nat)
    requires c in s.consumers && |s.consumers[c].buffer| <= CAPACITY
    ensures var t := Next(Next(s, Drain(c)), Deliver(c));
      && c in t.consumers && |t.consumers[c].buffer| <= CAPACITY
      && View(t.consumers[c]) == View(s.consumers[c])
      && (var before := |s.consumers[c].buffer| + 2 * |s.consumers[c].blocked|;
          |t.consumers[c].buffer| + 2 * |t.consumers[c].blocked| <= if before == 0 then 0 else before - 1)
  {
    hide View, Next;
    DrainMovesOne(s, c);
    DeliverMovesOne(Next(s, Drain(c)), c);
  }

  // ---------------------------------------------------------------- first come, first served

  /** The worker starts a job. */
  predicate Starts(s: State, a: Action, id: Id) {
    s.worker != Busy(id) && Next(s, a).worker == Busy(id)
  }

  /** A step takes at most the first id from those that wait, which is the one it starts if it starts one, and adds at most
      one id, never used before, at the end. */
  lemma WaitingMovesOn(s: State, a: Action)
    requires JobsInv(s)
    ensures var before, after := Waiting(s), Waiting(Next(s, a));
      || after == before
      || (before != [] && after == before[1..])
      || (exists id :: id !in s.used && id in Next(s, a).used && after == before + [id])
    ensures forall id :: Starts(s, a, id) ==>
      Waiting(s) != [] && Waiting(s)[0] == id && Waiting(Next(s, a)) == Waiting(s)[1..]
  {
    hide Next, JobsInv;
    if IsRunnerAction(a) {
      RunnerLeavesWaiting(s, a);
    } else if OnlyMovesEvents(a) {
      FanLeavesWaiting(s, a);
    } else if a.Take? {
      TakeLeavesWaiting(s);
    } else if a.Submit? {
      SubmitAddsLast(s, a.id, a.jobType, a.payload, a.now);
    } else if a.Start? {
      StartTakesFirst(s, a.now, a.log);
    } else {
      OthersLeaveWaiting(s, a);
    }
  }

  lemma RunnerLeavesWaiting(s: State, a: Action)
    requires IsRunnerAction(a)
    ensures Waiting(Next(s, a)) == Waiting(s) && forall id :: Next(s, a).worker == Busy(id) ==> s.worker == Busy(id)
  {
    NextRunner(s, a);
    hide Next, Changed;
  }

  lemma FanLeavesWaiting(s: State, a: Action)
    requires OnlyMovesEvents(a)
    ensures Waiting(Next(s, a)) == Waiting(s) && Next(s, a).worker == s.worker
  {
    hide Offer, EventsOf;
  }

  lemma TakeLeavesWaiting(s: State)
    ensures Waiting(Next(s, Take)) == Waiting(s) && (Next(s, Take).worker == s.worker || Next(s, Take).worker.Holding?)
  {
    assert s.queue != [] ==> [s.queue[0]] + s.queue[1..] == s.queue;
  }

  lemma SubmitAddsLast(s: State, id: Id, jobType: string, payload: Json, now: real)
    ensures var t := Next(s, Submit(id, jobType, payload, now));
      t.worker == s.worker &&
      (Waiting(t) == Waiting(s) || (id !in s.used && id in t.used && Waiting(t) == Waiting(s) + [id]))
  {
    hide NewJob, JOB_TYPES;
    assert s.worker.Holding? ==> ([s.worker.id] + s.queue) + [id] == [s.worker.id] + (s.queue + [id]);
  }

  lemma StartTakesFirst(s: State, now: real, log: string)
    ensures var t := Next(s, Start(now, log));
      if s.worker.Holding? then
        && Waiting(s) != [] && Waiting(t) == Waiting(s)[1..] && t.worker in {Idle, Busy(Waiting(s)[0])}
      else t == s
  {
    assert s.worker.Holding? ==> ([s.worker.id] + s.queue)[1..] == s.queue;
  }

  lemma OthersLeaveWaiting(s: State, a: Action)
    requires a.Cancel? || a.Delete?
    ensures Waiting(Next(s, a)) == Waiting(s) && Next(s, a).worker == s.worker
  {
  }

  /** Over a run: from those that wait now some first ones have gone, and newcomers stand behind the rest. */
  ghost predicate MovedOn(before: seq<Id>, after: seq<Id>, used: set<Id>) {
    exists k: nat, newcomers: seq<Id> :: k <= |before| && after == before[k..] + newcomers && forall id :: id in newcomers ==> id !in used
  }

  lemma OneMovesOn(before: seq<Id>, mid: seq<Id>, after: seq<Id>, used: set<Id>, more: set<Id>)
    requires MovedOn(mid, after, more) && used <= more
    requires mid == before || (before != [] && mid == before[1..]) || (exists id :: id !in used && id in more && mid == before + [id])
    ensures MovedOn(before, after, used)
  {
    var k: nat, newcomers :| k <= |mid| && after == mid[k..] + newcomers && forall id :: id in newcomers ==> id !in more;
    hide *;
    if mid == before {
      MovedBy(before, after, used, k, newcomers);
    } else if before != [] && mid == before[1..] {
      assert mid[k..] == before[k + 1..];
      MovedBy(before, after, used, k + 1, newcomers);
    } else {
      var id :| id !in used && id in more && mid == before + [id];
      if k <= |before| {
        assert mid[k..] == before[k..] + [id];
        OneNewcomerMore(before, after, used, k, id, newcomers);
      } else {
        assert mid[k..] == before[|before|..];
        MovedBy(before, after, used, |before|, newcomers);
      }
    }
  }

  lemma MovedBy(before: seq<Id>, after: seq<Id>, used: set<Id>, k: nat, newcomers: seq<Id>)
    requires k <= |before| && after == before[k..] + newcomers && forall id :: id in newcomers ==> id !in used
    ensures MovedOn(before, after, used)
  {
  }

  lemma OneNewcomerMore(before: seq<Id>, after: seq<Id>, used: set<Id>, k: nat, id: Id, newcomers: seq<Id>)
    requires k <= |before| && after == before[k..] + [id] + newcomers
    requires id !in used && forall id :: id in newcomers ==> id !in used
    ensures MovedOn(before, after, used)
  {
    assert after == before[k..] + ([id] + newcomers);
    MovedBy(before, after, used, k, [id] + newcomers);
  }

  lemma NobodyMoved(before: seq<Id>, used: set<Id>)
    ensures MovedOn(before, before, used)
  {
    assert before == before[0..] + [];
  }

  lemma {:induction false} RunMovesOn(s: State, actions: seq<Action>)
    requires WellKept(s)
    ensures MovedOn(Waiting(s), Waiting(Run(s, actions)), s.used)
    decreases |actions|
  {
    hide Next, MovedOn, WellKept, Waiting, JobsInv;
    if actions == [] {
      NobodyMoved(Waiting(s), s.used);
    } else {
      var t := Next(s, actions[0]);
      StepKeepsAll(s, actions[0]);
      WellKeptJobs(s);
      WaitingMovesOn(s, actions[0]);
      EndedBeforeKept(s, actions[0]);
      RunMovesOn(t, actions[1..]);
      OneMovesOn(Waiting(s), Waiting(t), Waiting(Run(s, actions)), s.used, t.used);
    }
  }

  lemma WellKeptJobs(s: State)
    requires WellKept(s)
    ensures JobsInv(s)
  {
    hide JobsInv, EventsInv, FanInv;
  }

  /** Jobs are looked at in the order they were queued: if `i` waits before `j`, then in every continuation in which `j` is
      started `i` has left the queue, and as long as both wait `i` stands before `j`. */
  lemma FirstComeFirstServed(s: State, actions: seq<Action>, a: Action, p: nat, q: nat)
    requires WellKept(s) && p < q < |Waiting(s)|
    ensures var i, j, later := Waiting(s)[p], Waiting(s)[q], Run(s, actions);
      && (Starts(later, a, j) ==> i !in Waiting(later))
      && (i in Waiting(later) ==>
            exists k, l :: 0 <= k < l < |Waiting(later)| && Waiting(later)[k] == i && Waiting(later)[l] == j)
  {
    var later := Run(s, actions);
    RunMovesOn(s, actions);
    RunKeepsInvFrom(s, actions);
    WellKeptJobs(s);
    WellKeptJobs(later);
    WaitingMovesOn(later, a);
    WaitingIsDistinct(s);
    WaitingIsDistinct(later);
    hide *;
    OrderIsKept(Waiting(s), Waiting(later), s.used, p, q);
    if i: nat, j: nat :| i < j < |Waiting(later)| && Waiting(later)[i] == Waiting(s)[p] && Waiting(later)[j] == Waiting(s)[q] {
      FirstIsFirst(Waiting(later), i, j);
    }
  }

  lemma RunKeepsInvFrom(s: State, actions: seq<Action>)
    requires WellKept(s)
    ensures WellKept(Run(s, actions))
    decreases |actions|
  {
    hide WellKept, Next;
    if actions != [] {
      StepKeepsAll(s, actions[0]);
      RunKeepsInvFrom(Next(s, actions[0]), actions[1..]);
    }
  }

  lemma WaitingIsDistinct(s: State)
    requires JobsInv(s)
    ensures Distinct(Waiting(s)) && forall id :: id in Waiting(s) ==> id in s.used
  {
    hide Distinct, Waiting;
  }

  lemma OrderIsKept(before: seq<Id>, after: seq<Id>, used: set<Id>, p: nat, q: nat)
    requires MovedOn(before, after, used) && p < q < |before| && Distinct(before) && forall id :: id in before ==> id in used
    ensures before[p] in after ==> exists k: nat, l: nat :: k < l < |after| && after[k] == before[p] && after[l] == before[q]
  {
    var n: nat, newcomers :| n <= |before| && after == before[n..] + newcomers && forall id :: id in newcomers ==> id !in used;
    if before[p] in after {
      NotGone(before, newcomers, n, used, p);
      assert after[p - n] == before[p] && after[q - n] == before[q];
    }
  }

  lemma NotGone(before: seq<Id>, newcomers: seq<Id>, n: nat, used: set<Id>, p: nat)
    requires n <= |before| && p < |before| && Distinct(before) && before[p] in before[n..] + newcomers
    requires before[p] in used && forall id :: id in newcomers ==> id !in used
    ensures n <= p
  {
    var rest := before[n..];
    assert before[p] in rest;
    var k :| 0 <= k < |rest| && rest[k] == before[p];
    assert before[n + k] == before[p];
  }

  lemma FirstIsFirst(ids: seq<Id>, i: nat, j: nat)
    requires Distinct(ids) && i < j < |ids|
    ensures ids[0] != ids[j]
  {
  }

  // ---------------------------------------------------------------- requests to cancel

  /** A request to cancel stays until the job is deleted, and only cancelling makes one. */
  lemma RequestStays(s: State, a: Action, id: Id)
    requires id in s.used
    ensures id in s.cancelRequests ==> id in Next(s, a).cancelRequests || (a == Delete(id) && id !in Next(s, a).jobs)
    ensures id in Next(s, a).cancelRequests && id !in s.cancelRequests ==> a.Cancel? && a.id == id && id in s.jobs
  {
    if IsRunnerAction(a) {
      NextRunner(s, a);
      hide Next, Changed;
    } else {
      hide NewJob, Offer, EventsOf, RunningJob, RunnerStep, JOB_TYPES;
    }
  }

  /** So a running job that was asked to stop is still asked to, for as long as it runs. */
  lemma {:induction false} RequestReachesTheRunner(s: State, now: real, actions: seq<Action>)
    requires WellKept(s) && s.worker.Busy?
    requires RunsOn(Next(s, Cancel(s.worker.id, now)), s.worker.id, actions)
    ensures s.worker.id in Run(Next(s, Cancel(s.worker.id, now)), actions).cancelRequests
  {
    var id, t := s.worker.id, Next(s, Cancel(s.worker.id, now));
    WellKeptJobs(s);
    RunningRecord(s);
    assert JobInv(s, id);
    StepKeepsAll(s, Cancel(id, now));
    assert id in t.cancelRequests && id in t.used && t.worker == Busy(id);
    hide Next, WellKept, JobsInv, JobInv;
    RequestLasts(t, id, actions);
  }

  /** The worker is busy with the job all along the run. */
  predicate RunsOn(s: State, id: Id, actions: seq<Action>)
    decreases |actions|
  {
    s.worker == Busy(id) && (actions != [] ==> RunsOn(Next(s, actions[0]), id, actions[1..]))
  }

  lemma {:induction false} RequestLasts(s: State, id: Id, actions: seq<Action>)
    requires WellKept(s) && id in s.used && id in s.cancelRequests && RunsOn(s, id, actions)
    ensures id in Run(s, actions).cancelRequests
    decreases |actions|
  {
    hide Next, WellKept, JobsInv;
    if actions != [] {
      var t := Next(s, actions[0]);
      assert RunsOn(t, id, actions[1..]) && t.worker == Busy(id);
      StepKeepsAll(s, actions[0]);
      EndedBeforeKept(s, actions[0]);
      WellKeptJobs(t);
      RunningRecord(t);
      RequestStays(s, actions[0], id);
      RequestLasts(t, id, actions[1..]);
    }
  }

  // ---------------------------------------------------------------- a log file that fails to close

  /** The worker's handler when the log file of a run that has just been cancelled fails to close. */
  function CloseFails(s: State, id: Id, now: real, message: string): State
    requires id in s.jobs
  {
    var job := s.jobs[id].(status := Failed, errorMessage := Some(message), finishedAt := Some(now));
    Publish(s.(jobs := s.jobs[id := job]), id, ErrorEvent(message))
  }

  /** This step is none of the machine's, and would break two of its promises: the job goes from cancelled to failed, and
      has two terminal events. */
  lemma LateCloseFailureEndsTwice(s: State, now: real, later: real, message: string)
    requires WellKept(s) && s.worker.Busy?
    ensures var id, t := s.worker.id, Next(s, FinishCancelled(now));
      && id in t.jobs && t.jobs[id].status == Cancelled
      && var u := CloseFails(t, id, later, message);
         && u.jobs[id].status == Failed
         && EventsOf(u.published, id) == EventsOf(s.published, id) + [CancelledEvent, ErrorEvent(message)]
  {
    var id, t := s.worker.id, Next(s, FinishCancelled(now));
    RunningRecord(s);
    NextRunner(s, FinishCancelled(now));
    hide Next, WellKept, JobsInv, EventsOf;
    assert t.published == s.published + [Published(id, CancelledEvent)];
    EventsOfPublish(s.published, Published(id, CancelledEvent), id);
    EventsOfPublish(t.published, Published(id, ErrorEvent(message)), id);
    Regroup(EventsOf(s.published, id), [CancelledEvent], [ErrorEvent(message)]);
  }

  // ---------------------------------------------------------------- who hears of the end

  /** The steps that take `c` off the list of job `id`: the client leaves, or the job is deleted. */
  predicate Leaves(s: State, id: Id, c: nat, a: Action) {
    || a == Unsubscribe(c)
    || (a == Delete(id) && id in s.jobs && s.jobs[id].status !in {Running, Queued})
  }

  /** Neither happens along the run. */
  predicate Stays(s: State, id: Id, c: nat, actions: seq<Action>)
    decreases |actions|
  {
    actions == [] || (!Leaves(s, id, c, actions[0]) && Stays(Next(s, actions[0]), id, c, actions[1..]))
  }

  predicate IsConsumerOf(s: State, id: Id, c: nat) {
    id in s.used && c in s.consumers && s.consumers[c].job == id
  }

  /** A step of a runner touches no list and no queue. */
  lemma RunnerLeavesLists(s: State, a: Action)
    requires IsRunnerAction(a)
    ensures var t := Next(s, a);
      && t.streams == s.streams && t.consumers == s.consumers && t.dispatched == s.dispatched
      && s.published <= t.published && t.used == s.used
  {
    NextRunner(s, a);
    hide Next, Changed;
  }

  lemma FanStepOnTheList(s: State, id: Id, c: nat, a: Action)
    requires IsConsumerOf(s, id, c) && OnlyMovesEvents(a)
    ensures IsConsumerOf(Next(s, a), id, c)
    ensures c in StreamOf(Next(s, a), id) <==> c in StreamOf(s, id) && a != Unsubscribe(c)
  {
    hide NewJob, SubmitJob, CancelJob, DeleteJob, StartJob, TakeNext, EventsOf, RunningJob, RunnerStep, View, JOB_TYPES;
  }

  lemma IdleStepOnTheList(s: State, id: Id, c: nat, a: Action)
    requires IsConsumerOf(s, id, c) && !IsRunnerAction(a) && !OnlyMovesEvents(a)
    ensures IsConsumerOf(Next(s, a), id, c)
    ensures c in StreamOf(Next(s, a), id) <==> c in StreamOf(s, id) && !Leaves(s, id, c, a)
  {
    hide NewJob, DispatchOne, AddQueue, DropQueue, DeliverOne, DrainOne, RunningJob, RunnerStep, JOB_TYPES;
  }

  /** One step: a queue is on its job's list afterwards if and only if it was before and does not leave. */
  lemma StepOnTheList(s: State, id: Id, c: nat, a: Action)
    requires IsConsumerOf(s, id, c)
    ensures IsConsumerOf(Next(s, a), id, c)
    ensures c in StreamOf(Next(s, a), id) <==> c in StreamOf(s, id) && !Leaves(s, id, c, a)
  {
    hide Next;
    if IsRunnerAction(a) {
      RunnerLeavesLists(s, a);
    } else if OnlyMovesEvents(a) {
      FanStepOnTheList(s, id, c, a);
    } else {
      IdleStepOnTheList(s, id, c, a);
    }
  }

  /** A run: a queue on its job's list is still there if and only if it stays. */
  lemma {:induction false} RunOnTheList(s: State, id: Id, c: nat, actions: seq<Action>)
    requires IsConsumerOf(s, id, c)
    ensures IsConsumerOf(Run(s, actions), id, c)
    ensures c in StreamOf(Run(s, actions), id) <==> c in StreamOf(s, id) && Stays(s, id, c, actions)
    decreases |actions|
  {
    hide Next, Leaves, IsConsumerOf, StreamOf;
    if actions != [] {
      StepOnTheList(s, id, c, actions[0]);
      RunOnTheList(Next(s, actions[0]), id, c, actions[1..]);
    }
  }

  /** Dispatching an event adds it to the view of the queues on the list: of all of them when it is terminal, else of those
      that have room for it.  All others keep their view. */
  lemma EventReachesTheList(s: State, c: nat)
    requires s.dispatched < |s.published| && c in s.consumers && s.consumers[c].blocked == []
    ensures var p, t := s.published[s.dispatched], Next(s, Dispatch);
      && c in t.consumers
      && View(t.consumers[c]) == View(s.consumers[c]) +
           if c in StreamOf(s, p.job) && (IsTerminal(p.event) || |s.consumers[c].buffer| < 1000) then [p.event] else []
  {
    hide StreamOf;
    var p, q := s.published[s.dispatched], s.consumers[c];
    assert View(q) + [] == View(q);
    assert View(q) == q.received + q.buffer;
    if c in StreamOf(s, p.job) && (IsTerminal(p.event) || |q.buffer| < CAPACITY) {
      assert View(Offer(q, p.event)) == View(q) + [p.event];
    }
  }

  /** Dispatching a terminal event adds it to the view of exactly the queues on the list; the others keep their view. */
  lemma TerminalReachesTheList(s: State, c: nat)
    requires s.dispatched < |s.published| && c in s.consumers
    requires var p := s.published[s.dispatched]; IsTerminal(p.event)
    ensures var p, t := s.published[s.dispatched], Next(s, Dispatch);
      && c in t.consumers
      && View(t.consumers[c]) == View(s.consumers[c]) + if c in StreamOf(s, p.job) then [p.event] else []
  {
    hide StreamOf;
    var p, q := s.published[s.dispatched], s.consumers[c];
    if c in StreamOf(s, p.job) {
      assert View(Offer(q, p.event)) == View(q) + [p.event];
    } else {
      assert View(q) + [] == View(q);
    }
  }

  /** What a queue holds before the terminal event of its job is dispatched holds no terminal event. */
  lemma NothingTerminalBefore(s: State, c: nat)
    requires FanInv(s) && EventsInv(s) && s.dispatched < |s.published| && c in s.consumers
    requires s.published[s.dispatched].job == s.consumers[c].job
    ensures forall k :: 0 <= k < |View(s.consumers[c])| ==> !IsTerminal(View(s.consumers[c])[k])
  {
    hide EventsOf, Kept, View;
    var q, p := s.consumers[c], s.published[s.dispatched];
    assert ConsumerInv(s, c) && EventInv(s, q.job);
    var sofar, all := EventsOf(s.published[..s.dispatched], q.job), EventsOf(s.published, q.job);
    EventsOfPublish(s.published[..s.dispatched], p, q.job);
    assert s.published[..s.dispatched + 1] == s.published[..s.dispatched] + [p];
    EventsOfPrefix(s.published, s.dispatched + 1, q.job);
    var view := View(q);
    assert view != [] && view[0].Snapshot? && Kept(view[1..], q.offered) && q.before + q.offered <= sofar;
    hide *;
    OfferedIsCalm(all, sofar, q.before, q.offered, p.event);
    KeptIsSubsequence(view[1..], q.offered);
    PartsOfCalmAreCalm(view[1..], q.offered);
    CalmBehindSnapshot(view);
  }

  lemma CalmBehindSnapshot(view: seq<Event>)
    requires view != [] && view[0].Snapshot? && forall k :: 0 <= k < |view[1..]| ==> !IsTerminal(view[1..][k])
    ensures forall k :: 0 <= k < |view| ==> !IsTerminal(view[k])
  {
    assert forall k :: 0 < k < |view| ==> view[k] == view[1..][k - 1];
  }

  lemma OfferedIsCalm(all: seq<Event>, sofar: seq<Event>, before: seq<Event>, offered: seq<Event>, e: Event)
    requires TerminalOnlyLast(all) && sofar + [e] <= all && before + offered <= sofar
    ensures forall k :: 0 <= k < |offered| ==> !IsTerminal(offered[k])
  {
    forall k | 0 <= k < |offered| ensures !IsTerminal(offered[k]) {
      assert all[|before| + k] == (sofar + [e])[|before| + k] == sofar[|before| + k];
      assert sofar[|before| + k] == (before + offered)[|before| + k] == offered[k];
    }
  }

  /** The dispatch of a job's terminal event tells exactly the queues on the job's list. */
  lemma DispatchTellsTheList(u: State, id: Id, c: nat)
    requires Inv(u) && IsConsumerOf(u, id, c) && EndsNext(u, id)
    ensures var t := Next(u, Dispatch);
      && c in u.consumers && c in t.consumers
      && (c in StreamOf(u, id) <==> View(t.consumers[c]) == View(u.consumers[c]) + [u.published[u.dispatched].event])
      && (c in StreamOf(u, id) <==> exists e :: e in View(t.consumers[c]) && IsTerminal(e))
  {
    NothingTerminalBefore(u, c);
    TerminalReachesTheList(u, c);
    var before, after := View(u.consumers[c]), View(Next(u, Dispatch).consumers[c]);
    var e, listed := u.published[u.dispatched].event, c in StreamOf(u, id);
    hide *;
    EndsWithTerminal(before, after, e, listed);
  }

  /** The next callback carries the terminal event of job `id`. */
  predicate EndsNext(u: State, id: Id) {
    && u.dispatched < |u.published| && u.published[u.dispatched].job == id
    && IsTerminal(u.published[u.dispatched].event)
  }

  /**
   A client that subscribes to a job, and then the moment the job's terminal event is dispatched: the event becomes part
   of what the client has got or will get if and only if, in between, the client did not leave and the job was not
   deleted.  Otherwise there is no terminal event in it at all.
   */
  lemma EndReachesExactlyTheStaying(boot: State, earlier: seq<Action>, id: Id, c: nat, later: seq<Action>)
    requires Booted(boot)
    requires var s := Run(boot, earlier); id in s.jobs && c !in s.consumers
    requires EndsNext(Run(Next(Run(boot, earlier), Subscribe(id, c)), later), id)
    ensures var joined := Next(Run(boot, earlier), Subscribe(id, c));
            var u := Run(joined, later);
            var t := Next(u, Dispatch);
      && c in u.consumers && c in t.consumers
      && (Stays(joined, id, c, later) <==> View(t.consumers[c]) == View(u.consumers[c]) + [u.published[u.dispatched].event])
      && (Stays(joined, id, c, later) <==> exists e :: e in View(t.consumers[c]) && IsTerminal(e))
  {
    hide *;
    var s := Run(boot, earlier);
    var joined := Next(s, Subscribe(id, c));
    ReachableIsFine(boot, earlier);
    JoinsTheList(s, id, c);
    StepKeepsAll(s, Subscribe(id, c));
    RunOnTheList(joined, id, c, later);
    FineRun(joined, later);
    DispatchTellsTheList(Run(joined, later), id, c);
  }

  lemma ReachableIsFine(boot: State, actions: seq<Action>)
    requires Booted(boot)
    ensures WellKept(Run(boot, actions))
  {
    hide Inv, Booted, Run;
    BootedIsFine(boot);
    RunKeepsInv(boot, actions);
    UsedGrows(boot, actions);
  }

  lemma {:induction false} UsedGrows(s: State, actions: seq<Action>)
    ensures s.used <= Run(s, actions).used
    decreases |actions|
  {
    hide Next;
    if actions != [] {
      EndedBeforeKept(s, actions[0]);
      UsedGrows(Next(s, actions[0]), actions[1..]);
    }
  }

  lemma FineRun(s: State, actions: seq<Action>)
    requires WellKept(s)
    ensures Inv(Run(s, actions))
  {
    RunKeepsInv(s, actions);
  }

  lemma EndsWithTerminal(before: seq<Event>, after: seq<Event>, e: Event, added: bool)
    requires IsTerminal(e) && (forall k :: 0 <= k < |before| ==> !IsTerminal(before[k]))
    requires after == before + if added then [e] else []
    ensures added <==> after == before + [e]
    ensures added <==> exists x :: x in after && IsTerminal(x)
  {
    if added {
      assert after[|before|] == e;
    } else {
      assert after == before;
    }
  }

  lemma JoinsTheList(s: State, id: Id, c: nat)
    requires WellKept(s) && id in s.jobs && c !in s.consumers
    ensures IsConsumerOf(Next(s, Subscribe(id, c)), id, c) && c in StreamOf(Next(s, Subscribe(id, c)), id)
  {
    assert JobInv(s, id);
    hide EventsOf, FanInv, EventsInv;
  }

  /** One such run: the job is deleted between publishing its terminal event and the event loop running the callback. */
  lemma DeletedBeforeDispatch(boot: State, id: Id, now: real, c: nat)
    requires Booted(boot) && id in boot.jobs && boot.jobs[id].status == Queued
    ensures var s := Run(boot, [Subscribe(id, c), Cancel(id, now), Delete(id), Dispatch]);
      && s.dispatched == 1 && s.published == [Published(id, CancelledEvent)]
      && c in s.consumers && View(s.consumers[c]) == [s.consumers[c].snapshot]
      && c !in StreamOf(s, id)
  {
    hide Next;
    RunFour(boot, Subscribe(id, c), Cancel(id, now), Delete(id), Dispatch);
    LostOnTheWay(boot, id, now, c);
    hide Run, Booted;
    NextIs(boot, id, now, c);
    NextIs(AddQueue(boot, id, c), id, now, c);
    NextIs(CancelJob(AddQueue(boot, id, c), id, now), id, now, c);
    NextIs(DeleteJob(CancelJob(AddQueue(boot, id, c), id, now), id), id, now, c);
    hide AddQueue, CancelJob, DeleteJob, DispatchOne;
  }

  lemma NextIs(s: State, id: Id, now: real, c: nat)
    ensures Next(s, Subscribe(id, c)) == AddQueue(s, id, c) && Next(s, Cancel(id, now)) == CancelJob(s, id, now)
    ensures Next(s, Delete(id)) == DeleteJob(s, id) && Next(s, Dispatch) == DispatchOne(s)
  {
    hide AddQueue, CancelJob, DeleteJob, DispatchOne;
  }

  lemma LostOnTheWay(boot: State, id: Id, now: real, c: nat)
    requires Booted(boot) && id in boot.jobs && boot.jobs[id].status == Queued
    ensures var s := DispatchOne(DeleteJob(CancelJob(AddQueue(boot, id, c), id, now), id));
      && s.dispatched == 1 && s.published == [Published(id, CancelledEvent)]
      && c in s.consumers && View(s.consumers[c]) == [s.consumers[c].snapshot]
      && c !in StreamOf(s, id)
  {
    hide EventsOf;
    var s1 := AddQueue(boot, id, c);
    assert s1.published == [] && s1.dispatched == 0 && c in s1.consumers && s1.jobs[id].id == id;
    var s2 := CancelJob(s1, id, now);
    assert s2.published == [Published(id, CancelledEvent)] && s2.jobs[id].status == Cancelled;
    assert s2.consumers == s1.consumers && s2.dispatched == 0;
    hide Booted;
    var s3 := DeleteJob(s2, id);
    assert StreamOf(s3, id) == {} && s3.consumers == s1.consumers && s3.published == s2.published;
    assert View(s1.consumers[c]) == [s1.consumers[c].snapshot];
    hide AddQueue, CancelJob, DeleteJob, View;
    assert DispatchOne(s3).consumers[c] == s3.consumers[c];
  }

  lemma RunFour(s: State, a: Action, b: Action, c: Action, d: Action)
    ensures Run(s, [a, b, c, d]) == Next(Next(Next(Next(s, a), b), c), d)
  {
    hide Next;
    assert [a, b, c, d][1..] == [b, c, d] && [b, c, d][1..] == [c, d] && [c, d][1..] == [d] && [d][1..] == [];
    assert Run(s, [a, b, c, d]) == Run(Next(Next(s, a), b), [c, d]);
    assert Run(Next(Next(s, a), b), [c, d]) == Run(Next(Next(Next(s, a), b), c), [d]);
  }
}
