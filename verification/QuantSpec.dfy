/**
 The quantization job manager (BRAIN-DAEMON/quantize/manager.py) as a machine of atomic steps: one step
 for each stretch of code between two awaits.  `published` is the history of events handed to the event
 loop; those from index `dispatched` on are callbacks that have not run yet.
 */
module QuantSpec {
  import opened Helpers
  import opened QuantJob

  // ---------------------------------------------------------------- events and consumers

  datatype Event =
    | Snapshot(job: Job)
    | QueuedEvent | StartedEvent | Heartbeat | Progress(n: nat)
    | DoneEvent | CancelledEvent | ErrorEvent(message: string)

  predicate IsTerminal(e: Event) {
    e.DoneEvent? || e.CancelledEvent? || e.ErrorEvent?
  }

  /** The status in which a job ends when it publishes terminal event `e`. */
  predicate Ends(e: Event, status: Status) {
    match e
    case DoneEvent => status == Done
    case CancelledEvent => status == Cancelled
    case ErrorEvent(_) => status == Failed
    case _ => false
  }

  datatype Published = Published(job: Id, event: Event)

  const CAPACITY: nat := 1000

  /**
   One bounded queue.  `blocked` holds the terminal event whose `put` waits for room, `received` what the
   client has taken.  `snapshot`, `before` and `offered` are history: the first event, what had been
   dispatched for the job before the subscription, and what has been dispatched to this queue since.
   */
  datatype Consumer = Consumer(job: Id, buffer: seq<Event>, blocked: seq<Event>, received: seq<Event>,
                               snapshot: Event, before: seq<Event>, offered: seq<Event>)

  /** All the client has got or will get of what was kept for it, in order. */
  function View(c: Consumer): seq<Event> {
    c.received + c.buffer + c.blocked
  }

  /** `_do_publish` for one queue: terminal events wait for room, others are dropped when there is none. */
  function Offer(c: Consumer, e: Event): Consumer {
    if IsTerminal(e) then c.(blocked := c.blocked + [e], offered := c.offered + [e])
    else if |c.buffer| < CAPACITY then c.(buffer := c.buffer + [e], offered := c.offered + [e])
    else c.(offered := c.offered + [e])
  }

  // ---------------------------------------------------------------- the machine

  datatype Worker = Idle | Holding(id: Id) | Busy(id: Id)

  datatype State = State(
    jobs: map<Id, Job>,
    queue: seq<Id>,
    worker: Worker,
    cancelRequests: set<Id>,
    published: seq<Published>,
    dispatched: nat,
    streams: map<Id, set<nat>>,
    consumers: map<nat, Consumer>,
    used: set<Id>,
    endedBefore: set<Id>)

  /** What a runner's callbacks write into the record of the job it runs, without saying so. */
  datatype Change = SetProgress(pct: real, message: string) | SetPid(pid: Option<int>) | AddOutput(output: JobOutput)

  function Changed(job: Job, change: Change): (changed: Job)
    ensures changed.id == job.id && changed.status == job.status
  {
    match change
    case SetProgress(pct, message) => job.(progressPct := pct, progressMessage := Some(message))
    case SetPid(pid) => job.(pid := pid)
    case AddOutput(output) => job.(outputs := job.outputs + [output])
  }

  datatype Action =
    | Submit(id: Id, jobType: string, payload: Json, now: real)
    | Cancel(id: Id, now: real)
    | Delete(id: Id)
    | Take
    | Start(now: real, log: string)
    | Update(change: Change)
    | Report(n: nat)
    | FinishDone(now: real)
    | FinishCancelled(now: real)
    | FinishFailed(now: real, message: string)
    | Beat
    | Dispatch
    | Subscribe(id: Id, queueId: nat)
    | Unsubscribe(queueId: nat)
    | Deliver(queueId: nat)
    | Drain(queueId: nat)

  function StreamOf(s: State, id: Id): set<nat> {
    if id in s.streams then s.streams[id] else {}
  }

  function Publish(s: State, id: Id, e: Event): State {
    s.(published := s.published + [Published(id, e)])
  }

  function WithJob(s: State, job: Job): State {
    s.(jobs := s.jobs[job.id := job])
  }

  function SubmitJob(s: State, id: Id, jobType: string, payload: Json, now: real): State {
    var job := NewJob(id, jobType, payload, now);
    var queued := WithJob(s, job).(queue := s.queue + [id], streams := s.streams[id := {}],
                                   cancelRequests := s.cancelRequests - {id}, used := s.used + {id});
    Publish(queued, id, QueuedEvent)
  }

  function CancelJob(s: State, id: Id, now: real): State {
    if id !in s.jobs || s.jobs[id].status !in {Queued, Running, Pending} then s
    else
      var asked := s.(cancelRequests := s.cancelRequests + {id});
      if s.jobs[id].status != Queued then asked
      else Publish(WithJob(asked, s.jobs[id].(status := Cancelled, finishedAt := Some(now))), id, CancelledEvent)
  }

  function DeleteJob(s: State, id: Id): State {
    if id !in s.jobs || s.jobs[id].status in {Running, Queued} then s
    else s.(jobs := s.jobs - {id}, streams := s.streams - {id}, cancelRequests := s.cancelRequests - {id})
  }

  /** The worker looks at the id it took: unknown and cancelled jobs are passed over, any other is run. */
  function StartJob(s: State, now: real, log: string): State {
    if !s.worker.Holding? then s
    else
      var id := s.worker.id;
      if id !in s.jobs || s.jobs[id].status == Cancelled then s.(worker := Idle)
      else
        var job := s.jobs[id].(status := Running, startedAt := Some(now), logPath := Some(log));
        Publish(WithJob(s, job).(worker := Busy(id)), id, StartedEvent)
  }

  function TakeNext(s: State): State {
    if s.worker.Idle? && s.queue != [] then s.(worker := Holding(s.queue[0]), queue := s.queue[1..]) else s
  }

  /** The record of the job the worker is running. */
  function RunningJob(s: State): Option<Job> {
    if s.worker.Busy? && s.worker.id in s.jobs then Some(s.jobs[s.worker.id]) else None
  }

  /** The running job ends: its final record, and the terminal event that announces it. */
  function FinishJob(s: State, job: Job, e: Event): State {
    Publish(WithJob(s, job).(worker := Idle), job.id, e)
  }

  /** What the runner, or the heartbeat on its behalf, does to the running job. */
  function RunnerStep(s: State, job: Job, a: Action): State {
    match a
    case Update(change) => WithJob(s, Changed(job, change))
    case Report(n) => Publish(s, job.id, Progress(n))
    case FinishDone(now) =>
      FinishJob(s, job.(status := Done, progressPct := 100.0, finishedAt := Some(now)), DoneEvent)
    case FinishCancelled(now) =>
      FinishJob(s, job.(status := Cancelled, finishedAt := Some(now)), CancelledEvent)
    case FinishFailed(now, message) =>
      FinishJob(s, job.(status := Failed, finishedAt := Some(now), errorMessage := Some(message)), ErrorEvent(message))
    case _ => Publish(s, job.id, Heartbeat)
  }

  function DispatchOne(s: State): State {
    if s.dispatched < |s.published| then
      var p := s.published[s.dispatched];
      s.(dispatched := s.dispatched + 1,
         consumers := map c | c in s.consumers ::
           if c in StreamOf(s, p.job) then Offer(s.consumers[c], p.event) else s.consumers[c])
    else s
  }

  function AddQueue(s: State, id: Id, c: nat): State {
    if id !in s.jobs || c in s.consumers then s
    else
      var first := Snapshot(s.jobs[id]);
      var sofar := EventsOf(s.published[..Min(s.dispatched, |s.published|)], id);
      s.(streams := s.streams[id := StreamOf(s, id) + {c}],
         consumers := s.consumers[c := Consumer(id, [first], [], [], first, sofar, [])])
  }

  function DropQueue(s: State, c: nat): State {
    if c in s.consumers && s.consumers[c].job in s.streams
    then s.(streams := s.streams[s.consumers[c].job := s.streams[s.consumers[c].job] - {c}]) else s
  }

  function DeliverOne(s: State, c: nat): State {
    if c in s.consumers && s.consumers[c].blocked != [] && |s.consumers[c].buffer| < CAPACITY then
      var q := s.consumers[c];
      s.(consumers := s.consumers[c := q.(buffer := q.buffer + [q.blocked[0]], blocked := q.blocked[1..])])
    else s
  }

  function DrainOne(s: State, c: nat): State {
    if c in s.consumers && s.consumers[c].buffer != [] then
      var q := s.consumers[c];
      s.(consumers := s.consumers[c := q.(received := q.received + [q.buffer[0]], buffer := q.buffer[1..])])
    else s
  }

  function Next(s: State, a: Action): State {
    match a
    case Submit(id, jobType, payload, now) =>
      if id in s.used || jobType !in JOB_TYPES then s else SubmitJob(s, id, jobType, payload, now)
    case Cancel(id, now) => CancelJob(s, id, now)
    case Delete(id) => DeleteJob(s, id)
    case Take => TakeNext(s)
    case Start(now, log) => StartJob(s, now, log)
    case Dispatch => DispatchOne(s)
    case Subscribe(id, c) => AddQueue(s, id, c)
    case Unsubscribe(c) => DropQueue(s, c)
    case Deliver(c) => DeliverOne(s, c)
    case Drain(c) => DrainOne(s, c)
    case _ => if RunningJob(s).Some? then RunnerStep(s, RunningJob(s).value, a) else s
  }

  function Run(s: State, actions: seq<Action>): State
    decreases |actions|
  {
    if actions == [] then s else Run(Next(s, actions[0]), actions[1..])
  }

  /** One job's events among those published, in order. */
  function EventsOf(published: seq<Published>, id: Id): seq<Event> {
    if published == [] then []
    else
      var last := published[|published| - 1];
      var earlier := EventsOf(published[..|published| - 1], id);
      if last.job == id then earlier + [last.event] else earlier
  }

  lemma EventsOfPublish(published: seq<Published>, p: Published, id: Id)
    ensures EventsOf(published + [p], id) ==
            if p.job == id then EventsOf(published, id) + [p.event] else EventsOf(published, id)
  {
    var all := published + [p];
    assert all[..|all| - 1] == published;
  }

  lemma {:induction false} EventsOfPrefix(published: seq<Published>, n: nat, id: Id)
    requires n <= |published|
    ensures EventsOf(published[..n], id) <= EventsOf(published, id)
    decreases |published|
  {
    if n < |published| {
      var init := published[..|published| - 1];
      EventsOfPrefix(init, n, id);
      assert init[..n] == published[..n];
    } else {
      assert published[..n] == published;
    }
  }

  // ---------------------------------------------------------------- invariant: jobs, queue and worker

  /** Ids the worker will still look at, in order. */
  function Waiting(s: State): seq<Id> {
    if s.worker.Holding? then [s.worker.id] + s.queue else s.queue
  }

  predicate JobInv(s: State, id: Id)
    requires id in s.jobs
  {
    var status := s.jobs[id].status;
    && s.jobs[id].id == id && id in s.used
    && status != Pending
    && (status == Running <==> s.worker == Busy(id))
    && (status == Queued ==> id in Waiting(s))
    && (id in Waiting(s) ==> status == Queued || status == Cancelled)
  }

  /** At most one job runs, and every queued job waits exactly once. */
  predicate JobsInv(s: State) {
    && Distinct(Waiting(s))
    && (forall id :: id in Waiting(s) ==> id in s.used)
    && (s.worker.Busy? ==> s.worker.id in s.jobs)
    && (forall id :: id in s.jobs ==> JobInv(s, id))
  }

  // ---------------------------------------------------------------- invariant: published events

  predicate TerminalOnlyLast(events: seq<Event>) {
    forall i :: 0 <= i < |events| - 1 ==> !IsTerminal(events[i])
  }

  /** Nothing follows a terminal event; a job that ended in this run has published the matching one. */
  predicate EventInv(s: State, id: Id) {
    var events := EventsOf(s.published, id);
    && TerminalOnlyLast(events)
    && (id !in s.used ==> events == [])
    && (id in s.jobs && s.jobs[id].status in {Queued, Running} ==>
          id !in s.endedBefore && (events == [] || !IsTerminal(events[|events| - 1])))
    && (id in s.jobs && s.jobs[id].status in {Done, Failed, Cancelled} && id !in s.endedBefore ==>
          events != [] && Ends(events[|events| - 1], s.jobs[id].status))
  }

  ghost predicate EventsInv(s: State) {
    forall id :: EventInv(s, id)
  }

  // ---------------------------------------------------------------- invariant: consumers

  /** `kept` is `offered` without some events, none of them terminal. */
  predicate Kept(kept: seq<Event>, offered: seq<Event>)
    decreases |offered|
  {
    if offered == [] then kept == []
    else
      var e, rest := offered[|offered| - 1], offered[..|offered| - 1];
      || (kept != [] && kept[|kept| - 1] == e && Kept(kept[..|kept| - 1], rest))
      || (!IsTerminal(e) && Kept(kept, rest))
  }

  predicate ConsumerInv(s: State, c: nat)
    requires c in s.consumers && s.dispatched <= |s.published|
  {
    var q := s.consumers[c];
    && |q.buffer| <= CAPACITY
    && View(q) != [] && View(q)[0] == q.snapshot && q.snapshot.Snapshot?
    && Kept(View(q)[1..], q.offered)
    && (q.blocked != [] ==> q.offered != [] && q.blocked == [q.offered[|q.offered| - 1]]
                            && IsTerminal(q.blocked[0]))
    && q.received + q.buffer != []
    && (var sofar := EventsOf(s.published[..s.dispatched], q.job);
        if c in StreamOf(s, q.job) then sofar == q.before + q.offered else q.before + q.offered <= sofar)
  }

  predicate FanInv(s: State) {
    && s.dispatched <= |s.published|
    && (forall id, c :: id in s.streams && c in s.streams[id] ==> c in s.consumers && s.consumers[c].job == id)
    && (forall c :: c in s.consumers ==> ConsumerInv(s, c))
  }

  ghost predicate Inv(s: State) {
    JobsInv(s) && EventsInv(s) && FanInv(s)
  }
}
