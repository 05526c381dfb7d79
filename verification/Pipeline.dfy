/**
 The whole deploy pipeline as one interleaved system: submitters insert rows and enqueue, the
 worker drives one job at a time through its row updates and its rollout, drainers close the
 queue, and the process may exit at any point and boot again on the rows it left behind.
 */
module Pipeline {
  import opened Options
  import Q = QueueProtocol
  import R = RolloutProtocol
  import H = RolloutHost

  type JobId = Q.JobId

  /** A Compose service; only its identity matters. */
  type Service(==, 0, !new)

  datatype Status = Queued | Running | Success | Failed

  datatype Row = Row(status: Status, error: Option<string>, service: Option<Service>)

  /** Where the worker is in the job it runs. */
  datatype Worker =
    | Idle
    | Begun(id: JobId)
    | Discovering(id: JobId)
    | Located(id: JobId, service: Service)
    | Rolling(id: JobId, service: Service, phase: R.State, before: H.Host)
    | Closing(id: JobId, error: Option<string>)
    | Returning(id: JobId)

  /**
   `rows` and `hosts` survive the process; `q` and `worker` do not. The last four are history:
   the jobs whose function was started, those whose rollout succeeded, those Enqueue turned
   away, and those an exit of the process left queued.
   */
  datatype State = State(
    up: bool,
    rows: map<JobId, Row>,
    hosts: map<Service, H.Host>,
    q: Q.State,
    worker: Worker,
    began: seq<JobId>,
    deployed: set<JobId>,
    rejected: set<JobId>,
    stranded: set<JobId>)

  /** `ok`, `saved`, `took`: the store write took effect; an insert that did may still report an error. */
  datatype Move =
    | Insert(id: JobId, ok: bool, took: bool)
    | QueueMove(m: Q.Move)
    | Receive
    | MarkRunning(ok: bool)
    | Discover(found: Option<Service>, saved: bool, msg: string)
    | Prepare(ok: bool, msg: string)
    | RolloutCall(e: R.Event)
    | RolloutReturns(msg: string)
    | MarkFinal(ok: bool)
    | JobReturns
    | ProcessExit
    | Boot(ok: bool)

  const INTERRUPTED := "interrupted: server restarted"

  predicate Terminal(st: Status) { st.Success? || st.Failed? }

  function UpdateStatus(rows: map<JobId, Row>, id: JobId, st: Status, error: Option<string>): map<JobId, Row> {
    if id in rows then rows[id := rows[id].(status := st, error := error)] else rows
  }

  function UpdateDiscovery(rows: map<JobId, Row>, id: JobId, service: Service): map<JobId, Row> {
    if id in rows then rows[id := rows[id].(service := Some(service))] else rows
  }

  function MarkInterruptedJobsFailed(rows: map<JobId, Row>): map<JobId, Row> {
    map id | id in rows ::
      if rows[id].status.Running? then rows[id].(status := Failed, error := Some(INTERRUPTED)) else rows[id]
  }

  /** The queue moves of submitters and drainers; the worker's own are tied to the job below. */
  predicate Outside(m: Q.Move) {
    match m
    case Call(t) => t.Drainer?
    case Lock(_) => true
    case Act(_) => true
    case TimeOut(_) => true
    case Exit => true
    case _ => false
  }

  /** The job that this move made Enqueue turn away. */
  function NewlyRejected(m: Q.Move, q: Q.State): set<JobId> {
    if m.Act? && m.t.Submitter? && m.t in q.threads && q.threads[m.t].EnqueueDone? && !q.threads[m.t].result.Accepted?
    then {m.t.id} else {}
  }

  function QueuedIds(rows: map<JobId, Row>): set<JobId> { set id | id in rows && rows[id].status.Queued? }

  function Step(s: State, m: Move): Option<State> {
    match m
    case Boot(ok) =>
      if s.up then None
      else Some(s.(up := true, rows := if ok then MarkInterruptedJobsFailed(s.rows) else s.rows))
    case _ =>
      if !s.up then None else StepUp(s, m)
  }

  function StepUp(s: State, m: Move): Option<State> {
    match m
    case Insert(id, ok, took) =>
      if !took then if ok then None else Some(s)
      else if id in s.rows then None  // the primary key refuses it
      else if !ok then Some(s.(rows := s.rows[id := Row(Queued, None, None)]))
      else
        var q := Q.Step(s.q, Q.Call(Q.Submitter(id)));
        if q.None? then None
        else Some(s.(rows := s.rows[id := Row(Queued, None, None)], q := q.value))
    case QueueMove(qm) =>
      if !Outside(qm) then None
      else
        var q := Q.Step(s.q, qm);
        if q.None? then None
        else Some(s.(q := q.value, rejected := s.rejected + NewlyRejected(qm, q.value)))
    case Receive =>
      if !s.worker.Idle? then None
      else
        var q := Q.Step(s.q, Q.Receive);
        if q.None? then None
        else Some(s.(q := q.value, worker := Begun(s.q.buffer[0]), began := s.began + [s.q.buffer[0]]))
    case ProcessExit =>
      Some(s.(up := false, q := Q.INIT, worker := Idle, stranded := s.stranded + (QueuedIds(s.rows) - s.rejected)))
    case _ => StepJob(s, m)
  }

  /** The steps of the job the worker runs. */
  function StepJob(s: State, m: Move): Option<State> {
    match (s.worker, m)
    case (Begun(id), MarkRunning(ok)) =>
      Some(s.(worker := Discovering(id), rows := if ok then UpdateStatus(s.rows, id, Running, None) else s.rows))
    case (Discovering(id), Discover(found, saved, msg)) =>
      if found.None? then Some(s.(worker := Closing(id, Some(msg))))
      else if found.value !in s.hosts then None
      else Some(s.(worker := Located(id, found.value),
                   rows := if saved then UpdateDiscovery(s.rows, id, found.value) else s.rows))
    case (Located(id, svc), Prepare(ok, msg)) =>
      if !ok then Some(s.(worker := Closing(id, Some(msg))))
      else if svc !in s.hosts then None
      else Some(s.(worker := Rolling(id, svc, R.Start, s.hosts[svc])))
    case (Rolling(id, svc, phase, before), RolloutCall(e)) =>
      if svc !in s.hosts || R.Step(phase, e).None? then None
      else Some(s.(worker := Rolling(id, svc, R.Step(phase, e).value, before),
                   hosts := s.hosts[svc := H.Apply(s.hosts[svc], e)]))
    case (Rolling(id, _, phase, _), RolloutReturns(msg)) =>
      if !phase.Ended? then None
      else if phase.outcome.Succeeded? then Some(s.(worker := Closing(id, None), deployed := s.deployed + {id}))
      else Some(s.(worker := Closing(id, Some(msg))))
    case (Closing(id, error), MarkFinal(ok)) =>
      Some(s.(worker := Returning(id),
              rows := if ok then UpdateStatus(s.rows, id, if error.None? then Success else Failed, error) else s.rows))
    case (Returning(_), JobReturns) =>
      var q := Q.Step(s.q, Q.Finish);
      if q.None? then None else Some(s.(q := q.value, worker := Idle))
    case _ => None
  }

  function RunFrom(s: State, ms: seq<Move>): Option<State>
    decreases |ms|
  {
    if ms == [] then Some(s)
    else
      match Step(s, ms[0])
      case None => None
      case Some(s') => RunFrom(s', ms[1..])
  }

  /** A first start: no rows, the process not yet booted. */
  function Init(hosts: map<Service, H.Host>): State {
    State(false, map[], hosts, Q.INIT, Idle, [], {}, {}, {})
  }

  // ---------- Invariants that hold even when store writes fail ----------

  ghost predicate Distinct(ids: seq<JobId>) {
    forall i, j :: 0 <= i < j < |ids| ==> ids[i] != ids[j]
  }

  /** The pc of the call that submits `id`, in this lifetime of the process. */
  predicate Submitting(q: Q.State, id: JobId) {
    Q.Submitter(id) in q.threads && !q.threads[Q.Submitter(id)].EnqueueDone?
  }

  predicate Enqueued(q: Q.State, id: JobId) {
    Q.Submitter(id) in q.threads && q.threads[Q.Submitter(id)] == Q.EnqueueDone(Q.Accepted)
  }

  /** How the queue, the rows and the started jobs fit together. */
  ghost predicate Links(s: State) {
    && Q.Inv(s.q)
    && (forall id :: Q.Submitter(id) in s.q.threads ==> id in s.rows)
    && (forall id :: Q.Submitter(id) in s.q.threads && !Enqueued(s.q, id) ==> id !in s.began)
    && (forall id :: id in s.q.buffer ==> Enqueued(s.q, id) && id !in s.began)
    && (forall id :: id in s.began ==> id in s.rows)
    && Distinct(s.q.buffer) && Distinct(s.began)
  }

  ghost predicate RowOk(s: State, id: JobId)
    requires id in s.rows
  {
    && (s.rows[id].status.Failed? <==> s.rows[id].error.Some?)
    && (id !in s.began ==> s.rows[id].status.Queued?)
    && (s.rows[id].status.Success? ==> id in s.deployed)
  }

  ghost predicate Rows(s: State) { forall id :: id in s.rows ==> RowOk(s, id) }

  ghost predicate Job(s: State) {
    && (s.worker.Idle? <==> s.q.inFlight.None?)
    && (!s.up ==> s.worker.Idle?)
    && (!s.worker.Idle? ==>
          && s.q.inFlight == Some(s.worker.id) && s.worker.id in s.began && s.worker.id in s.rows
          && (s.worker.Begun? ==> s.rows[s.worker.id].status.Queued?)
          && (!s.worker.Returning? ==> !Terminal(s.rows[s.worker.id].status))
          && (s.worker.Closing? && s.worker.error.None? ==> s.worker.id in s.deployed))
  }

  ghost predicate Inv(s: State) { Links(s) && Rows(s) && Job(s) }

  /** What a submitter's or drainer's move can do to the queue. */
  lemma OutsideEffect(q: Q.State, m: Q.Move, q': Q.State)
    requires Q.Inv(q) && Outside(m) && Q.Step(q, m) == Some(q')
    ensures q'.inFlight == q.inFlight && q'.completed == q.completed
    ensures forall id :: Q.Submitter(id) in q'.threads <==> Q.Submitter(id) in q.threads
    ensures forall id :: Enqueued(q, id) ==> Enqueued(q', id)
    ensures || (q'.buffer == q.buffer && forall id :: Enqueued(q', id) ==> Enqueued(q, id))
            || (m.Act? && m.t.Submitter? && Submitting(q, m.t.id) && Enqueued(q', m.t.id)
                && q'.buffer == q.buffer + [m.t.id]
                && forall id :: id != m.t.id && Enqueued(q', id) ==> Enqueued(q, id))
  {
    hide Q.Fifo;
    if m.Act? {
      assert Q.ThreadOk(q, m.t);
    }
  }

  lemma LinksInsert(s: State, id: JobId, s': State)
    requires Links(s) && StepUp(s, Insert(id, true, true)) == Some(s')
    ensures Links(s')
  {
    hide StepJob, Q.Fifo, Q.ActOf, Q.Locking;
    Q.FifoStep(s.q, Q.Call(Q.Submitter(id)), s'.q);
    Q.LockingStep(s.q, Q.Call(Q.Submitter(id)), s'.q);
  }

  lemma LinksQueueMove(s: State, m: Q.Move, s': State)
    requires Links(s) && StepUp(s, QueueMove(m)) == Some(s')
    ensures Links(s')
  {
    hide StepJob, Q.Fifo, Q.ActOf, Q.Locking;
    Q.FifoStep(s.q, m, s'.q);
    Q.LockingStep(s.q, m, s'.q);
    OutsideEffect(s.q, m, s'.q);
    hide Q.Step;
  }

  lemma LinksReceive(s: State, s': State)
    requires Links(s) && StepUp(s, Receive) == Some(s')
    ensures Links(s')
  {
    hide StepJob, Q.Fifo, Q.ActOf, Q.Locking;
    Q.FifoStep(s.q, Q.Receive, s'.q);
    Q.LockingStep(s.q, Q.Receive, s'.q);
    var id := s.q.buffer[0];
    assert id in s.q.buffer && Enqueued(s.q, id) && id in s.rows;
    assert s.q.buffer == [id] + s'.q.buffer;
    assert forall x :: x in s'.began <==> x in s.began || x == id;
    assert forall x :: Enqueued(s'.q, x) <==> Enqueued(s.q, x);
    forall x | x in s'.q.buffer ensures Enqueued(s'.q, x) && x !in s'.began {
      assert x in s.q.buffer;
    }
  }

  /** A step of the worker's job: it keeps the rows' keys and, until it returns, the queue. */
  lemma JobEffect(s: State, m: Move, s': State)
    requires StepJob(s, m) == Some(s')
    ensures s'.rows.Keys == s.rows.Keys && s'.began == s.began && s'.up == s.up
    ensures s'.rejected == s.rejected && s'.stranded == s.stranded && s.deployed <= s'.deployed
    ensures s'.q == s.q || (m.JobReturns? && Q.Step(s.q, Q.Finish) == Some(s'.q))
  {
    hide Q.Step, R.Step, H.Apply;
  }

  lemma LinksJob(s: State, m: Move, s': State)
    requires Links(s) && StepJob(s, m) == Some(s')
    ensures Links(s')
  {
    JobEffect(s, m, s');
    hide StepJob, Q.Fifo, Q.ActOf, Q.Locking;
    if m.JobReturns? {
      Q.FifoStep(s.q, Q.Finish, s'.q);
      Q.LockingStep(s.q, Q.Finish, s'.q);
    }
  }

  lemma LinksStep(s: State, m: Move, s': State)
    requires Links(s) && Step(s, m) == Some(s')
    ensures Links(s')
  {
    hide StepJob, Q.Step, Q.Inv;
    match m
    case Insert(id, ok, took) => if ok { hide Links; LinksInsert(s, id, s'); }
    case QueueMove(qm) => hide Links; LinksQueueMove(s, qm, s');
    case Receive => hide Links; LinksReceive(s, s');
    case Boot(_) =>
    case ProcessExit => Q.InitInv();
    case _ => hide Links; LinksJob(s, m, s');
  }

  /** Every store write keeps the rows in order; the worker's writes concern its own job only. */
  lemma RowsStep(s: State, m: Move, s': State)
    requires Inv(s) && Step(s, m) == Some(s')
    ensures Rows(s')
  {
    hide Q.Step, R.Step, H.Apply, Links;
    assert forall id :: id in s.rows ==> RowOk(s, id);
    forall id | id in s'.rows ensures RowOk(s', id) {
    }
  }

  lemma JobStep(s: State, m: Move, s': State)
    requires Inv(s) && Step(s, m) == Some(s')
    ensures Job(s')
  {
    hide R.Step, H.Apply;
    if m.QueueMove? {
      OutsideEffect(s.q, m.m, s'.q);
      hide Q.Step, Q.Inv, StepJob;
    } else if m.Receive? {
      assert s.q.buffer[0] in s.q.buffer && Enqueued(s.q, s.q.buffer[0]);
      hide StepJob, Q.ActOf, Q.Inv;
    } else if m.Insert? || m.ProcessExit? || m.Boot? {
      hide StepJob, Q.ActOf, Q.Inv;
    } else {
      hide Inv, Links, Rows;
      JobStepJob(s, m, s');
    }
  }

  lemma JobStepJob(s: State, m: Move, s': State)
    requires Job(s) && StepJob(s, m) == Some(s')
    ensures Job(s')
  {
    hide R.Step, H.Apply, Q.ActOf;
  }

  lemma InvStep(s: State, m: Move, s': State)
    requires Inv(s) && Step(s, m) == Some(s')
    ensures Inv(s')
  {
    LinksStep(s, m, s');
    RowsStep(s, m, s');
    JobStep(s, m, s');
    hide Links, Rows, Job, Step;
  }

  lemma InitInv(hosts: map<Service, H.Host>)
    ensures Inv(Init(hosts))
  {
    Q.InitInv();
  }

  // ---------- The life of a row ----------

  function Rank(st: Status): nat { if st.Queued? then 0 else if st.Running? then 1 else 2 }

  /** Rows are kept, statuses only move forward, and a terminal row never changes again. */
  ghost predicate Forward(rows: map<JobId, Row>, rows': map<JobId, Row>) {
    forall id :: id in rows ==>
      && id in rows'
      && Rank(rows[id].status) <= Rank(rows'[id].status)
      && (Terminal(rows[id].status) ==> rows'[id] == rows[id])
  }

  lemma ForwardJob(s: State, m: Move, s': State)
    requires Job(s) && StepJob(s, m) == Some(s')
    ensures Forward(s.rows, s'.rows) && s'.began == s.began
  {
    hide Q.Step, R.Step, H.Apply;
  }

  lemma ForwardStep(s: State, m: Move, s': State)
    requires Inv(s) && Step(s, m) == Some(s')
    ensures Forward(s.rows, s'.rows) && s.began <= s'.began
  {
    hide Q.Step, StepJob, Links, Rows, Job;
    if s.up && !(m.Insert? || m.QueueMove? || m.Receive? || m.ProcessExit? || m.Boot?) {
      hide Forward;
      ForwardJob(s, m, s');
    }
  }

  /**
   In every run, across exits and restarts of the process and whichever store writes fail:
   statuses only move forward, terminal rows stay as they are, no job's function starts twice,
   an error is recorded exactly for failed rows, and only a job whose rollout succeeded is
   marked successful.
   */
  lemma {:induction false} Lifecycle(s: State, ms: seq<Move>)
    requires Inv(s) && RunFrom(s, ms).Some?
    ensures var r := RunFrom(s, ms).value;
            && Inv(r) && Forward(s.rows, r.rows) && s.began <= r.began && Distinct(r.began)
            && (forall id :: id in r.rows ==>
                  && (r.rows[id].status.Failed? <==> r.rows[id].error.Some?)
                  && (r.rows[id].status.Success? ==> id in r.deployed))
    decreases |ms|
  {
    hide Step;
    if ms == [] {
      assert forall id :: id in s.rows ==> RowOk(s, id);
    } else {
      var s' := Step(s, ms[0]).value;
      InvStep(s, ms[0], s');
      ForwardStep(s, ms[0], s');
      Lifecycle(s', ms[1..]);
      hide Inv;
    }
  }

  // ---------- Accounting for queued rows ----------

  /** The store writes of the worker and of a boot take effect; an insert that does reports it. */
  predicate Faultless(m: Move) {
    match m
    case Insert(_, ok, took) => took ==> ok
    case MarkRunning(ok) => ok
    case MarkFinal(ok) => ok
    case Boot(ok) => ok
    case _ => true
  }

  function One(b: bool): nat { if b then 1 else 0 }

  function QueuePlaces(q: Q.State, id: JobId): nat { One(id in q.buffer) + One(Submitting(q, id)) }

  /**
   In how many of these a job is: waiting in the channel, being submitted, taken by the worker
   but not yet marked running, turned away by Enqueue, left behind by an exit of the process.
   */
  function Places(s: State, id: JobId): nat {
    QueuePlaces(s.q, id) + One(s.worker == Begun(id)) + One(id in s.rejected) + One(id in s.stranded)
  }

  ghost predicate PlaceOk(s: State, id: JobId) {
    Places(s, id) == One(id in s.rows && s.rows[id].status.Queued?)
  }

  predicate WorksOn(w: Worker, id: JobId) {
    (w.Discovering? || w.Located? || w.Rolling? || w.Closing?) && w.id == id
  }

  ghost predicate Accounted(s: State) {
    && (forall id :: PlaceOk(s, id))
    && (s.up ==> forall id :: id in s.rows ==> (s.rows[id].status.Running? <==> WorksOn(s.worker, id)))
  }

  /** Enqueue moves a job from being submitted to the channel or to the rejected ones. */
  lemma SubmitEffect(s: State, m: Q.Move, q': Q.State)
    requires Links(s) && Outside(m) && Q.Step(s.q, m) == Some(q')
    ensures forall id :: QueuePlaces(q', id) + One(id in NewlyRejected(m, q')) == QueuePlaces(s.q, id)
  {
    OutsideEffect(s.q, m, q');
    hide Q.Inv;
    forall id ensures QueuePlaces(q', id) + One(id in NewlyRejected(m, q')) == QueuePlaces(s.q, id) {
      assert id in s.q.buffer ==> Enqueued(s.q, id);
    }
  }

  lemma AccountQueueMove(s: State, m: Q.Move, s': State)
    requires Inv(s) && Accounted(s) && StepUp(s, QueueMove(m)) == Some(s') && s.up
    ensures Accounted(s')
  {
    SubmitEffect(s, m, s'.q);
    hide Inv, Q.Step, QueuePlaces, NewlyRejected, StepJob;
    forall id ensures PlaceOk(s', id) {
      assert PlaceOk(s, id);
    }
  }

  lemma AccountReceive(s: State, s': State)
    requires Inv(s) && Accounted(s) && StepUp(s, Receive) == Some(s') && s.up
    ensures Accounted(s')
  {
    var id := s.q.buffer[0];
    assert s.q.buffer == [id] + s'.q.buffer;
    assert id !in s'.q.buffer by {
      hide Rows, Job, Step, StepJob;
      assert Distinct(s.q.buffer);
    }
    hide Inv, StepJob;
    forall x ensures PlaceOk(s', x) {
      assert PlaceOk(s, x);
      assert x in s.q.buffer <==> x == id || x in s'.q.buffer;
    }
  }

  lemma AccountInsert(s: State, id: JobId, s': State)
    requires Inv(s) && Accounted(s) && StepUp(s, Insert(id, true, true)) == Some(s') && s.up
    ensures Accounted(s')
  {
    hide Links, Rows, StepJob;
    forall x ensures PlaceOk(s', x) {
      assert PlaceOk(s, x);
    }
  }

  lemma AccountJob(s: State, m: Move, s': State)
    requires Inv(s) && Accounted(s) && StepJob(s, m) == Some(s') && Faultless(m) && s.up
    ensures Accounted(s')
  {
    hide R.Step, H.Apply, Links, Rows, Q.ActOf;
    forall x ensures PlaceOk(s', x) {
      assert PlaceOk(s, x);
    }
  }

  lemma AccountExit(s: State, s': State)
    requires Accounted(s) && StepUp(s, ProcessExit) == Some(s')
    ensures Accounted(s')
  {
    forall x ensures PlaceOk(s', x) {
      assert PlaceOk(s, x);
    }
  }

  lemma AccountBoot(s: State, s': State)
    requires Inv(s) && Accounted(s) && Step(s, Boot(true)) == Some(s')
    ensures Accounted(s')
  {
    hide Links, Rows;
    forall x ensures PlaceOk(s', x) {
      assert PlaceOk(s, x);
    }
  }

  lemma AccountStep(s: State, m: Move, s': State)
    requires Inv(s) && Accounted(s) && Step(s, m) == Some(s') && Faultless(m)
    ensures Accounted(s')
  {
    hide Inv, Accounted, StepJob, Q.Step;
    match m
    case Insert(id, ok, _) => if ok { AccountInsert(s, id, s'); }
    case QueueMove(qm) => AccountQueueMove(s, qm, s');
    case Receive => AccountReceive(s, s');
    case ProcessExit => AccountExit(s, s');
    case Boot(ok) => AccountBoot(s, s');
    case _ => AccountJob(s, m, s');
  }

  /**
   While the store takes every write: a row is queued exactly when its job is in one of the five
   places, and then in only one of them; and while the process is up at most one row is
   running, that of the job the worker is on.
   */
  lemma {:induction false} QueuedRowsAccounted(s: State, ms: seq<Move>)
    requires Inv(s) && Accounted(s) && RunFrom(s, ms).Some?
    requires forall m :: m in ms ==> Faultless(m)
    ensures var r := RunFrom(s, ms).value;
            && (forall id :: Places(r, id) == One(id in r.rows && r.rows[id].status.Queued?))
            && (r.up ==> forall id :: id in r.rows ==> (r.rows[id].status.Running? <==> WorksOn(r.worker, id)))
    decreases |ms|
  {
    if ms == [] {
      forall id ensures Places(s, id) == One(id in s.rows && s.rows[id].status.Queued?) {
        assert PlaceOk(s, id);
      }
    } else {
      hide Inv, Accounted, Step, Places;
      var s' := Step(s, ms[0]).value;
      assert ms[0] in ms;
      InvStep(s, ms[0], s');
      AccountStep(s, ms[0], s');
      QueuedRowsAccounted(s', ms[1..]);
    }
  }

  /** No move takes a job off these records, and only the worker's next job is begun. */
  lemma RecordsGrow(s: State, m: Move, s': State)
    requires Step(s, m) == Some(s')
    ensures s.rejected <= s'.rejected && s.stranded <= s'.stranded
    ensures forall id :: id in s'.began ==> id in s.began || id in s.q.buffer
  {
    if m.Receive? {
      hide StepJob, Q.ActOf;
    } else {
      hide Q.Step, R.Step, H.Apply;
    }
  }

  /** A job turned away or stranded is nowhere else. */
  lemma LeftNowhereElse(s: State, id: JobId)
    requires Accounted(s) && (id in s.rejected || id in s.stranded)
    ensures id in s.rows && s.rows[id].status.Queued? && !Submitting(s.q, id)
    ensures id !in s.q.buffer && s.worker != Begun(id) && (s.up ==> !WorksOn(s.worker, id))
  {
    assert PlaceOk(s, id);
  }

  /**
   While the store takes every write: a job that Enqueue turned away, or that an exit of the
   process left queued, keeps its queued row in every later run, over any number of restarts, and
   no worker takes it up again.
   */
  lemma {:induction false} QueuedForGood(s: State, ms: seq<Move>, id: JobId)
    requires Inv(s) && Accounted(s) && RunFrom(s, ms).Some?
    requires forall m :: m in ms ==> Faultless(m)
    requires id in s.rejected || id in s.stranded
    ensures var r := RunFrom(s, ms).value;
            && (id in s.rejected ==> id in r.rejected) && (id in s.stranded ==> id in r.stranded)
            && id in r.rows && r.rows[id].status.Queued? && id !in r.q.buffer
            && (r.up ==> r.worker != Begun(id) && !WorksOn(r.worker, id))
            && (id in r.began ==> id in s.began)
    decreases |ms|
  {
    hide Inv, Accounted, Step, Submitting, WorksOn;
    LeftNowhereElse(s, id);
    if ms != [] {
      var s' := Step(s, ms[0]).value;
      assert ms[0] in ms;
      InvStep(s, ms[0], s');
      AccountStep(s, ms[0], s');
      RecordsGrow(s, ms[0], s');
      QueuedForGood(s', ms[1..], id);
    }
  }

  lemma InitAccounted(hosts: map<Service, H.Host>)
    ensures Accounted(Init(hosts))
  {
  }
}
