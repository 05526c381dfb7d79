/**
 The job queue under concurrency: any number of submitters and drainers, one worker, a mutex
 and a bounded channel, interleaved at every point where another goroutine can run.
 */
module QueueProtocol {
  import opened Options

  /** A job's function, identified by the job it runs. */
  type JobId(==, 0, !new)

  datatype Thread = Submitter(id: JobId) | Drainer(n: nat)

  datatype EnqueueResult = Accepted | ErrQueueFull | ErrQueueDrained

  /** Where a call of Enqueue or Drain stands; the `Holding` ones are inside the mutex. */
  datatype Pc =
    | EnqueueStart
    | EnqueueHolding
    | EnqueueHoldingChecked
    | EnqueueDone(result: EnqueueResult)
    | DrainStart
    | DrainHolding
    | DrainHoldingMarked
    | DrainWaiting
    | DrainDone(closer: bool, ok: bool)

  const CAPACITY := 1024

  /** `accepted` and `completed` are histories; `panicked`: a closed channel was sent on or closed. */
  datatype State = State(
    mutex: Option<Thread>,
    drained: bool,
    buffer: seq<JobId>,
    closed: bool,
    inFlight: Option<JobId>,
    exited: bool,
    threads: map<Thread, Pc>,
    accepted: seq<JobId>,
    completed: seq<JobId>,
    panicked: bool)

  const INIT := State(None, false, [], false, None, false, map[], [], [], false)

  datatype Move =
    | Call(t: Thread)     // a goroutine calls Enqueue or Drain
    | Lock(t: Thread)
    | Act(t: Thread)      // its next action after that; the last one inside the mutex unlocks it
    | TimeOut(t: Thread)  // Drain's timer fires first
    | Receive             // the worker takes the next job off the channel
    | Finish              // the job's function returns
    | Exit                // the worker finds the channel closed and empty

  function StartOf(t: Thread): Pc { if t.Submitter? then EnqueueStart else DrainStart }

  predicate Holding(pc: Pc) {
    pc.EnqueueHolding? || pc.EnqueueHoldingChecked? || pc.DrainHolding? || pc.DrainHoldingMarked?
  }

  /** `t` goes on to `pc`, releasing the mutex. */
  function Unlock(s: State, t: Thread, pc: Pc): State {
    s.(mutex := None, threads := s.threads[t := pc])
  }

  function ActOf(s: State, t: Thread): Option<State>
    requires t in s.threads
  {
    match s.threads[t]
    case EnqueueHolding =>
      Some(if s.drained then Unlock(s, t, EnqueueDone(ErrQueueDrained))
           else s.(threads := s.threads[t := EnqueueHoldingChecked]))
    case EnqueueHoldingChecked =>
      if !t.Submitter? then None
      else if s.closed then Some(s.(panicked := true))
      else if |s.buffer| < CAPACITY then
        Some(Unlock(s.(buffer := s.buffer + [t.id], accepted := s.accepted + [t.id]), t, EnqueueDone(Accepted)))
      else Some(Unlock(s, t, EnqueueDone(ErrQueueFull)))
    case DrainHolding =>
      Some(if s.drained then Unlock(s, t, DrainDone(false, true))
           else s.(drained := true, threads := s.threads[t := DrainHoldingMarked]))
    case DrainHoldingMarked =>
      Some(if s.closed then s.(panicked := true) else Unlock(s.(closed := true), t, DrainWaiting))
    case DrainWaiting =>
      if s.exited then Some(s.(threads := s.threads[t := DrainDone(true, true)])) else None
    case _ => None
  }

  function Step(s: State, m: Move): Option<State> {
    match m
    case Call(t) => if t in s.threads then None else Some(s.(threads := s.threads[t := StartOf(t)]))
    case Lock(t) =>
      if t !in s.threads || s.mutex.Some? then None
      else if s.threads[t].EnqueueStart? then Some(s.(mutex := Some(t), threads := s.threads[t := EnqueueHolding]))
      else if s.threads[t].DrainStart? then Some(s.(mutex := Some(t), threads := s.threads[t := DrainHolding]))
      else None
    case Act(t) => if t in s.threads then ActOf(s, t) else None
    case TimeOut(t) =>
      if t in s.threads && s.threads[t].DrainWaiting? then Some(s.(threads := s.threads[t := DrainDone(true, false)]))
      else None
    case Receive =>
      if s.exited || s.inFlight.Some? || s.buffer == [] then None
      else Some(s.(inFlight := Some(s.buffer[0]), buffer := s.buffer[1..]))
    case Finish =>
      if s.inFlight.None? then None
      else Some(s.(inFlight := None, completed := s.completed + [s.inFlight.value]))
    case Exit =>
      if s.exited || s.inFlight.Some? || s.buffer != [] || !s.closed then None
      else Some(s.(exited := true))
  }

  function RunFrom(s: State, ms: seq<Move>): Option<State>
    decreases |ms|
  {
    if ms == [] then Some(s)
    else
      match Step(s, ms[0])
      case None => None
      case Some(s') => RunFrom(s', ms[1..])
  }

  function Current(s: State): seq<JobId> { if s.inFlight.Some? then [s.inFlight.value] else [] }

  /** The queue holds what was accepted, in order: done, then running, then waiting. */
  ghost predicate Fifo(s: State) {
    && s.accepted == s.completed + Current(s) + s.buffer
    && |s.buffer| <= CAPACITY
  }

  /** What is true of each call that has started. */
  ghost predicate ThreadOk(s: State, t: Thread)
    requires t in s.threads
  {
    var pc := s.threads[t];
    && (Holding(pc) <==> s.mutex == Some(t))
    && (t.Submitter? <==> pc.EnqueueStart? || pc.EnqueueHolding? || pc.EnqueueHoldingChecked? || pc.EnqueueDone?)
    && (pc.EnqueueHoldingChecked? ==> !s.drained)
    && (pc.DrainHoldingMarked? ==> s.drained && !s.closed)
    && (pc.DrainWaiting? ==> s.closed)
    && (pc.DrainDone? && pc.closer ==> s.closed && (pc.ok ==> s.exited))
    && (pc.DrainDone? && !pc.closer ==> s.drained && pc.ok)
  }

  ghost predicate Locking(s: State) {
    && (forall t :: t in s.threads ==> ThreadOk(s, t))
    && (s.mutex.Some? ==> s.mutex.value in s.threads)
    && (s.closed ==> s.drained)
    && (s.drained && !s.closed ==> s.mutex.Some? && s.threads[s.mutex.value] == DrainHoldingMarked)
    && (s.exited ==> s.closed && s.buffer == [] && s.inFlight.None?)
    && !s.panicked
  }

  ghost predicate Inv(s: State) { Fifo(s) && Locking(s) }

  /** A call of Enqueue or Drain at most appends one job, and only when there is room. */
  lemma ActAppends(s: State, t: Thread, s': State)
    requires t in s.threads && ActOf(s, t) == Some(s')
    ensures s'.completed == s.completed && s'.inFlight == s.inFlight
    ensures || (s'.buffer == s.buffer && s'.accepted == s.accepted)
            || (t.Submitter? && |s.buffer| < CAPACITY
                && s'.buffer == s.buffer + [t.id] && s'.accepted == s.accepted + [t.id])
  {
  }

  lemma FifoStep(s: State, m: Move, s': State)
    requires Fifo(s) && Step(s, m) == Some(s')
    ensures Fifo(s')
  {
    hide ActOf;
    if m.Act? {
      ActAppends(s, m.t, s');
      if s'.buffer != s.buffer {
        assert s.completed + Current(s) + s.buffer + [m.t.id] == s.completed + Current(s) + (s.buffer + [m.t.id]);
      }
    } else if m.Receive? {
      assert s.buffer == [s.buffer[0]] + s.buffer[1..];
      assert s.completed + [] + ([s.buffer[0]] + s.buffer[1..]) == s.completed + [s.buffer[0]] + s.buffer[1..];
    } else if m.Finish? {
      assert s'.completed + [] == s.completed + [s.inFlight.value];
    }
  }

  /** The call that moves keeps its own invariant; the others are not affected by the move. */
  lemma MoverOk(s: State, t: Thread, m: Move, s': State)
    requires Locking(s) && t in s.threads && ThreadOk(s, t) && Step(s, m) == Some(s')
    requires m == Lock(t) || m == Act(t) || m == TimeOut(t)
    ensures t in s'.threads && ThreadOk(s', t) && !s'.panicked
  {
  }

  lemma OtherOk(s: State, t: Thread, m: Move, s': State)
    requires Locking(s) && t in s.threads && ThreadOk(s, t) && Step(s, m) == Some(s')
    requires m != Lock(t) && m != Act(t) && m != TimeOut(t)
    requires (m.Lock? || m.Act? || m.TimeOut?) && m.t in s.threads ==> ThreadOk(s, m.t)
    ensures t in s'.threads && ThreadOk(s', t)
  {
  }

  lemma LockingStep(s: State, m: Move, s': State)
    requires Locking(s) && Step(s, m) == Some(s')
    ensures Locking(s')
  {
    assert (m.Lock? || m.Act? || m.TimeOut?) ==> m.t in s.threads && ThreadOk(s, m.t);
    if m.Lock? || m.Act? || m.TimeOut? {
      MoverOk(s, m.t, m, s');
    }
    forall t | t in s'.threads ensures ThreadOk(s', t) {
      if t in s.threads && !((m.Lock? || m.Act? || m.TimeOut?) && m.t == t) {
        OtherOk(s, t, m, s');
      }
    }
  }

  /**
   However the goroutines interleave: accepted jobs run one at a time in the order they were
   accepted, at most 1024 wait, and no closed channel is ever sent on or closed again.
   */
  lemma {:induction false} QueueSafety(s: State, ms: seq<Move>)
    requires Inv(s) && RunFrom(s, ms).Some?
    ensures var r := RunFrom(s, ms).value;
            && Inv(r) && |r.buffer| <= 1024 && !r.panicked
            && r.accepted == r.completed + Current(r) + r.buffer
    decreases |ms|
  {
    if ms != [] {
      var s' := Step(s, ms[0]).value;
      FifoStep(s, ms[0], s');
      LockingStep(s, ms[0], s');
      QueueSafety(s', ms[1..]);
    }
  }

  lemma InitInv()
    ensures Inv(INIT)
  {
  }

  // ---------- Draining ----------

  predicate WorkerMove(m: Move) { m.Receive? || m.Finish? || m.Exit? }

  function WorkerMoves(ms: seq<Move>): nat {
    if ms == [] then 0 else (if WorkerMove(ms[0]) then 1 else 0) + WorkerMoves(ms[1..])
  }

  /** Jobs waiting and in flight. */
  function Pending(s: State): nat { |s.buffer| + |Current(s)| }

  /** What the worker still has to do before it exits. */
  function WorkLeft(s: State): nat { 2 * |s.buffer| + |Current(s)| + if s.exited then 0 else 1 }

  lemma ClosedStep(s: State, m: Move, s': State)
    requires Inv(s) && s.closed && Step(s, m) == Some(s')
    ensures s'.closed && s'.accepted == s.accepted && s.completed <= s'.completed
    ensures WorkLeft(s') == WorkLeft(s) - if WorkerMove(m) then 1 else 0
    ensures Pending(s') == Pending(s) - if m.Finish? then 1 else 0
  {
    if m.Act? && m.t in s.threads {
      assert ThreadOk(s, m.t);
    }
  }

  /**
   Once the channel is closed nothing more is accepted, and the worker is never stuck: it has
   a move until it exits, each of its moves uses up work, and no other move adds any. So it
   exits after exactly `WorkLeft` moves, with every accepted job completed.
   */
  lemma {:induction false} DrainTerminates(s: State, ms: seq<Move>)
    requires Inv(s) && s.closed && RunFrom(s, ms).Some?
    ensures var r := RunFrom(s, ms).value;
            && r.closed && r.accepted == s.accepted && s.completed <= r.completed
            && Pending(r) <= Pending(s)
            && WorkLeft(r) == WorkLeft(s) - WorkerMoves(ms)
            && (r.exited <==> WorkerMoves(ms) == WorkLeft(s))
            && (r.exited ==> r.completed == s.accepted)
            && (!r.exited ==> Step(r, Receive).Some? || Step(r, Finish).Some? || Step(r, Exit).Some?)
    decreases |ms|
  {
    if ms == [] {
    } else {
      var s' := Step(s, ms[0]).value;
      ClosedStep(s, ms[0], s');
      FifoStep(s, ms[0], s');
      LockingStep(s, ms[0], s');
      DrainTerminates(s', ms[1..]);
    }
  }

  /** The Drain call that closed the queue answers true only when every accepted job is done, for good. */
  lemma DrainTrueMeansDone(s: State, t: Thread, ms: seq<Move>)
    requires Inv(s) && t in s.threads && s.threads[t] == DrainDone(true, true) && RunFrom(s, ms).Some?
    ensures s.completed == s.accepted && s.buffer == [] && s.inFlight.None?
    ensures RunFrom(s, ms).value.accepted == s.accepted && RunFrom(s, ms).value.completed == s.completed
  {
    assert ThreadOk(s, t);
    DrainTerminates(s, ms);
  }

  /** With its next action the call `t` of Drain answers true. */
  ghost predicate Answers(s: State, t: Thread, closer: bool) {
    && Step(s, Act(t)).Some?
    && var s' := Step(s, Act(t)).value; t in s'.threads && s'.threads[t] == DrainDone(closer, true)
  }

  /**
   What an answer of true is worth, exactly: every accepted job is done if and only if none was
   waiting or in flight at that moment. The call that closed the queue answers only then; a
   later call answers whenever it finds the queue drained.
   */
  lemma DrainAnswersTrue(s: State, t: Thread, closer: bool)
    requires Inv(s) && Answers(s, t, closer)
    ensures var s' := Step(s, Act(t)).value;
            && (s'.completed == s'.accepted <==> Pending(s) == 0)
            && (closer ==> Pending(s) == 0 && s.threads[t] == DrainWaiting)
            && (!closer <==> s.threads[t] == DrainHolding && s.drained)
  {
    assert ThreadOk(s, t);
    ActAppends(s, t, Step(s, Act(t)).value);
    assert |s.accepted| == |s.completed| + Pending(s);
    hide Locking;
  }

  function After(s: Option<State>, m: Move): Option<State> {
    if s.None? then None else Step(s.value, m)
  }

  /** The first actions of a call of Enqueue, up to its check of `drained`. */
  lemma EnqueueChecks(s: State, t: Thread)
    requires t.Submitter? && After(After(After(Some(s), Call(t)), Lock(t)), Act(t)).Some?
    ensures var called := Step(s, Call(t)); var locked := After(called, Lock(t)); var checked := After(locked, Act(t));
            && called.Some? && locked.Some? && called.value.drained == locked.value.drained == checked.value.drained == s.drained
            && t in checked.value.threads
            && checked.value.threads[t] == (if s.drained then EnqueueDone(ErrQueueDrained) else EnqueueHoldingChecked)
            && checked.value.mutex == (if s.drained then None else Some(t))
            && checked.value.buffer == s.buffer && checked.value.closed == s.closed
  {
  }

  lemma CanEnqueue(s: State, t: Thread)
    requires t.Submitter? && t !in s.threads && s.mutex.None?
    ensures After(After(After(Some(s), Call(t)), Lock(t)), Act(t)).Some?
  {
  }

  /** Its last action, the send that does not block. */
  lemma EnqueueSends(s: State, t: Thread)
    requires t.Submitter? && t in s.threads && s.threads[t].EnqueueHoldingChecked? && !s.closed
    ensures var sent := Step(s, Act(t));
            && sent.Some? && sent.value.drained == s.drained && sent.value.closed == s.closed && sent.value.mutex.None?
            && t in sent.value.threads
            && sent.value.threads[t] == EnqueueDone(if |s.buffer| < CAPACITY then Accepted else ErrQueueFull)
            && sent.value.buffer == if |s.buffer| < CAPACITY then s.buffer + [t.id] else s.buffer
  {
  }

  /** A Drain call that finds the queue drained already answers true at once, even with a job in flight. */
  lemma LaterDrainDoesNotWait(id: JobId)
    ensures var (a, b, c) := (Submitter(id), Drainer(0), Drainer(1));
            var accepted := After(After(After(After(Some(INIT), Call(a)), Lock(a)), Act(a)), Act(a));
            var running := After(accepted, Receive);
            var closed := After(After(After(After(running, Call(b)), Lock(b)), Act(b)), Act(b));
            var r := After(After(After(closed, Call(c)), Lock(c)), Act(c));
            && r.Some? && c in r.value.threads && r.value.threads[c] == DrainDone(false, true)
            && r.value.inFlight == Some(id) && r.value.completed == []
  {
    var (a, b, c) := (Submitter(id), Drainer(0), Drainer(1));
    var called := After(After(Some(INIT), Call(a)), Lock(a));
    assert called == Some(INIT.(mutex := Some(a), threads := called.value.threads));
    var accepted := After(After(called, Act(a)), Act(a));
    assert accepted.Some? && accepted.value == INIT.(buffer := [id], accepted := [id], threads := accepted.value.threads);
    assert b !in accepted.value.threads && c !in accepted.value.threads;
    var running := After(accepted, Receive);
    assert running.value == INIT.(inFlight := Some(id), accepted := [id], threads := accepted.value.threads);
    var closed := After(After(After(After(running, Call(b)), Lock(b)), Act(b)), Act(b));
    assert closed.Some? && closed.value.drained && closed.value.mutex.None? && c !in closed.value.threads;
    assert closed.value.inFlight == Some(id) && closed.value.completed == [];
  }
}
