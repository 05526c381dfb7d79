/**
 The Queue as it is written: fields changed inside the mutex, a channel, a worker loop. Each
 method is one goroutine's uninterrupted call, proved to be the moves the protocol gives it.
 */
module JobQueue {
  import opened Options
  import opened QueueProtocol

  lemma {:induction false} RunAppend(s: State, ms: seq<Move>, m: Move)
    requires RunFrom(s, ms).Some?
    ensures RunFrom(s, ms + [m]) == Step(RunFrom(s, ms).value, m)
    decreases |ms|
  {
    if ms == [] {
      assert ms + [m] == [m];
    } else {
      assert (ms + [m])[1..] == ms[1..] + [m];
      RunAppend(Step(s, ms[0]).value, ms[1..], m);
    }
  }

  lemma RunNothing(s: State)
    ensures RunFrom(s, []) == Some(s)
  {
  }

  class Queue {
    var drained: bool
    var ch: seq<JobId>
    var closed: bool
    var now: int  // milliseconds
    ghost var state: State

    ghost predicate Valid()
      reads this
    {
      Inv(state) && state.drained == drained && state.buffer == ch && state.closed == closed
    }

    /** The moves so far lead from `s` to where the queue is now. */
    ghost predicate Ran(s: State, ms: seq<Move>)
      reads this
    {
      RunFrom(s, ms) == Some(state)
    }

    constructor ()
      ensures Valid() && state == INIT
    {
      drained, ch, closed, state := false, [], false, INIT;
      now := *;
    }

    ghost method Move(m: Move, s: State, ms: seq<Move>) returns (ms': seq<Move>)
      requires Inv(state) && Ran(s, ms) && Step(state, m).Some?
      modifies `state
      ensures Inv(state) && Some(state) == Step(old(state), m) && ms' == ms + [m] && Ran(s, ms')
    {
      FifoStep(state, m, Step(state, m).value);
      LockingStep(state, m, Step(state, m).value);
      RunAppend(s, ms, m);
      state := Step(state, m).value;
      ms' := ms + [m];
    }

    /** A call takes the mutex and looks at `drained`. */
    ghost method LockAndCheck(t: Thread) returns (ms: seq<Move>)
      requires Inv(state) && After(After(After(Some(state), Call(t)), Lock(t)), Act(t)).Some?
      modifies `state
      ensures Inv(state) && Ran(old(state), ms) && ms == [Call(t), Lock(t), Act(t)]
      ensures Some(state) == After(After(After(Some(old(state)), Call(t)), Lock(t)), Act(t))
    {
      ghost var s := state;
      RunNothing(s);
      hide RunFrom, Inv, Step;
      ms := Move(Call(t), s, []);
      ms := Move(Lock(t), s, ms);
      ms := Move(Act(t), s, ms);
    }

    /** Appends the job if there is room and the queue is not drained; never blocks. */
    method Enqueue(id: JobId) returns (err: EnqueueResult, ghost ms: seq<Move>)
      requires Valid() && state.mutex.None? && Submitter(id) !in state.threads
      modifies this
      ensures Valid() && state.mutex.None?
      ensures RunFrom(old(state), ms) == Some(state) && forall m :: m in ms ==> !WorkerMove(m)
      ensures var t := Submitter(id);
              var checked := After(After(After(Some(old(state)), Call(t)), Lock(t)), Act(t));
              Some(state) == if old(drained) then checked else After(checked, Act(t))
      ensures Submitter(id) in state.threads && state.threads[Submitter(id)] == EnqueueDone(err)
      ensures err == if old(drained) then ErrQueueDrained
                     else if |old(ch)| == 1024 then ErrQueueFull else Accepted
      ensures ch == old(ch) + if err == Accepted then [id] else []
      ensures drained == old(drained) && closed == old(closed)
    {
      ghost var s, t := state, Submitter(id);
      assert |ch| <= CAPACITY && (closed ==> drained);
      CanEnqueue(s, t);
      EnqueueChecks(s, t);
      hide RunFrom, Fifo, Locking, Step, ActOf;
      ms := LockAndCheck(t);
      if drained {
        return ErrQueueDrained, ms;
      }
      EnqueueSends(state, t);
      ms := Move(Act(t), s, ms);
      if |ch| < CAPACITY {
        ch := ch + [id];
        err := Accepted;
      } else {
        err := ErrQueueFull;
      }
    }

    /** The worker: runs what the channel holds, in order, and stops at a closed channel. */
    method Work(ghost s: State, ghost ms0: seq<Move>) returns (ghost ms: seq<Move>)
      requires Valid() && closed && !state.exited && Ran(s, ms0)
      modifies this
      ensures Valid() && state.exited && Ran(s, ms) && ms0 <= ms
      ensures state.completed == old(state.accepted) == state.accepted && state.threads == old(state.threads)
      ensures drained == old(drained) && closed && state.mutex == old(state.mutex)
    {
      ms := ms0;
      if state.inFlight.Some? {
        ms := Move(Finish, s, ms);
      }
      while ch != []
        invariant Valid() && closed && !state.exited && state.inFlight.None? && Ran(s, ms) && ms0 <= ms
        invariant state.accepted == old(state.accepted) && state.threads == old(state.threads)
        invariant drained == old(drained) && state.mutex == old(state.mutex)
        decreases |ch|
      {
        ms := Move(Receive, s, ms);
        ch := ch[1..];
        ms := Move(Finish, s, ms);
      }
      ms := Move(Exit, s, ms);
    }

    /**
     Closes the queue and waits for the worker or the timer. The call that closed it answers
     true only with every accepted job completed; a later call answers true at once.
     */
    method Drain(n: nat, timeout: nat) returns (ok: bool, ghost ms: seq<Move>)
      requires Valid() && state.mutex.None? && Drainer(n) !in state.threads
      modifies this
      ensures Valid() && closed && drained && state.mutex.None? && state.accepted == old(state.accepted)
      ensures RunFrom(old(state), ms) == Some(state)
      ensures !ok ==> now >= old(now) + timeout
      ensures old(drained) ==> ok && state.completed == old(state.completed) && ch == old(ch)
      ensures !old(drained) && ok ==> state.exited && ch == [] && state.completed == old(state.accepted)
      ensures Drainer(n) in state.threads && state.threads[Drainer(n)] == DrainDone(!old(drained), ok)
    {
      hide RunFrom, Fifo;
      ghost var s, t := state, Drainer(n);
      RunNothing(s);
      ms := Move(Call(t), s, []);
      ms := Move(Lock(t), s, ms);
      ms := Move(Act(t), s, ms);
      if drained {
        return true, ms;
      }
      drained := true;
      ms := Move(Act(t), s, ms);
      closed := true;
      ok, ms := AwaitWorker(n, timeout, s, ms);
    }

    /** Lets time pass. */
    method Elapse(ms: nat)
      modifies `now
      ensures now >= old(now) + ms
    {
      var more :| 0 <= more;
      now := now + ms + more;
    }

    /** Waits until the worker has exited, or the timer fires. */
    method AwaitWorker(n: nat, timeout: nat, ghost s: State, ghost ms0: seq<Move>) returns (ok: bool, ghost ms: seq<Move>)
      requires Valid() && closed && drained && Ran(s, ms0) && state.mutex.None?
      requires Drainer(n) in state.threads && state.threads[Drainer(n)] == DrainWaiting && !state.exited
      modifies this
      ensures Valid() && closed && drained && Ran(s, ms) && state.mutex.None? && state.accepted == old(state.accepted)
      ensures ok ==> state.exited && ch == [] && state.completed == state.accepted
      ensures !ok ==> now >= old(now) + timeout
      ensures Drainer(n) in state.threads && state.threads[Drainer(n)] == DrainDone(true, ok)
    {
      hide RunFrom, Fifo;
      var timedOut: bool := *;
      if timedOut {
        Elapse(timeout);
        ms := Move(TimeOut(Drainer(n)), s, ms0);
        return false, ms;
      }
      ms := Work(s, ms0);
      ms := Move(Act(Drainer(n)), s, ms);
      ok := true;
    }
  }
}
