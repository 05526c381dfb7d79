/**
 The registry Manager as it is written. Its goroutines run against arbitrary interference by
 the others; what each does is proved to be the moves the protocol gives it.
 */
module Supervisor {
  import opened GoStrings
  import opened Options
  import opened SupervisorProtocol

  predicate WatchMove(m: Move) {
    !(m.Dies? || m.WaitReturns? || m.ClearCmd? || m.CloseDone? || m.Cancel?)
  }

  /** Processes and waiters do not move the watch goroutine. */
  lemma {:induction false} OthersFrame(s: State, ms: seq<Move>)
    requires RunFrom(s, ms).Some? && forall m :: m in ms ==> !WatchMove(m)
    ensures var r := RunFrom(s, ms).value;
            && r.watch == s.watch && r.crashes == s.crashes && r.done == s.done
            && |r.procs| == |s.procs| && r.failedStarts == s.failedStarts
    decreases |ms|
  {
    if ms != [] {
      assert ms[0] in ms;
      OthersFrame(Step(s, ms[0]).value, ms[1..]);
    }
  }

  lemma RunSnoc(s: State, ms: seq<Move>, m: Move)
    requires RunFrom(s, ms).Some? && Step(RunFrom(s, ms).value, m).Some?
    ensures RunFrom(s, ms + [m]) == Step(RunFrom(s, ms).value, m)
  {
    var r := RunFrom(s, ms).value;
    RunConcat(s, ms, [m]);
    assert [m] == [m] + [];
    RunCons(r, m, Step(r, m).value, []);
  }

  lemma RunNothing(s: State)
    ensures RunFrom(s, []) == Some(s)
  {
  }

  lemma RunOne(s: State, m: Move)
    requires Step(s, m).Some?
    ensures RunFrom(s, [m]) == Step(s, m)
  {
    RunNothing(s);
    RunSnoc(s, [], m);
    assert [] + [m] == [m];
  }

  lemma StartSteps(s: State)
    requires s.watch.Starting?
    ensures Step(s, StartFails) == Some(s.(watch := Top, failedStarts := s.failedStarts + 1))
    ensures Step(s, StartSucceeds) == Some(s.(watch := Launched(|s.procs|), procs := s.procs + [Proc(true, Unborn)]))
  {
  }

  lemma SpawnStep(s: State, pid: nat)
    requires s.watch == Published(pid) && pid < |s.procs|
    ensures Step(s, SpawnWaiter) ==
              Some(s.(procs := s.procs[pid := s.procs[pid].(waiter := Blocked)], watch := Top, crashes := 0, failedStarts := 0))
  {
  }

  lemma AwaitSteps(s: State)
    ensures s.watch.Top? ==> Step(s, LoadDone) == Some(s.(watch := Awaiting(s.done)))
    ensures s.watch.Awaiting? && s.watch.done < |s.procs| && s.procs[s.watch.done].waiter.Finished? ==>
              Step(s, SeeDone) == Some(s.(watch := Exited))
    ensures (s.watch.Awaiting? || s.watch.Exited?) && s.cancelled ==> Step(s, SeeCancel) == Some(s.(watch := Stopped(false)))
  {
  }

  /** The moves of a start, with those of the others before and after the publication. */
  function StartMoves(ms: seq<Move>, before: seq<Move>, after: seq<Move>): seq<Move> {
    ms + [StartSucceeds] + before + [SupervisorProtocol.Publish] + after + [SpawnWaiter]
  }

  class Manager {
    var cmd: Option<nat>
    var done: nat
    var cancelled: bool
    var procs: seq<Proc>    // the processes of the system, with the waiter goroutine of each
    var now: int            // seconds
    var patience: nat       // how many more processes may end before the signal comes
    ghost var launches: seq<bool>  // whether each restart could be launched
    ghost var state: State  // where the goroutines stand

    ghost predicate Valid()
      reads this
    {
      && Inv(state) && state.procs == procs
      && state.cmd == cmd && state.done == done && state.cancelled == cancelled
    }

    /** The moves so far lead from `s` to where the manager is now. */
    ghost predicate Ran(s: State, ms: seq<Move>)
      reads this
    {
      RunFrom(s, ms) == Some(state)
    }

    constructor (patience: nat)
      ensures Valid() && state == INIT && launches == []
    {
      cmd, done, cancelled, procs, state := Some(0), 0, false, [Proc(true, Blocked)], INIT;
      this.patience, launches, now := patience, [], *;
    }

    ghost method Take(m: Move, s: State, ms0: seq<Move>) returns (ms: seq<Move>)
      requires Inv(state) && Ran(s, ms0) && Step(state, m).Some?
      modifies `state
      ensures Inv(state) && Some(state) == Step(old(state), m) && Ran(s, ms) && ms == ms0 + [m]
    {
      StepInv(state, m, Step(state, m).value);
      RunSnoc(s, ms0, m);
      state := Step(state, m).value;
      ms := ms0 + [m];
    }

    /** One step of a process, a waiter or the signal handler, if it can take one. */
    method OneStep(ghost s: State, ghost ms0: seq<Move>) returns (ghost more: seq<Move>, ghost ms: seq<Move>)
      requires Valid() && Ran(s, ms0)
      modifies `cmd, `cancelled, `procs, `state
      ensures Valid() && Ran(s, ms) && ms == ms0 + more
      ensures RunFrom(old(state), more) == Some(state) && forall m :: m in more ==> !WatchMove(m)
    {
      RunNothing(state);
      hide Inv, RunFrom, StepWatch;
      more := [];
      var pid: int, action: int := *, *;
      if 0 <= pid < |procs| {
        var p := procs[pid];
        if action == 0 && p.alive {
          procs := procs[pid := p.(alive := false)];
          more := [Dies(pid)];
        } else if action == 1 && !p.alive && p.waiter.Blocked? {
          procs := procs[pid := p.(waiter := Woken)];
          more := [WaitReturns(pid)];
        } else if action == 2 && p.waiter.Woken? {
          cmd, procs := None, procs[pid := p.(waiter := Cleared)];
          more := [ClearCmd(pid)];
        } else if action == 3 && p.waiter.Cleared? {
          procs := procs[pid := p.(waiter := Finished)];
          more := [CloseDone(pid)];
        }
      } else if action == 4 {
        cancelled := true;
        more := [Cancel];
      }
      ms := ms0 + more;
      assert ms0 + [] == ms0;
      if more != [] {
        assert more == [more[0]];
        RunOne(state, more[0]);
        ms := Take(more[0], s, ms0);
      }
    }

    /** Any number of such steps. */
    method Others(ghost s: State, ghost ms0: seq<Move>) returns (ghost more: seq<Move>, ghost ms: seq<Move>)
      requires Valid() && Ran(s, ms0)
      modifies `cmd, `cancelled, `procs, `state
      ensures Valid() && Ran(s, ms) && ms == ms0 + more
      ensures RunFrom(old(state), more) == Some(state) && forall m :: m in more ==> !WatchMove(m)
    {
      RunNothing(state);
      hide Inv, RunFrom, WatchMove;
      more, ms := [], ms0;
      var steps :| 0 <= steps;
      for k := 0 to steps
        invariant Valid() && Ran(s, ms) && ms == ms0 + more
        invariant RunFrom(old(state), more) == Some(state) && forall m :: m in more ==> !WatchMove(m)
      {
        ghost var next;
        next, ms := OneStep(s, ms);
        RunConcat(old(state), more, next);
        Assoc(ms0, more, next);
        more := more + next;
      }
    }

    /** The others go on while the watch goroutine does not. */
    method Interleave(ghost s: State, ghost ms0: seq<Move>) returns (ghost more: seq<Move>, ghost ms: seq<Move>)
      requires Valid() && Ran(s, ms0)
      modifies `cmd, `cancelled, `procs, `state
      ensures Valid() && Ran(s, ms) && ms == ms0 + more && forall m :: m in more ==> !WatchMove(m)
      ensures state.watch == old(state.watch) && state.crashes == old(state.crashes)
      ensures |procs| == |old(procs)| && done == old(done)
    {
      more, ms := Others(s, ms0);
      OthersFrame(old(state), more);
    }

    /** Lets time pass. */
    method Elapse(seconds: nat)
      modifies `now
      ensures now >= old(now) + seconds
    {
      var more :| 0 <= more;
      now := now + seconds + more;
    }

    /** Whether the system could launch the process. */
    method Launch() returns (ok: bool)
      modifies `launches
      ensures launches == old(launches) + [ok]
    {
      ok := *;
      launches := launches + [ok];
    }

    /** Launches a process, publishes it and its channel, and then starts its waiter. */
    method StartProcess(ghost s: State, ghost ms0: seq<Move>)
      returns (ok: bool, ghost meanwhile: (seq<Move>, seq<Move>), ghost ms: seq<Move>)
      requires Valid() && state.watch.Starting? && Ran(s, ms0)
      modifies `cmd, `done, `cancelled, `procs, `launches, `state
      ensures Valid() && state.watch.Top? && Ran(s, ms)
      ensures launches == old(launches) + [ok]
      ensures state.crashes == if ok then 0 else old(state.crashes)
      ensures |procs| == |old(procs)| + if ok then 1 else 0
      ensures ok ==> done == |old(procs)|
      ensures !ok ==> ms == ms0 + [StartFails] && procs == old(procs) && cmd == old(cmd) && done == old(done)
      ensures ok ==> ms == StartMoves(ms0, meanwhile.0, meanwhile.1)
      ensures forall m :: m in meanwhile.0 || m in meanwhile.1 ==> !WatchMove(m)
    {
      hide Inv, RunFrom, WatchMove, Step;
      StartSteps(state);
      ok := Launch();
      meanwhile := ([], []);
      if !ok {
        ms := Take(StartFails, s, ms0);
        return;
      }
      var pid := |procs|;
      procs := procs + [Proc(true, Unborn)];
      ms := Take(StartSucceeds, s, ms0);
      ghost var before, after;
      before, ms := Interleave(s, ms);
      ms := Publish(pid, s, ms);
      after, ms := Interleave(s, ms);
      meanwhile := (before, after);
      SpawnStep(state, pid);
      procs := procs[pid := procs[pid].(waiter := Blocked)];
      ms := Take(SpawnWaiter, s, ms);
    }

    method Publish(pid: nat, ghost s: State, ghost ms0: seq<Move>) returns (ghost ms: seq<Move>)
      requires Valid() && state.watch == Launched(pid) && |procs| == pid + 1 && Ran(s, ms0)
      modifies `cmd, `done, `state
      ensures Valid() && state.watch == Published(pid) && Ran(s, ms) && ms == ms0 + [SupervisorProtocol.Publish]
      ensures cmd == Some(pid) && done == pid && procs == old(procs) && cancelled == old(cancelled)
      ensures state.crashes == old(state.crashes)
    {
      cmd, done := Some(pid), pid;
      ms := Take(SupervisorProtocol.Publish, s, ms0);
    }

    /** The waiter of process `pid`: forgets the process first, and only then announces its end. */
    method Wait(pid: nat, ghost s: State, ghost ms0: seq<Move>) returns (ghost ms: seq<Move>)
      requires Valid() && pid < |procs| && procs[pid] == Proc(false, Blocked) && Ran(s, ms0)
      modifies `cmd, `procs, `state
      ensures Valid() && Ran(s, ms) && cmd.None? && procs == old(procs)[pid := Proc(false, Finished)]
      ensures ms == ms0 + [WaitReturns(pid)] + [ClearCmd(pid)] + [CloseDone(pid)]
      ensures state.watch == old(state.watch) && state.crashes == old(state.crashes) && done == old(done)
    {
      ms := Take(WaitReturns(pid), s, ms0);
      cmd := None;
      ms := Take(ClearCmd(pid), s, ms);
      ms := Take(CloseDone(pid), s, ms);
      procs := procs[pid := Proc(false, Finished)];
    }

    /** Blocks until the channel `d` is closed or the context is cancelled. */
    method Await(d: nat, ghost s: State, ghost ms0: seq<Move>) returns (closed: bool, ghost ms: seq<Move>)
      requires Valid() && state.watch == Awaiting(d) && Ran(s, ms0)
      modifies `cmd, `cancelled, `procs, `patience, `state
      ensures Valid() && state.watch == Awaiting(d) && Ran(s, ms) && state.crashes == old(state.crashes)
      ensures if closed then d < |procs| && procs[d].waiter.Finished? && patience < old(patience) else cancelled
    {
      closed := *;
      closed := closed && patience > 0;
      ms := ms0;
      if !closed {
        ms := Take(Cancel, s, ms);
        cancelled := true;
        return;
      }
      patience := patience - 1;
      if procs[d].alive {
        ms := Take(Dies(d), s, ms);
        procs := procs[d := procs[d].(alive := false)];
      }
      ms := Reap(d, s, ms);
    }

    /** The waiter of a dead process goes on from wherever it is. */
    method Reap(d: nat, ghost s: State, ghost ms0: seq<Move>) returns (ghost ms: seq<Move>)
      requires Valid() && state.watch == Awaiting(d) && !procs[d].alive && Ran(s, ms0)
      modifies `cmd, `procs, `state
      ensures Valid() && state.watch == Awaiting(d) && Ran(s, ms) && state.crashes == old(state.crashes)
      ensures d < |procs| && procs[d].waiter.Finished?
    {
      ms := ms0;
      if procs[d].waiter.Blocked? {
        ms := Wait(d, s, ms);
        return;
      }
      if procs[d].waiter.Woken? {
        ms := Take(ClearCmd(d), s, ms);
        cmd := None;
        procs := procs[d := Proc(false, Cleared)];
      }
      if procs[d].waiter.Cleared? {
        ms := Take(CloseDone(d), s, ms);
        procs := procs[d := Proc(false, Finished)];
      }
    }

    /** The last `n` launches failed. */
    ghost predicate Failing(n: nat)
      reads `launches
    {
      n <= |launches| && forall k :: |launches| - n <= k < |launches| ==> !launches[k]
    }

    /**
     Restarts the process each time it ends, until the context is cancelled or three attempts in a
     row have failed.
     */
    method Watch() returns (gaveUp: bool, ghost ms: seq<Move>)
      requires Valid() && state.watch.Top? && state.crashes == 0
      modifies this
      ensures Valid() && RunFrom(old(state), ms) == Some(state) && state.watch == Stopped(gaveUp)
      ensures if gaveUp then state.failedStarts == 3 && Failing(3) else cancelled
    {
      ghost var s := state;
      RunNothing(s);
      hide Inv, RunFrom, Step;
      var consecutiveCrashes := 0;
      ms := [];
      while true
        invariant Valid() && state.watch.Top? && state.crashes == consecutiveCrashes && Ran(s, ms)
        invariant Failing(consecutiveCrashes)
        decreases patience
      {
        var stopped;
        stopped, gaveUp, consecutiveCrashes, ms := Turn(consecutiveCrashes, s, ms);
        if stopped {
          return;
        }
      }
    }

    /**
     One turn of the loop: waits for the process to end, backs off for 1, 5 or 30 seconds, and
     starts another one.
     */
    method Turn(crashes: nat, ghost s: State, ghost ms0: seq<Move>)
      returns (stopped: bool, gaveUp: bool, consecutiveCrashes: nat, ghost ms: seq<Move>)
      requires Valid() && state.watch.Top? && state.crashes == crashes && Ran(s, ms0) && Failing(crashes)
      modifies this
      ensures Valid() && Ran(s, ms)
      ensures stopped ==> state.watch == Stopped(gaveUp) && launches == old(launches)
      ensures stopped ==> if gaveUp then state.failedStarts == 3 && Failing(3) else cancelled
      ensures !stopped ==>
                && state.watch.Top? && state.crashes == consecutiveCrashes && patience < old(patience)
                && crashes < 3 && now >= old(now) + [1, 5, 30][crashes] && |launches| == |old(launches)| + 1
                && consecutiveCrashes == if launches[|old(launches)|] then 0 else crashes + 1
      ensures !stopped ==> Failing(consecutiveCrashes)
    {
      hide RunFrom;
      gaveUp, consecutiveCrashes := false, crashes;
      stopped, ms := AwaitExit(s, ms0);
      if stopped {
        return;
      }
      consecutiveCrashes := consecutiveCrashes + 1;
      ms := Take(Count, s, ms);
      if consecutiveCrashes > |RESTART_BACKOFFS| {
        return true, true, consecutiveCrashes, ms;
      }
      var backoff := RESTART_BACKOFFS[consecutiveCrashes-1];
      assert state.watch == BackingOff(backoff);
      hide Inv, Step;
      stopped, ms := Sleep(backoff, s, ms);
      if stopped {
        return;
      }
      var restarted;
      ghost var meanwhile;
      restarted, meanwhile, ms := StartProcess(s, ms);
      if restarted {
        consecutiveCrashes := 0;
      }
    }

    /** Waits for the current process to end; true if the context is cancelled. */
    method AwaitExit(ghost s: State, ghost ms0: seq<Move>) returns (stop: bool, ghost ms: seq<Move>)
      requires Valid() && state.watch.Top? && Ran(s, ms0)
      modifies `cmd, `cancelled, `procs, `patience, `state
      ensures Valid() && Ran(s, ms) && state.crashes == old(state.crashes)
      ensures if stop then state.watch == Stopped(false) && cancelled
              else state.watch.Exited? && !cancelled && patience < old(patience)
    {
      hide Inv, RunFrom, Step;
      ghost var more;
      var d := done;
      AwaitSteps(state);
      ms := Take(LoadDone, s, ms0);
      more, ms := Interleave(s, ms);
      var closed;
      closed, ms := Await(d, s, ms);
      AwaitSteps(state);
      if !closed {
        ms := Take(SeeCancel, s, ms);
        return true, ms;
      }
      ms := Take(SeeDone, s, ms);
      more, ms := Interleave(s, ms);
      AwaitSteps(state);
      if cancelled {
        ms := Take(SeeCancel, s, ms);
        return true, ms;
      }
      stop := false;
    }

    /** Waits out the backoff; true if the context is cancelled meanwhile. */
    method Sleep(seconds: nat, ghost s: State, ghost ms0: seq<Move>) returns (stop: bool, ghost ms: seq<Move>)
      requires Valid() && state.watch.BackingOff? && Ran(s, ms0)
      modifies `cmd, `cancelled, `procs, `now, `state
      ensures Valid() && Ran(s, ms) && state.crashes == old(state.crashes)
      ensures if stop then state.watch == Stopped(false) && cancelled else state.watch.Starting? && now >= old(now) + seconds
    {
      hide Inv, RunFrom;
      ghost var more;
      more, ms := Interleave(s, ms0);
      var woken: bool := *;
      if cancelled && woken {
        ms := Take(SeeCancel, s, ms);
        return true, ms;
      }
      Elapse(seconds);
      ms := Take(BackoffOver, s, ms);
      stop := false;
    }
  }
}
