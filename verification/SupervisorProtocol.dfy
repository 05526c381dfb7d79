/**
 The registry supervisor: one watch goroutine that restarts the Zot process, and one waiter
 goroutine per process ever started, interleaved arbitrarily over the fields they share.
 */
module SupervisorProtocol {
  import opened Options

  /** Seconds before the first, second and third restart attempt in a row. */
  const RESTART_BACKOFFS := [1, 5, 30]

  /** The waiter of a process: not yet running, blocked in Wait, and then its last two actions. */
  datatype Waiter = Unborn | Blocked | Woken | Cleared | Finished

  /** A process; the channel `done` made for it is closed when its waiter is `Finished`. */
  datatype Proc = Proc(alive: bool, waiter: Waiter)

  datatype Watch =
    | Top
    | Awaiting(done: nat)
    | Exited
    | BackingOff(seconds: int)
    | Starting
    | Launched(pid: nat)    // the process runs; the fields are not set yet
    | Published(pid: nat)   // the fields are set; its waiter is not running yet
    | Stopped(gaveUp: bool)

  /**
   Processes and their channels are numbered in the order they were started. `failedStarts` is
   history: the start attempts that failed since one last succeeded.
   */
  datatype State = State(
    procs: seq<Proc>,
    cmd: Option<nat>,
    done: nat,
    watch: Watch,
    crashes: nat,
    cancelled: bool,
    failedStarts: nat)

  /** After Start has launched the first process and spawned the watch goroutine. */
  const INIT := State([Proc(true, Blocked)], Some(0), 0, Top, 0, false, 0)

  datatype Move =
    | Dies(pid: nat)         // crashes, or is killed
    | WaitReturns(pid: nat)
    | ClearCmd(pid: nat)
    | CloseDone(pid: nat)
    | Cancel                 // SIGTERM
    | LoadDone               // watch reads m.done
    | SeeDone                // watch: the channel is closed
    | SeeCancel              // watch: the context is cancelled
    | Count                  // watch: not cancelled; one crash more
    | BackoffOver
    | StartFails
    | StartSucceeds
    | Publish                // m.cmd and m.done are set
    | SpawnWaiter

  function SetWaiter(s: State, pid: nat, w: Waiter): State
    requires pid < |s.procs|
  {
    s.(procs := s.procs[pid := s.procs[pid].(waiter := w)])
  }

  function Step(s: State, m: Move): Option<State> {
    match m
    case Dies(pid) =>
      if pid < |s.procs| && s.procs[pid].alive then Some(s.(procs := s.procs[pid := s.procs[pid].(alive := false)]))
      else None
    case WaitReturns(pid) =>
      if pid < |s.procs| && !s.procs[pid].alive && s.procs[pid].waiter.Blocked? then Some(SetWaiter(s, pid, Woken))
      else None
    case ClearCmd(pid) =>
      if pid < |s.procs| && s.procs[pid].waiter.Woken? then Some(SetWaiter(s, pid, Cleared).(cmd := None)) else None
    case CloseDone(pid) =>
      if pid < |s.procs| && s.procs[pid].waiter.Cleared? then Some(SetWaiter(s, pid, Finished)) else None
    case Cancel => Some(s.(cancelled := true))
    case _ => StepWatch(s, m)
  }

  function StepWatch(s: State, m: Move): Option<State> {
    match (s.watch, m)
    case (Top, LoadDone) => Some(s.(watch := Awaiting(s.done)))
    case (Awaiting(d), SeeDone) =>
      if d < |s.procs| && s.procs[d].waiter.Finished? then Some(s.(watch := Exited)) else None
    case (Awaiting(_), SeeCancel) => if s.cancelled then Some(s.(watch := Stopped(false))) else None
    case (Exited, SeeCancel) => if s.cancelled then Some(s.(watch := Stopped(false))) else None
    case (Exited, Count) =>
      if s.cancelled then None
      else if s.crashes + 1 > |RESTART_BACKOFFS| then Some(s.(watch := Stopped(true), crashes := s.crashes + 1))
      else Some(s.(watch := BackingOff(RESTART_BACKOFFS[s.crashes]), crashes := s.crashes + 1))
    case (BackingOff(_), SeeCancel) => if s.cancelled then Some(s.(watch := Stopped(false))) else None
    case (BackingOff(_), BackoffOver) => Some(s.(watch := Starting))
    case (Starting, StartFails) => Some(s.(watch := Top, failedStarts := s.failedStarts + 1))
    case (Starting, StartSucceeds) =>
      Some(s.(watch := Launched(|s.procs|), procs := s.procs + [Proc(true, Unborn)]))
    case (Launched(pid), Publish) => Some(s.(watch := Published(pid), cmd := Some(pid), done := pid))
    case (Published(pid), SpawnWaiter) =>
      if pid < |s.procs| then Some(SetWaiter(s, pid, Blocked).(watch := Top, crashes := 0, failedStarts := 0))
      else None
    case _ => None
  }

  function RunFrom(s: State, ms: seq<Move>): Option<State>
    decreases |ms|
  {
    if ms == [] then Some(s)
    else
      match Step(s, ms[0])
      case None => None
      case Some(s') => RunFrom(s', ms[1..])
  }

  function Latest(s: State): int { |s.procs| - 1 }

  /** The watch goroutine is restarting: the latest process it knows of is gone for good. */
  predicate Between(w: Watch) { w.Exited? || w.BackingOff? || w.Starting? }

  /** Every process but the latest is dead and its waiter has done all it ever will. */
  ghost predicate OldGone(s: State) {
    forall pid :: 0 <= pid < |s.procs| - 1 ==> s.procs[pid] == Proc(false, Finished)
  }

  ghost predicate Inv(s: State) {
    && |s.procs| >= 1 && OldGone(s)
    && var p := s.procs[Latest(s)];
    && (p.waiter.Unborn? <==> s.watch == Launched(Latest(s)) || s.watch == Published(Latest(s)))
    && (p.alive ==> p.waiter.Unborn? || p.waiter.Blocked?)
    && (s.watch.Launched? ==> s.watch.pid == Latest(s) && s.cmd.None? && s.done == Latest(s) - 1)
    && (s.watch.Published? ==> s.watch.pid == Latest(s))
    && (!s.watch.Launched? ==> s.done == Latest(s))
    && (!s.watch.Launched? ==>
          s.cmd == if p.waiter.Unborn? || p.waiter.Blocked? || p.waiter.Woken? then Some(Latest(s)) else None)
    && (s.watch.Awaiting? ==> s.watch.done == s.done)
    && (Between(s.watch) ==> p == Proc(false, Finished))
    && (s.failedStarts > 0 && !s.watch.Launched? && !s.watch.Published? ==> p == Proc(false, Finished))
    && s.failedStarts <= |RESTART_BACKOFFS|
    && (s.watch.Top? || s.watch.Awaiting? || s.watch.Exited? ==> s.crashes == s.failedStarts)
    && (s.watch.BackingOff? || s.watch.Starting? ==>
          s.crashes == s.failedStarts + 1 <= |RESTART_BACKOFFS|)
    && (s.watch.BackingOff? ==> s.watch.seconds == RESTART_BACKOFFS[s.failedStarts])
    && (s.watch == Stopped(true) ==> s.failedStarts == |RESTART_BACKOFFS|)
  }

  lemma OthersStep(s: State, m: Move, s': State)
    requires Inv(s) && Step(s, m) == Some(s')
    requires m.Dies? || m.WaitReturns? || m.ClearCmd? || m.CloseDone? || m.Cancel?
    ensures Inv(s') && (!m.Cancel? ==> m.pid == Latest(s))
  {
    hide StepWatch;
    assert forall pid :: 0 <= pid < Latest(s) ==> s.procs[pid] == Proc(false, Finished);
  }

  lemma WatchStep(s: State, m: Move, s': State)
    requires Inv(s) && StepWatch(s, m) == Some(s')
    ensures Inv(s')
  {
  }

  lemma {:induction false} RunInv(s: State, ms: seq<Move>)
    requires Inv(s) && RunFrom(s, ms).Some?
    ensures Inv(RunFrom(s, ms).value)
    decreases |ms|
  {
    if ms != [] {
      hide Inv;
      var s' := Step(s, ms[0]).value;
      StepInv(s, ms[0], s');
      RunInv(s', ms[1..]);
    }
  }

  lemma StepInv(s: State, m: Move, s': State)
    requires Inv(s) && Step(s, m) == Some(s')
    ensures Inv(s')
  {
    hide Inv, StepWatch;
    if m.Dies? || m.WaitReturns? || m.ClearCmd? || m.CloseDone? || m.Cancel? {
      OthersStep(s, m, s');
    } else {
      WatchStep(s, m, s');
    }
  }

  /**
   However watch and the waiters interleave: at most one Zot process is alive; a set `cmd` is
   the latest process, paired with the current `done`; the only waiter that can still clear
   `cmd` is that of the process `cmd` holds; and a process that runs and has been published is
   the one `cmd` reports. Watch indexes the backoffs in range and gives up exactly when three
   start attempts in a row have failed.
   */
  lemma SupervisorSafety(ms: seq<Move>)
    requires RunFrom(INIT, ms).Some?
    ensures var s := RunFrom(INIT, ms).value;
            && (forall i, j :: 0 <= i < |s.procs| && 0 <= j < |s.procs| && s.procs[i].alive && s.procs[j].alive ==> i == j)
            && (s.cmd.Some? ==> s.cmd.value == s.done == |s.procs| - 1)
            && (forall pid :: 0 <= pid < |s.procs| && Step(s, ClearCmd(pid)).Some? ==> s.cmd == Some(pid))
            && (forall pid :: 0 <= pid < |s.procs| && s.procs[pid].alive && s.watch != Launched(pid) ==> s.cmd == Some(pid))
            && (s.watch.BackingOff? ==> s.failedStarts < 3 && s.watch.seconds == [1, 5, 30][s.failedStarts])
            && (s.watch == Stopped(true) ==> s.failedStarts == 3)
            && (Step(s, Count).Some? ==> (Step(s, Count).value.watch == Stopped(true) <==> s.failedStarts == 3))
  {
    RunInv(INIT, ms);
    var s := RunFrom(INIT, ms).value;
    hide RunFrom;
    assert forall pid :: 0 <= pid < |s.procs| - 1 ==> s.procs[pid] == Proc(false, Finished);
  }

  // ---------- A process that starts but does not stay up ----------

  lemma {:induction false} RunConcat(s: State, a: seq<Move>, b: seq<Move>)
    requires RunFrom(s, a).Some?
    ensures RunFrom(s, a + b) == RunFrom(RunFrom(s, a).value, b)
    decreases |a|
  {
    if a == [] {
      assert a + b == b;
    } else {
      RunConcat(Step(s, a[0]).value, a[1..], b);
      assert (a + b)[1..] == a[1..] + b;
    }
  }

  lemma RunCons(s: State, m: Move, s': State, ms: seq<Move>)
    requires Step(s, m) == Some(s')
    ensures RunFrom(s, [m] + ms) == RunFrom(s', ms)
  {
    assert ([m] + ms)[1..] == ms;
  }

  /** The latest process runs and watch is about to look at it. */
  ghost predicate Steady(s: State) {
    && Inv(s) && s.watch.Top? && !s.cancelled && s.crashes == 0
    && s.procs[Latest(s)] == Proc(true, Blocked)
  }

  /** A crash and a successful restart. */
  function CrashMoves(pid: nat): seq<Move> {
    [Dies(pid)] + ([WaitReturns(pid)] + ([ClearCmd(pid)] + ([CloseDone(pid)] + ([LoadDone] + ([SeeDone] + ([Count]
    + ([BackoffOver] + ([StartSucceeds] + ([Publish] + ([SpawnWaiter] + []))))))))))
  }

  lemma OneCrash(s: State)
    requires Steady(s)
    ensures var r := RunFrom(s, CrashMoves(Latest(s)));
            r.Some? && Steady(r.value) && |r.value.procs| == |s.procs| + 1
  {
    var pid := Latest(s);
    var s1 := Step(s, Dies(pid)).value;
    var s2 := Step(s1, WaitReturns(pid)).value;
    var s3 := Step(s2, ClearCmd(pid)).value;
    var s4 := Step(s3, CloseDone(pid)).value;
    var s5 := Step(s4, LoadDone).value;
    var s6 := Step(s5, SeeDone).value;
    var s7 := Step(s6, Count).value;
    var s8 := Step(s7, BackoffOver).value;
    var s9 := Step(s8, StartSucceeds).value;
    var s10 := Step(s9, Publish).value;
    var s11 := Step(s10, SpawnWaiter).value;
    assert s11.procs[Latest(s11)] == Proc(true, Blocked) && |s11.procs| == |s.procs| + 1 && RunFrom(s11, []) == Some(s11);
    hide RunFrom;
    RunCons(s10, SpawnWaiter, s11, []);
    RunCons(s9, Publish, s10, [SpawnWaiter] + []);
    RunCons(s8, StartSucceeds, s9, [Publish] + ([SpawnWaiter] + []));
    RunCons(s7, BackoffOver, s8, [StartSucceeds] + ([Publish] + ([SpawnWaiter] + [])));
    RunCons(s6, Count, s7, [BackoffOver] + ([StartSucceeds] + ([Publish] + ([SpawnWaiter] + []))));
    RunCons(s5, SeeDone, s6, [Count] + ([BackoffOver] + ([StartSucceeds] + ([Publish] + ([SpawnWaiter] + [])))));
    RunCons(s4, LoadDone, s5, [SeeDone] + ([Count] + ([BackoffOver] + ([StartSucceeds] + ([Publish] + ([SpawnWaiter] + []))))));
    var tail := [LoadDone] + ([SeeDone] + ([Count] + ([BackoffOver] + ([StartSucceeds] + ([Publish] + ([SpawnWaiter] + []))))));
    RunCons(s3, CloseDone(pid), s4, tail);
    RunCons(s2, ClearCmd(pid), s3, [CloseDone(pid)] + tail);
    RunCons(s1, WaitReturns(pid), s2, [ClearCmd(pid)] + ([CloseDone(pid)] + tail));
    RunCons(s, Dies(pid), s1, [WaitReturns(pid)] + ([ClearCmd(pid)] + ([CloseDone(pid)] + tail)));
    RunInv(s, CrashMoves(pid));
  }

  /**
   Crashes alone never make watch give up, however many follow one another: a start that
   succeeds resets the count before the new process has shown that it stays up.
   */
  lemma {:induction false} CrashLoop(n: nat) returns (ms: seq<Move>)
    ensures RunFrom(INIT, ms).Some?
    ensures Steady(RunFrom(INIT, ms).value) && |RunFrom(INIT, ms).value.procs| == n + 1
  {
    if n == 0 {
      ms := [];
    } else {
      ms := CrashLoop(n - 1);
      var s := RunFrom(INIT, ms).value;
      OneCrash(s);
      RunConcat(INIT, ms, CrashMoves(Latest(s)));
      ms := ms + CrashMoves(Latest(s));
    }
  }
}
