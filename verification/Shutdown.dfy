/**
 Shutting the pipeline down: what the store says once Drain has answered, and that the worker
 always gets there.
 */
module Shutdown {
  import opened Options
  import opened Pipeline
  import Q = QueueProtocol
  import R = RolloutProtocol
  import H = RolloutHost

  // ---------- What is recorded of a rollout that succeeded ----------

  /** The job the worker is on has not deployed anything yet. */
  predicate Undeployed(w: Worker) { !w.Idle? && !w.Returning? && !(w.Closing? && w.error.None?) }

  ghost predicate Recorded(s: State) {
    && (forall id :: id in s.deployed ==> id in s.began)
    && (Undeployed(s.worker) ==> s.worker.id !in s.deployed)
    && (forall id :: id in s.rows && s.rows[id].status.Failed? && id in s.deployed ==>
                       s.rows[id].error == Some(INTERRUPTED))
  }

  /** A new job is begun only once, so that it has deployed nothing before. */
  lemma BegunNew(s: State, s': State)
    requires Inv(s) && Step(s, Receive) == Some(s')
    ensures s'.worker.Begun? && s'.worker.id !in s.began && s'.rows == s.rows && s'.deployed == s.deployed
    ensures forall id :: id in s.began ==> id in s'.began
  {
    hide StepJob, Q.ActOf, Rows, Job;
    assert s.q.buffer[0] in s.q.buffer;
  }

  lemma RecordedJob(s: State, m: Move, s': State)
    requires Inv(s) && Recorded(s) && StepJob(s, m) == Some(s')
    ensures Recorded(s')
  {
    hide Q.Step, R.Step, H.Apply, Links, Rows;
    assert forall id :: id in s.rows && id != s.worker.id ==> id in s'.rows && s'.rows[id] == s.rows[id];
  }

  lemma RecordedStep(s: State, m: Move, s': State)
    requires Inv(s) && Recorded(s) && Step(s, m) == Some(s')
    ensures Recorded(s')
  {
    if m.Receive? {
      BegunNew(s, s');
      hide Inv, Step;
    } else if m.Insert? || m.QueueMove? || m.ProcessExit? || m.Boot? {
      hide StepJob, Q.Step, Inv;
    } else {
      hide Recorded, Inv;
      RecordedJob(s, m, s');
    }
  }

  lemma InitRecorded(hosts: map<Service, H.Host>)
    ensures Recorded(Init(hosts))
  {
  }

  /**
   In every run, whichever writes fail: a job whose rollout succeeded never has a failed row, but
   for one that a boot has failed because the process exited, or a write was lost, before its
   success was recorded.
   */
  lemma {:induction false} DeployedNotFailed(s: State, ms: seq<Move>)
    requires Inv(s) && Recorded(s) && RunFrom(s, ms).Some?
    ensures var r := RunFrom(s, ms).value;
            forall id :: id in r.deployed && id in r.rows && r.rows[id].status.Failed? ==>
                           r.rows[id].error == Some(INTERRUPTED)
    decreases |ms|
  {
    if ms != [] {
      hide Inv, Recorded, Step;
      var s' := Step(s, ms[0]).value;
      InvStep(s, ms[0], s');
      RecordedStep(s, ms[0], s');
      DeployedNotFailed(s', ms[1..]);
    }
  }

  // ---------- The rows of completed jobs ----------

  /** The row says how the job ended: well if and only if its rollout succeeded. */
  predicate Done(s: State, id: JobId) {
    id in s.rows && Terminal(s.rows[id].status) && (s.rows[id].status.Success? <==> id in s.deployed)
  }

  /** The row of a job is terminal by the time its function returns. */
  ghost predicate Settled(s: State) {
    && (forall id :: id in s.q.completed ==> Done(s, id))
    && (s.worker.Returning? ==> Done(s, s.worker.id))
  }

  /** A move completes at most the job that is returning. */
  lemma CompletedEffect(s: State, m: Move, s': State)
    requires Inv(s) && Step(s, m) == Some(s')
    ensures forall id :: id in s'.q.completed ==> id in s.q.completed || s.worker == Returning(id)
  {
    hide Q.Inv, Rows, R.Step, H.Apply;
    if m.QueueMove? {
      OutsideEffect(s.q, m.m, s'.q) by {
        assert Q.Inv(s.q) by { LinksQueue(s); }
      }
    }
  }

  lemma LinksQueue(s: State)
    requires Links(s)
    ensures Q.Inv(s.q)
  {
  }

  /** The worker returns only after the final write. */
  lemma ReturningEffect(s: State, m: Move, s': State)
    requires Inv(s) && Recorded(s) && Step(s, m) == Some(s') && Faultless(m)
    requires s'.worker.Returning? && s'.worker != s.worker
    ensures Done(s', s'.worker.id)
  {
    hide Q.Step, R.Step, H.Apply, Links, Rows;
  }

  /** Only the worker's job, whose row is not terminal, can come to be deployed. */
  lemma DeployedEffect(s: State, m: Move, s': State)
    requires Job(s) && Step(s, m) == Some(s')
    ensures forall id :: id in s'.deployed ==>
                           id in s.deployed || (id in s.rows && !Terminal(s.rows[id].status))
    ensures s.deployed <= s'.deployed
  {
    hide Q.Step, R.Step, H.Apply;
  }

  lemma DoneStays(s: State, m: Move, s': State, id: JobId)
    requires Inv(s) && Step(s, m) == Some(s') && Done(s, id)
    ensures Done(s', id)
  {
    ForwardStep(s, m, s');
    DeployedEffect(s, m, s') by { InvJob(s); }
    hide Inv, Step;
  }

  lemma InvJob(s: State)
    requires Inv(s)
    ensures Job(s)
  {
    hide Links, Rows, Job;
  }

  lemma SettledStep(s: State, m: Move, s': State)
    requires Inv(s) && Recorded(s) && Settled(s) && Step(s, m) == Some(s') && Faultless(m)
    ensures Settled(s')
  {
    hide Inv, Recorded, Step, Done;
    CompletedEffect(s, m, s');
    forall id | Done(s, id) ensures Done(s', id) {
      DoneStays(s, m, s', id);
    }
    if s'.worker.Returning? && s'.worker != s.worker {
      ReturningEffect(s, m, s');
    }
  }

  lemma InitSettled(hosts: map<Service, H.Host>)
    ensures Settled(Init(hosts))
  {
  }

  /**
   While the store takes every write: once the closing call of Drain has answered true, every
   job accepted since the process booted has a terminal row, which says success if and only if
   its rollout succeeded, no row is running, and the worker has nothing left to do.
   */
  lemma {:induction false} ShutdownSettles(s: State, ms: seq<Move>, t: Q.Thread)
    requires Inv(s) && Accounted(s) && Recorded(s) && Settled(s) && RunFrom(s, ms).Some?
    requires forall m :: m in ms ==> Faultless(m)
    ensures var r := RunFrom(s, ms).value;
            r.up && t in r.q.threads && r.q.threads[t] == Q.DrainDone(true, true) ==>
              && r.worker.Idle?
              && (forall id :: id in r.q.accepted ==> Done(r, id))
              && (forall id :: id in r.rows ==> !r.rows[id].status.Running?)
    decreases |ms|
  {
    if ms == [] {
      if s.up && t in s.q.threads && s.q.threads[t] == Q.DrainDone(true, true) {
        LinksQueue(s);
        Q.DrainTrueMeansDone(s.q, t, []);
        hide Links, Rows, Q.Inv;
      }
    } else {
      hide Inv, Accounted, Recorded, Settled, Step, Done;
      var s' := Step(s, ms[0]).value;
      assert ms[0] in ms;
      InvStep(s, ms[0], s');
      AccountStep(s, ms[0], s');
      RecordedStep(s, ms[0], s');
      SettledStep(s, ms[0], s');
      ShutdownSettles(s', ms[1..], t);
    }
  }

  // ---------- The worker never gets stuck ----------

  ghost predicate Able(s: State) {
    && (s.worker.Located? || s.worker.Rolling? ==> s.worker.service in s.hosts)
    && (s.worker.Rolling? ==> R.Live(s.worker.phase))
  }

  lemma AbleStep(s: State, m: Move, s': State)
    requires Able(s) && Step(s, m) == Some(s')
    ensures Able(s')
  {
    hide Q.Step, R.Step, H.Apply, R.Live;
    if m.RolloutCall? && s.worker.Rolling? {
      R.LiveStep(s.worker.phase, m.e, s'.worker.phase);
    }
    assert R.Live(R.Start) by { StartLive(); }
  }

  lemma StartLive()
    ensures R.Live(R.Start)
  {
  }

  /** The next move of the worker's job. */
  lemma JobMove(s: State) returns (m: Move)
    requires Job(s) && Able(s) && s.up && !s.worker.Idle?
    ensures Step(s, m).Some? && StepJob(s, m).Some?
  {
    hide R.Step, H.Apply, R.Live;
    match s.worker {
      case Begun(_) => m := MarkRunning(false);
      case Discovering(_) => m := Discover(None, false, "");
      case Located(_, _) => m := Prepare(false, "");
      case Rolling(_, _, phase, _) =>
        if phase.Ended? {
          m := RolloutReturns("");
        } else {
          var e := R.NextCall(phase);
          m := RolloutCall(e);
        }
      case Closing(_, _) => m := MarkFinal(false);
      case Returning(_) => m := JobReturns;
    }
  }

  /**
   In every run: the worker of a process that is up has a move, unless it waits at an empty open
   channel or has left a closed one.
   */
  lemma {:induction false} WorkerNeverStuck(s: State, ms: seq<Move>) returns (m: Move)
    requires Inv(s) && Able(s) && RunFrom(s, ms).Some? && RunFrom(s, ms).value.up
    ensures var r := RunFrom(s, ms).value;
            if !r.worker.Idle? then StepJob(r, m).Some?
            else if r.q.buffer != [] then m == Receive && Step(r, m).Some?
            else r.q.closed && !r.q.exited ==> m == QueueMove(Q.Exit) && Step(r, m).Some?
    decreases |ms|
  {
    if ms != [] {
      hide Inv, Able, Step;
      var s' := Step(s, ms[0]).value;
      InvStep(s, ms[0], s');
      AbleStep(s, ms[0], s');
      m := WorkerNeverStuck(s', ms[1..]);
    } else if !s.worker.Idle? {
      m := JobMove(s);
    } else {
      m := if s.q.buffer != [] then Receive else QueueMove(Q.Exit);
      LinksQueue(s);
      BufferOpen(s.q);
    }
  }

  /** A worker that has left its loop has left nothing behind. */
  lemma BufferOpen(q: Q.State)
    requires Q.Inv(q)
    ensures q.buffer != [] ==> !q.exited
  {
  }
}
