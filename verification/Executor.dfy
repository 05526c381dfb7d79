/**
 The job store and the executor as they are written. Their calls are proved to be moves of
 the pipeline, so that its theorems speak about them; store writes may fail at every call.
 */
module Executor {
  import opened Options
  import opened GoStrings
  import opened Pipeline
  import Q = QueueProtocol
  import R = RolloutProtocol
  import H = RolloutHost
  import JobQueue
  import Rollout
  import LogTail
  import LogStream

  /** A write sent to the database. */
  datatype Write =
    | InsertRow(id: JobId)
    | SetStatus(id: JobId, status: Status, error: Option<string>)
    | SetService(id: JobId, service: Service)
    | FailRunning

  datatype Sent = Sent(write: Write, ok: bool)

  class Store {
    var rows: map<JobId, Row>
    ghost var sent: seq<Sent>  // every write, with the database's reply

    constructor ()
      ensures rows == map[] && sent == []
    {
      rows, sent := map[], [];
    }

    /** The database's reply to a write, which fails if a constraint refuses it. */
    method Exec(ghost write: Write, refused: bool) returns (ok: bool)
      modifies `sent
      ensures sent == old(sent) + [Sent(write, ok)] && (refused ==> !ok)
    {
      ok := *;
      ok := ok && !refused;
      sent := sent + [Sent(write, ok)];
    }

    /** Adds a queued row; fails on an ID that has one already, and may fail after adding it. */
    method Insert(id: JobId) returns (ok: bool, ghost took: bool)
      modifies this
      ensures sent == old(sent) + [Sent(InsertRow(id), ok)]
      ensures (ok ==> took) && (took ==> id !in old(rows))
      ensures rows == if took then old(rows)[id := Row(Queued, None, None)] else old(rows)
    {
      ok := Exec(InsertRow(id), id in rows);
      var written := id !in rows;
      if !ok && written {
        written := *;
      }
      took := written;
      if written {
        rows := rows[id := Row(Queued, None, None)];
      }
    }

    /** Writes one row's status and error; no other row, and nothing else of this one, changes. */
    method UpdateStatus(id: JobId, status: Status, error: Option<string>) returns (ok: bool)
      modifies this
      ensures sent == old(sent) + [Sent(SetStatus(id, status, error), ok)]
      ensures !ok ==> rows == old(rows)
      ensures rows.Keys == old(rows).Keys && SameBut(old(rows), rows, id)
      ensures ok && id in rows ==>
                rows[id].status == status && rows[id].error == error && rows[id].service == old(rows)[id].service
      ensures (id in old(rows) ==> !Terminal(old(rows)[id].status) && Rank(old(rows)[id].status) <= Rank(status)) ==>
                Forward(old(rows), rows)
    {
      ok := Exec(SetStatus(id, status, error), false);
      if ok && id in rows {
        rows := rows[id := rows[id].(status := status, error := error)];
      }
    }

    /** Records where one job's service was found; every status and error stays as it is. */
    method UpdateDiscovery(id: JobId, service: Service) returns (ok: bool)
      modifies this
      ensures sent == old(sent) + [Sent(SetService(id, service), ok)]
      ensures !ok ==> rows == old(rows)
      ensures rows.Keys == old(rows).Keys && SameBut(old(rows), rows, id)
      ensures ok && id in rows ==> rows[id].service == Some(service)
      ensures forall other :: other in rows ==>
                rows[other].status == old(rows)[other].status && rows[other].error == old(rows)[other].error
    {
      ok := Exec(SetService(id, service), false);
      if ok && id in rows {
        rows := rows[id := rows[id].(service := Some(service))];
      }
    }

    /** After an interruption no row is left running; rows that were not running stay as they are. */
    method MarkInterruptedJobsFailed() returns (ok: bool)
      modifies this
      ensures sent == old(sent) + [Sent(FailRunning, ok)]
      ensures !ok ==> rows == old(rows)
      ensures rows.Keys == old(rows).Keys && Forward(old(rows), rows)
      ensures ok ==> forall id :: id in rows ==> !rows[id].status.Running?
      ensures forall id :: id in rows && !old(rows)[id].status.Running? ==> rows[id] == old(rows)[id]
      ensures forall id :: ok && id in rows && old(rows)[id].status.Running? ==>
                rows[id].status == Failed && rows[id].error == Some("interrupted: server restarted")
                && rows[id].service == old(rows)[id].service
    {
      ok := Exec(FailRunning, false);
      if ok {
        rows := map id | id in rows ::
          if rows[id].status.Running? then rows[id].(status := Failed, error := Some(INTERRUPTED)) else rows[id];
      }
    }
  }

  ghost predicate SameBut(rows: map<JobId, Row>, rows': map<JobId, Row>, id: JobId) {
    forall other :: other in rows && other != id ==> other in rows' && rows'[other] == rows[other]
  }

  /** What the store's writes say of the rows is the pipeline's move. */
  lemma IsUpdateStatus(rows: map<JobId, Row>, rows': map<JobId, Row>, id: JobId, st: Status, error: Option<string>)
    requires rows'.Keys == rows.Keys && SameBut(rows, rows', id)
    requires id in rows ==> rows'[id] == Row(st, error, rows[id].service)
    ensures rows' == Pipeline.UpdateStatus(rows, id, st, error)
  {
  }

  lemma IsUpdateDiscovery(rows: map<JobId, Row>, rows': map<JobId, Row>, id: JobId, service: Service)
    requires rows'.Keys == rows.Keys && SameBut(rows, rows', id)
    requires id in rows ==> rows'[id] == Row(rows[id].status, rows[id].error, Some(service))
    ensures rows' == Pipeline.UpdateDiscovery(rows, id, service)
  {
  }

  lemma IsMarkInterrupted(rows: map<JobId, Row>, rows': map<JobId, Row>)
    requires rows'.Keys == rows.Keys
    requires forall id :: id in rows ==>
               rows'[id] == if rows[id].status.Running? then Row(Failed, Some(INTERRUPTED), rows[id].service) else rows[id]
    ensures rows' == Pipeline.MarkInterruptedJobsFailed(rows)
  {
  }

  lemma {:induction false} RunConcat(s: State, a: seq<Move>, b: seq<Move>)
    requires RunFrom(s, a).Some?
    ensures RunFrom(s, a + b) == RunFrom(RunFrom(s, a).value, b)
    decreases |a|
  {
    hide Step;
    if a == [] {
      assert a + b == b;
    } else {
      assert (a + b)[1..] == a[1..] + b;
      RunConcat(Step(s, a[0]).value, a[1..], b);
    }
  }

  lemma RunAppend(s: State, ms: seq<Move>, m: Move)
    requires RunFrom(s, ms).Some?
    ensures RunFrom(s, ms + [m]) == Step(RunFrom(s, ms).value, m)
  {
    RunConcat(s, ms, [m]);
    var r := RunFrom(s, ms).value;
    hide Step;
    assert [m][1..] == [] && RunFrom(r, [m]) == Step(r, m);
  }

  /** The pipeline's moves for the calls of a rollout. */
  function Calls(es: seq<R.Event>): seq<Move> {
    if es == [] then [] else Calls(es[..|es|-1]) + [RolloutCall(es[|es|-1])]
  }

  /** A trace of the rollout protocol is a run of the pipeline, from wherever the worker begins it. */
  lemma {:induction false} RolloutRuns(s: State, es: seq<R.Event>)
    requires s.up && s.worker.Rolling? && s.worker.service in s.hosts && s.worker.phase == R.Start
    requires R.Run(es).Some?
    ensures var r := RunFrom(s, Calls(es));
            && r.Some? && r.value.hosts.Keys == s.hosts.Keys
            && r.value == s.(worker := s.worker.(phase := R.Run(es).value), hosts := r.value.hosts)
  {
    if es != [] {
      var init, e := es[..|es|-1], es[|es|-1];
      assert R.Run(es) == R.Step(R.Run(init).value, e);
      RolloutRuns(s, init);
      RunAppend(s, Calls(init), RolloutCall(e));
      hide RunFrom, R.Run, R.Step, H.Apply;
    }
  }

  /** How one job writes its log: whole lines, and none after its row has become terminal. */
  predicate LinesThenSettled(ws: seq<LogTail.Move>) {
    forall k :: 0 <= k < |ws| ==>
      if ws[k].Append? then ws[k].text != "" && LogTail.Whole(ws[k].text) else ws[k].Settle? && k == |ws| - 1
  }

  function LogOf(logs: map<JobId, string>, id: JobId): string { if id in logs then logs[id] else "" }

  /** What these writes add to the log. */
  function Written(ws: seq<LogTail.Move>): string {
    if ws == [] then ""
    else
      var w := ws[|ws|-1];
      Written(ws[..|ws|-1]) + if w.Append? then w.text else ""
  }

  lemma WrittenSnoc(ws: seq<LogTail.Move>, w: LogTail.Move)
    ensures Written(ws + [w]) == Written(ws) + if w.Append? then w.text else ""
  {
    assert (ws + [w])[..|ws|] == ws;
  }

  lemma SettleLast(ws: seq<LogTail.Move>)
    requires LinesThenSettled(ws) && forall w :: w in ws ==> w.Append?
    ensures LinesThenSettled(ws + [LogTail.Settle]) && Written(ws + [LogTail.Settle]) == Written(ws)
  {
    assert forall k :: 0 <= k < |ws| ==> ws[k] in ws;
    WrittenSnoc(ws, LogTail.Settle);
    assert Written(ws) + "" == Written(ws);
  }

  lemma LineLast(ws: seq<LogTail.Move>, text: string)
    requires LinesThenSettled(ws) && (forall w :: w in ws ==> w.Append?) && text != "" && LogTail.Whole(text)
    ensures LinesThenSettled(ws + [LogTail.Append(text)]) && Written(ws + [LogTail.Append(text)]) == Written(ws) + text
  {
    assert forall k :: 0 <= k < |ws| ==> ws[k] in ws;
    WrittenSnoc(ws, LogTail.Append(text));
  }

  lemma NoLines(log: string)
    ensures LinesThenSettled([]) && log == log + Written([])
  {
  }

  /** Such writes are what the log stream's theorems assume of the executor, and nothing is lost. */
  lemma {:induction false} WriterRuns(log: string, ws: seq<LogTail.Move>)
    requires LinesThenSettled(ws)
    ensures var start := LogTail.Opened(log, false);
            && LogTail.Runs(start, ws)
            && LogTail.RunFrom(start, ws) ==
                 start.(content := log + Written(ws), terminal := ws != [] && ws[|ws|-1].Settle?)
  {
    hide LogTail.Runs, LogTail.RunFrom, LogTail.Whole;
    var start := LogTail.Opened(log, false);
    if ws == [] {
      LogTail.NoMoves(start);
      assert log + "" == log;
    } else {
      var init, w := ws[..|ws|-1], ws[|ws|-1];
      assert forall k :: 0 <= k < |init| ==> init[k] == ws[k] && init[k].Append?;
      WriterRuns(log, init);
      var r := LogTail.RunFrom(start, init);
      var next := start.(content := log + Written(ws), terminal := w.Settle?);
      hide LinesThenSettled;
      Assoc(log, Written(init), if w.Append? then w.text else "");
      assert r.content + "" == r.content;
      assert LogTail.Enabled(r, w) && LogTail.Step(r, w) == next;
      assert [w] + [] == [w] && ws == init + [w];
      hide LogTail.Enabled, LogTail.Step, LogTail.Opened, Written;
      LogTail.NoMoves(next);
      LogTail.RunCons(r, w, []);
      LogStream.RunsAppend(start, init, [w]);
    }
  }

  lemma NoMoves(s: State)
    ensures RunFrom(s, []) == Some(s)
  {
  }

  lemma StatusOthers(rows: map<JobId, Row>, id: JobId, st: Status, error: Option<string>)
    ensures var r := UpdateStatus(rows, id, st, error);
            r.Keys == rows.Keys && forall other :: other in rows && other != id ==> r[other] == rows[other]
  {
  }

  lemma RunningMove(s: State, ok: bool)
    requires s.up && s.worker.Begun?
    ensures Step(s, MarkRunning(ok)) ==
              Some(s.(worker := Discovering(s.worker.id),
                      rows := if ok then UpdateStatus(s.rows, s.worker.id, Running, None) else s.rows))
  {
  }

  lemma DiscoverMove(s: State, found: Option<Service>, saved: bool, msg: string)
    requires s.up && s.worker.Discovering? && (found.Some? ==> found.value in s.hosts)
    ensures Step(s, Discover(found, saved, msg)) ==
              Some(if found.None? then s.(worker := Closing(s.worker.id, Some(msg)))
                   else s.(worker := Located(s.worker.id, found.value),
                           rows := if saved then UpdateDiscovery(s.rows, s.worker.id, found.value) else s.rows))
  {
  }

  lemma PrepareMove(s: State, ok: bool, msg: string)
    requires s.up && s.worker.Located? && s.worker.service in s.hosts
    ensures Step(s, Prepare(ok, msg)) ==
              Some(if !ok then s.(worker := Closing(s.worker.id, Some(msg)))
                   else s.(worker := Rolling(s.worker.id, s.worker.service, R.Start, s.hosts[s.worker.service])))
  {
  }

  lemma FinalMove(s: State, ok: bool)
    requires s.up && s.worker.Closing?
    ensures var st := if s.worker.error.None? then Success else Failed;
            Step(s, MarkFinal(ok)) ==
              Some(s.(worker := Returning(s.worker.id),
                      rows := if ok then UpdateStatus(s.rows, s.worker.id, st, s.worker.error) else s.rows))
  {
  }

  lemma JobRow(s: State)
    requires Inv(s) && !s.worker.Idle?
    ensures s.worker.id in s.rows
    ensures s.worker.Closing? && s.worker.error.None? ==> s.worker.id in s.deployed
  {
    hide Links, Rows;
  }

  lemma InsertMove(s: State, id: JobId)
    requires s.up && id !in s.rows && Q.Step(s.q, Q.Call(Q.Submitter(id))).Some?
    ensures Step(s, Insert(id, true, true)) ==
              Some(s.(rows := s.rows[id := Row(Queued, None, None)], q := Q.Step(s.q, Q.Call(Q.Submitter(id))).value))
  {
    hide Q.Step;
  }

  lemma OutsideMove(s: State, m: Q.Move)
    requires s.up && Outside(m) && Q.Step(s.q, m).Some?
    ensures var q := Q.Step(s.q, m).value;
            Step(s, QueueMove(m)) == Some(s.(q := q, rejected := s.rejected + NewlyRejected(m, q)))
  {
    hide Q.Step;
  }

  lemma InsertFails(s: State, id: JobId, took: bool)
    requires s.up && (took ==> id !in s.rows)
    ensures Step(s, Insert(id, false, took)) ==
              Some(if took then s.(rows := s.rows[id := Row(Queued, None, None)]) else s)
  {
  }

  lemma Unsubmitted(s: State, id: JobId)
    requires Inv(s) && id !in s.rows
    ensures Q.Submitter(id) !in s.q.threads
  {
    hide Rows, Job, Q.Inv;
  }

  /** The steps of a job, in order. */
  datatype Stage = DiscoverStage | ValidateStage | PullStage | RolloutStage | PruneStage

  const ORDER := [DiscoverStage, ValidateStage, PullStage, RolloutStage, PruneStage]

  datatype Reply = Reply(stage: Stage, error: Option<string>)

  /** What a job's steps do outside; `replies` records how each ended. */
  class Steps {
    ghost var replies: seq<Reply>
    ghost var dirs: seq<bool>
    ghost var located: Option<Service>  // what discovery found last

    constructor ()
      ensures replies == [] && dirs == []
    {
      replies, dirs, located := [], [], None;
    }

    method EnsureLogDir() returns (ok: bool)
      modifies `dirs
      ensures dirs == old(dirs) + [ok]
    {
      ok := *;
      dirs := dirs + [ok];
    }

    ghost method Note(stage: Stage, error: Option<string>)
      modifies `replies
      ensures replies == old(replies) + [Reply(stage, error)]
    {
      replies := replies + [Reply(stage, error)];
    }

    /** Finds the service, one of those on this host, or says why not. */
    method Discover(services: set<Service>) returns (found: Option<Service>, error: Option<string>)
      modifies `replies, `located
      ensures replies == old(replies) + [Reply(DiscoverStage, error)] && located == found
      ensures (found.Some? <==> error.None?) && (found.Some? ==> found.value in services)
    {
      found := *;
      if found.Some? && found.value in services {
        error := None;
      } else {
        var msg: string := *;
        found, error := None, Some(msg);
      }
      located := found;
      Note(DiscoverStage, error);
    }

    method Attempt(stage: Stage) returns (error: Option<string>)
      modifies `replies
      ensures replies == old(replies) + [Reply(stage, error)]
    {
      error := *;
      Note(stage, error);
    }
  }

  /**
   How a job ends, from the replies to its steps: they are taken in order, the first error ends the
   job and is the job's, except that pruning cannot fail it; without one all five are taken.
   */
  ghost predicate Ends(replies: seq<Reply>, error: Option<string>) {
    && 0 < |replies| <= 5
    && (forall k :: 0 <= k < |replies| ==> replies[k].stage == ORDER[k])
    && (forall k :: 0 <= k < |replies| - 1 ==> replies[k].error.None?)
    && if |replies| == 5 then error.None? else error.Some? && error == replies[|replies|-1].error
  }

  /** One stamped line more has been written. */
  ghost predicate IsLine(ws0: seq<LogTail.Move>, ws: seq<LogTail.Move>, line: string) {
    exists stamp: string :: ws == ws0 + [LogTail.Append(Stamped(stamp, line))]
  }

  lemma OneLine(ws0: seq<LogTail.Move>, stamp: string, line: string)
    ensures IsLine(ws0, ws0 + [LogTail.Append(Stamped(stamp, line))], line)
  {
  }

  function Stamped(stamp: string, line: string): string { "[" + stamp + "] " + line + "\n" }

  /** The line was written, if that worked, and then the row settled, if that did. */
  ghost predicate Concludes(ws0: seq<LogTail.Move>, ws: seq<LogTail.Move>, written: bool, line: string, saved: bool) {
    && (saved ==> ws != [] && ws[|ws|-1].Settle?)
    && var lines := if saved then ws[..|ws|-1] else ws;
       if written then IsLine(ws0, lines, line) else lines == ws0
  }

  lemma ConcludesWith(ws0: seq<LogTail.Move>, lines: seq<LogTail.Move>, written: bool, line: string, saved: bool)
    requires if written then IsLine(ws0, lines, line) else lines == ws0
    ensures Concludes(ws0, if saved then lines + [LogTail.Settle] else lines, written, line, saved)
  {
    hide IsLine;
    assert (lines + [LogTail.Settle])[..|lines|] == lines;
  }

  /** The last line of a job's log. */
  function FinalLine(error: Option<string>): string {
    if error.Some? then "[executor] ERROR: " + error.value else "[executor] Deployment successful"
  }

  lemma EndsAfter(before: seq<Reply>, replies: seq<Reply>, more: seq<Reply>, error: Option<string>)
    requires replies == before + more && Ends(more, error)
    ensures before <= replies && Ends(replies[|before|..], error)
  {
    assert replies[|before|..] == more;
  }

  /** The first steps of a job worked. */
  function Good(n: nat): seq<Reply>
    requires n <= 4
  {
    [Reply(DiscoverStage, None), Reply(ValidateStage, None), Reply(PullStage, None), Reply(RolloutStage, None)][..n]
  }

  lemma EndsWith(n: nat, last: Reply)
    requires n <= 4 && last.stage == ORDER[n] && (n < 4 ==> last.error.Some?)
    ensures Ends(Good(n) + [last], if n < 4 then last.error else None)
  {
  }

  /** The write that records where the service was found, if it was. */
  ghost predicate FoundWrite(before: seq<Sent>, sent: seq<Sent>, id: JobId, found: bool) {
    && before <= sent
    && if found then
         |sent| == |before| + 1 && sent[|before|].write.SetService? && sent[|before|].write.id == id
       else sent == before
  }

  /** A job's writes: that it runs, where its service is, if it was found, and how it ended. */
  ghost predicate Writes(before: seq<Sent>, sent: seq<Sent>, id: JobId, error: Option<string>, saved: bool) {
    && before <= sent && |before| + 2 <= |sent| <= |before| + 3
    && sent[|before|].write == SetStatus(id, Running, None)
    && (|sent| == |before| + 3 ==> sent[|before|+1].write.SetService? && sent[|before|+1].write.id == id)
    && sent[|sent|-1] == Sent(SetStatus(id, if error.None? then Success else Failed, error), saved)
  }

  /** A rollout's conversation with the daemon, and how it ended. */
  ghost predicate Concluded(calls: seq<R.Event>, outcome: R.Outcome) {
    && R.Run(calls).Some? && R.Run(calls).value.Ended? && R.Run(calls).value.outcome == outcome
    && R.Explained(calls, outcome)
  }

  class Executor {
    const store: Store
    const steps: Steps
    const queue: JobQueue.Queue
    var logs: map<JobId, string>
    const services: set<Service>     // the Compose services on this host
    const healthTimeoutMs: int
    ghost var fileReplies: seq<bool>  // whether each write to a log file worked
    ghost var state: State            // the pipeline around this executor

    ghost predicate Valid()
      reads this, store, queue
    {
      && Inv(state) && state.up && state.rows == store.rows && state.hosts.Keys == services
      && queue.Valid() && queue.state == state.q
    }

    /** The moves so far lead from `s` to where the pipeline is now. */
    ghost predicate Ran(s: State, ms: seq<Move>)
      reads this
    {
      RunFrom(s, ms) == Some(state)
    }

    /** Boots on the rows and the log files an earlier process left. */
    constructor (store: Store, steps: Steps, logs: map<JobId, string>, services: set<Service>, healthTimeoutMs: int, ghost s: State)
      requires Inv(s) && !s.up && s.rows == store.rows && s.q == Q.INIT && s.hosts.Keys == services
      modifies store
      ensures Valid() && this.store == store && this.steps == steps && this.logs == logs
      ensures exists ok :: Step(s, Boot(ok)) == Some(state) && store.sent == old(store.sent) + [Sent(FailRunning, ok)]
    {
      this.store, this.steps, this.logs, this.services := store, steps, logs, services;
      this.healthTimeoutMs, this.fileReplies := healthTimeoutMs, [];
      var ok := store.MarkInterruptedJobsFailed();
      if ok {
        IsMarkInterrupted(s.rows, store.rows);
      }
      this.queue := new JobQueue.Queue();
      this.state := s.(up := true, rows := store.rows);
      InvStep(s, Boot(ok), s.(up := true, rows := store.rows));
    }

    ghost method Take(m: Move, s: State, ms0: seq<Move>) returns (ms: seq<Move>)
      requires Inv(state) && Ran(s, ms0) && Step(state, m).Some?
      modifies `state
      ensures Inv(state) && Some(state) == Step(old(state), m) && Ran(s, ms) && ms == ms0 + [m]
    {
      InvStep(state, m, Step(state, m).value);
      RunAppend(s, ms0, m);
      state := Step(state, m).value;
      ms := ms0 + [m];
    }

    /** `ws` are the lines this job has logged on top of `log`. */
    ghost predicate Logged(id: JobId, log: string, ws: seq<LogTail.Move>)
      reads `logs
    {
      LinesThenSettled(ws) && (forall w :: w in ws ==> w.Append?) && LogOf(logs, id) == log + Written(ws)
    }

    /** One write to a job's log file, all of it or nothing. */
    method WriteFile(id: JobId, text: string) returns (ok: bool)
      modifies `logs, `fileReplies
      ensures fileReplies == old(fileReplies) + [ok]
      ensures logs == if ok then old(logs)[id := LogOf(old(logs), id) + text] else old(logs)
    {
      ok := *;
      fileReplies := fileReplies + [ok];
      if ok {
        logs := logs[id := LogOf(logs, id) + text];
      }
    }

    /** Appends a stamped line to the job's log, in one write; a write that fails is ignored. */
    method AppendLog(id: JobId, line: string, ghost log: string, ghost ws0: seq<LogTail.Move>)
      returns (ghost ws: seq<LogTail.Move>)
      requires Logged(id, log, ws0)
      modifies `logs, `fileReplies
      ensures Logged(id, log, ws)
      ensures |fileReplies| == |old(fileReplies)| + 1
      ensures if fileReplies[|old(fileReplies)|] then IsLine(ws0, ws, line) else ws == ws0
      ensures forall other :: other != id ==> LogOf(logs, other) == LogOf(old(logs), other)
    {
      hide LinesThenSettled, Written;
      var stamp: string := *;
      var text := "[" + stamp + "] " + line + "\n";
      var ok := WriteFile(id, text);
      ws := ws0;
      if ok {
        LineLast(ws0, text);
        Assoc(log, Written(ws0), text);
        assert text == Stamped(stamp, line);
        ws := ws0 + [LogTail.Append(Stamped(stamp, line))];
        OneLine(ws0, stamp, line);
      }
    }

    /** Inserts the row, logs, and enqueues; a job the queue turns away keeps its queued row. */
    method Submit(id: JobId) returns (inserted: bool, err: Option<Q.EnqueueResult>, ghost ms: seq<Move>)
      requires Valid() && state.q.mutex.None?
      modifies this, store, queue, steps
      ensures Valid() && RunFrom(old(state), ms) == Some(state)
      ensures |steps.dirs| == |old(steps.dirs)| + 1
      ensures var dirOk := steps.dirs[|old(steps.dirs)|];
              store.sent == old(store.sent) + if dirOk then [Sent(InsertRow(id), inserted)] else []
      ensures inserted ==> steps.dirs[|old(steps.dirs)|]
      ensures |fileReplies| == |old(fileReplies)| + if inserted then 1 else 0
      ensures forall other :: other != id || !inserted ==> LogOf(logs, other) == LogOf(old(logs), other)
      ensures !inserted ==>
                && err.None? && queue.ch == old(queue.ch)
                && (store.rows == old(store.rows)
                    || (id !in old(store.rows) && store.rows == old(store.rows)[id := Row(Queued, None, None)]))
      ensures inserted ==>
                && id !in old(store.rows) && store.rows == old(store.rows)[id := Row(Queued, None, None)]
                && err.Some? && queue.ch == old(queue.ch) + (if err == Some(Q.Accepted) then [id] else [])
                && (err != Some(Q.Accepted) <==> queue.drained || |old(queue.ch)| == 1024)
                && (err != Some(Q.Accepted) ==> id in state.rejected)
    {
      hide Inv, RunFrom, Step, Q.Inv, LinesThenSettled, Written, IsLine, LogOf;
      ghost var s := state;
      ms := [];
      NoMoves(s);
      var dirOk := steps.EnsureLogDir();
      if !dirOk {
        return false, None, ms;
      }
      ghost var took;
      inserted, took := store.Insert(id);
      if !inserted {
        InsertFails(state, id, took);
        ms := Take(Pipeline.Insert(id, false, took), s, ms);
        return false, None, ms;
      }
      Unsubmitted(state, id);
      err, ms := LogAndEnqueue(id);
    }

    /** The rest of Submit, once the row is there. */
    method LogAndEnqueue(id: JobId) returns (err: Option<Q.EnqueueResult>, ghost ms: seq<Move>)
      requires Inv(state) && state.up && state.hosts.Keys == services && queue.Valid() && queue.state == state.q
      requires id !in state.rows && store.rows == state.rows[id := Row(Queued, None, None)]
      requires state.q.mutex.None? && Q.Submitter(id) !in state.q.threads
      modifies this, queue
      ensures Valid() && RunFrom(old(state), ms) == Some(state)
      ensures |fileReplies| == |old(fileReplies)| + 1
      ensures forall other :: other != id ==> LogOf(logs, other) == LogOf(old(logs), other)
      ensures err.Some? && queue.ch == old(queue.ch) + (if err == Some(Q.Accepted) then [id] else [])
      ensures err != Some(Q.Accepted) <==> queue.drained || |old(queue.ch)| == 1024
      ensures err != Some(Q.Accepted) ==> id in state.rejected
    {
      hide Inv, RunFrom, Step, Q.Inv, Q.After, LinesThenSettled, Written, IsLine, LogOf;
      NoMoves(state);
      NoLines(LogOf(logs, id));
      ghost var ws := AppendLog(id, "[queue] Deployment queued", LogOf(logs, id), []);
      var result;
      ghost var qms;
      result, qms := queue.Enqueue(id);
      ms := Enqueued(id, result, old(state), []);
      err := Some(result);
    }

    /** The pipeline's moves for a call of Enqueue. */
    ghost method Enqueued(id: JobId, result: Q.EnqueueResult, s: State, ms0: seq<Move>) returns (ms: seq<Move>)
      requires Inv(state) && state.up && Ran(s, ms0) && id !in state.rows && queue.Valid()
      requires Q.Submitter(id) in queue.state.threads && queue.state.threads[Q.Submitter(id)] == Q.EnqueueDone(result)
      requires var t := Q.Submitter(id);
               var checked := Q.After(Q.After(Q.After(Some(state.q), Q.Call(t)), Q.Lock(t)), Q.Act(t));
               Some(queue.state) == if state.q.drained then checked else Q.After(checked, Q.Act(t))
      modifies `state
      ensures Inv(state) && state.up && Ran(s, ms) && state.q == queue.state
      ensures state.rows == old(state.rows)[id := Row(Queued, None, None)]
      ensures state.hosts == old(state.hosts)
      ensures state.rejected == old(state.rejected) + if result.Accepted? then {} else {id}
    {
      hide Inv, RunFrom, Step, Q.Step, Q.ActOf, Q.Inv;
      var t := Q.Submitter(id);
      Q.EnqueueChecks(state.q, t);
      InsertMove(state, id);
      ms := Take(Insert(id, true, true), s, ms0);
      OutsideMove(state, Q.Lock(t));
      ms := Take(QueueMove(Q.Lock(t)), s, ms);
      OutsideMove(state, Q.Act(t));
      ms := Take(QueueMove(Q.Act(t)), s, ms);
      if !state.q.drained {
        OutsideMove(state, Q.Act(t));
        ms := Take(QueueMove(Q.Act(t)), s, ms);
      }
    }

    /** Runs one job to its end and records how it ended; `saved`: the final write took effect. */
    method Run(id: JobId)
      returns (error: Option<string>, saved: bool, ghost outcome: Option<R.Outcome>, ghost calls: seq<R.Event>,
        ghost ms: seq<Move>, ghost ws: seq<LogTail.Move>)
      requires Valid() && state.worker == Begun(id)
      modifies this, store, steps
      ensures Valid() && RunFrom(old(state), ms) == Some(state) && state.worker == Returning(id)
      ensures forall other :: other in old(store.rows) && other != id ==>
                                other in store.rows && store.rows[other] == old(store.rows)[other]
      ensures old(steps.replies) <= steps.replies && Ends(steps.replies[|old(steps.replies)|..], error)
      ensures outcome.Some? <==> |steps.replies| >= |old(steps.replies)| + 4
      ensures outcome.Some? ==> Concluded(calls, outcome.value)
      ensures error.None? <==> outcome == Some(R.Succeeded)
      ensures id in store.rows && (error.None? ==> id in state.deployed)
      ensures saved ==> store.rows[id].error == error
                        && store.rows[id].status == if outcome == Some(R.Succeeded) then Success else Failed
      ensures Writes(old(store.sent), store.sent, id, error, saved)
      ensures LinesThenSettled(ws) && LogOf(logs, id) == LogOf(old(logs), id) + Written(ws)
      ensures saved <==> ws != [] && ws[|ws|-1].Settle?
      ensures forall other :: other != id ==> LogOf(logs, other) == LogOf(old(logs), other)
    {
      hide Inv, RunFrom, Step, LinesThenSettled, Written, LogOf, UpdateStatus, Ends, Concluded;
      ghost var s, log := state, LogOf(logs, id);
      NoMoves(s);
      NoLines(log);
      JobRow(state);
      var ok := store.UpdateStatus(id, Running, None);
      if ok {
        IsUpdateStatus(old(store.rows), store.rows, id, Running, None);
      }
      RunningMove(state, ok);
      ms := Take(MarkRunning(ok), s, []);
      StatusOthers(old(store.rows), id, Running, None);
      error, outcome, calls, ms, ws := Execute(id, s, ms, log, []);
      saved, ms, ws := Conclude(id, error, s, ms, log, ws);
    }

    /** Logs how the job ended, and then writes that into its row. */
    method Conclude(id: JobId, error: Option<string>, ghost s: State, ghost ms0: seq<Move>, ghost log: string,
        ghost ws0: seq<LogTail.Move>)
      returns (saved: bool, ghost ms: seq<Move>, ghost ws: seq<LogTail.Move>)
      requires Valid() && state.worker == Closing(id, error) && Ran(s, ms0) && Logged(id, log, ws0)
      modifies this, store
      ensures Valid() && Ran(s, ms) && state.worker == Returning(id)
      ensures store.rows.Keys == old(store.rows).Keys && id in store.rows && (error.None? ==> id in state.deployed)
      ensures forall other :: other in old(store.rows) && other != id ==> store.rows[other] == old(store.rows)[other]
      ensures saved ==> store.rows[id].error == error
                        && store.rows[id].status == if error.None? then Success else Failed
      ensures store.sent == old(store.sent) + [Sent(SetStatus(id, if error.None? then Success else Failed, error), saved)]
      ensures LinesThenSettled(ws) && LogOf(logs, id) == log + Written(ws)
      ensures |fileReplies| == |old(fileReplies)| + 1
      ensures Concludes(ws0, ws, fileReplies[|old(fileReplies)|], FinalLine(error), saved)
      ensures saved <==> ws != [] && ws[|ws|-1].Settle?
      ensures forall other :: other != id ==> LogOf(logs, other) == LogOf(old(logs), other)
    {
      hide Inv, RunFrom, Step, LinesThenSettled, Written, LogOf, IsLine, Concludes;
      var finalStatus := if error.None? then Success else Failed;
      ws := AppendLog(id, if error.Some? then "[executor] ERROR: " + error.value else "[executor] Deployment successful", log, ws0);
      ghost var lines := ws;
      assert ws != [] ==> ws[|ws|-1] in ws && ws[|ws|-1].Append?;
      JobRow(state);
      saved := store.UpdateStatus(id, finalStatus, error);
      if saved {
        IsUpdateStatus(old(store.rows), store.rows, id, finalStatus, error);
      }
      FinalMove(state, saved);
      ms := Take(MarkFinal(saved), s, ms0);
      if saved {
        SettleLast(ws);
        ws := ws + [LogTail.Settle];
      }
      ConcludesWith(ws0, lines, fileReplies[|old(fileReplies)|], FinalLine(error), saved);
    }

    /** Discover, validate, pull, roll out, prune; the first of the first four that fails ends it. */
    method Execute(id: JobId, ghost s: State, ghost ms0: seq<Move>, ghost log: string, ghost ws0: seq<LogTail.Move>)
      returns (error: Option<string>, ghost outcome: Option<R.Outcome>, ghost calls: seq<R.Event>,
        ghost ms: seq<Move>, ghost ws: seq<LogTail.Move>)
      requires Valid() && state.worker == Discovering(id) && Ran(s, ms0) && Logged(id, log, ws0)
      modifies this, store, steps
      ensures Valid() && Ran(s, ms) && state.worker == Closing(id, error) && state.q == old(state.q)
      ensures forall other :: other in old(store.rows) && other != id ==>
                                other in store.rows && store.rows[other] == old(store.rows)[other]
      ensures store.rows.Keys == old(store.rows).Keys
      ensures old(steps.replies) <= steps.replies && Ends(steps.replies[|old(steps.replies)|..], error)
      ensures outcome.Some? <==> |steps.replies| >= |old(steps.replies)| + 4
      ensures outcome.Some? ==> Concluded(calls, outcome.value)
      ensures error.None? <==> outcome == Some(R.Succeeded)
      ensures FoundWrite(old(store.sent), store.sent, id, |steps.replies| > |old(steps.replies)| + 1)
      ensures |steps.replies| > |old(steps.replies)| + 1 ==>
                steps.located.Some? && store.sent[|old(store.sent)|].write == SetService(id, steps.located.value)
      ensures Logged(id, log, ws)
      ensures forall other :: other != id ==> LogOf(logs, other) == LogOf(old(logs), other)
    {
      hide Inv, RunFrom, Step, LinesThenSettled, Written, LogOf, IsLine, Ends, Concluded, UpdateDiscovery, Q.Inv, R.Run;
      ghost var before := steps.replies;
      outcome, calls := None, [];
      error, ms, ws := Locate(id, s, ms0, log, ws0);
      if error.Some? {
        return;
      }
      error, ms, ws := ValidateAndPull(id, before, s, ms, log, ws);
      if error.Some? {
        return;
      }

      error, outcome, calls, ms := RollOut(id, s, ms);
      ws := Finish(id, error, before, log, ws);
    }

    /** After the rollout: prunes if it succeeded, which cannot fail the job. */
    method Finish(id: JobId, error: Option<string>, ghost before: seq<Reply>, ghost log: string, ghost ws0: seq<LogTail.Move>)
      returns (ghost ws: seq<LogTail.Move>)
      requires Logged(id, log, ws0) && steps.replies == before + Good(3) + [Reply(RolloutStage, error)]
      modifies `logs, `fileReplies, steps
      ensures Logged(id, log, ws)
      ensures before <= steps.replies && Ends(steps.replies[|before|..], error)
      ensures |steps.replies| >= |before| + 4 && steps.located == old(steps.located)
      ensures forall other :: other != id ==> LogOf(logs, other) == LogOf(old(logs), other)
    {
      hide LinesThenSettled, Written, LogOf, IsLine, Ends;
      ws := ws0;
      if error.Some? {
        EndsWith(3, Reply(RolloutStage, error));
        EndsAfter(before, steps.replies, Good(3) + [Reply(RolloutStage, error)], error);
        return;
      }
      assert steps.replies == before + Good(4);
      var warning := steps.Attempt(PruneStage);
      EndsWith(4, Reply(PruneStage, warning));
      EndsAfter(before, steps.replies, Good(4) + [Reply(PruneStage, warning)], None);
      if warning.Some? {
        ws := AppendLog(id, "[prune] WARNING: " + warning.value, log, ws);
      }
    }

    /** Finds the job's service and records it. */
    method Locate(id: JobId, ghost s: State, ghost ms0: seq<Move>, ghost log: string, ghost ws0: seq<LogTail.Move>)
      returns (error: Option<string>, ghost ms: seq<Move>, ghost ws: seq<LogTail.Move>)
      requires Valid() && state.worker == Discovering(id) && Ran(s, ms0) && Logged(id, log, ws0)
      modifies this, store, steps
      ensures Valid() && Ran(s, ms) && Logged(id, log, ws) && state.q == old(state.q)
      ensures store.rows.Keys == old(store.rows).Keys && SameBut(old(store.rows), store.rows, id)
      ensures FoundWrite(old(store.sent), store.sent, id, error.None?)
      ensures error.Some? ==>
                && state.worker == Closing(id, error) && |steps.replies| == |old(steps.replies)| + 1
                && old(steps.replies) <= steps.replies && Ends(steps.replies[|old(steps.replies)|..], error)
      ensures error.None? ==>
                && state.worker.Located? && state.worker.id == id && state.worker.service in services
                && steps.replies == old(steps.replies) + Good(1)
                && steps.located == Some(state.worker.service)
                && store.sent[|old(store.sent)|].write == SetService(id, state.worker.service)
      ensures forall other :: other != id ==> LogOf(logs, other) == LogOf(old(logs), other)
    {
      hide Inv, RunFrom, Step, LinesThenSettled, Written, LogOf, IsLine, Ends, UpdateDiscovery;
      var found;
      found, error := steps.Discover(services);
      if found.None? {
        DiscoverMove(state, None, false, error.value);
        ms := Take(Discover(None, false, error.value), s, ms0);
        EndsWith(0, Reply(DiscoverStage, error));
        EndsAfter(old(steps.replies), steps.replies, Good(0) + [Reply(DiscoverStage, error)], error);
        ws := ws0;
        return;
      }
      var svc := found.value;
      var ok := store.UpdateDiscovery(id, svc);
      if ok {
        IsUpdateDiscovery(old(store.rows), store.rows, id, svc);
      }
      DiscoverMove(state, Some(svc), ok, "");
      ms := Take(Discover(Some(svc), ok, ""), s, ms0);
      ws := AppendLog(id, "[discover]", log, ws0);
    }

    method ValidateAndPull(id: JobId, ghost before: seq<Reply>, ghost s: State, ghost ms0: seq<Move>, ghost log: string,
        ghost ws0: seq<LogTail.Move>)
      returns (error: Option<string>, ghost ms: seq<Move>, ghost ws: seq<LogTail.Move>)
      requires Valid() && state.worker.Located? && state.worker.id == id && state.worker.service in services
      requires Ran(s, ms0) && Logged(id, log, ws0) && steps.replies == before + Good(1)
      modifies this, steps`replies
      ensures Valid() && Ran(s, ms) && Logged(id, log, ws) && state.q == old(state.q)
      ensures error.Some? ==>
                && state.worker == Closing(id, error) && |steps.replies| < |before| + 4 && |steps.replies| > |before| + 1
                && before <= steps.replies && Ends(steps.replies[|before|..], error)
      ensures error.None? ==>
                && state.worker.Rolling? && state.worker.id == id && state.worker.phase == R.Start
                && state.worker.service == old(state.worker.service) && steps.replies == before + Good(3)
      ensures forall other :: other != id ==> LogOf(logs, other) == LogOf(old(logs), other)
    {
      hide Inv, RunFrom, Step, LinesThenSettled, Written, LogOf, IsLine, Ends;
      error := steps.Attempt(ValidateStage);
      if error.Some? {
        EndsWith(1, Reply(ValidateStage, error));
        EndsAfter(before, steps.replies, Good(1) + [Reply(ValidateStage, error)], error);
        ws := AppendLog(id, "[validate] FAILED", log, ws0);
        PrepareMove(state, false, error.value);
        ms := Take(Prepare(false, error.value), s, ms0);
        return;
      }
      ws := AppendLog(id, "[validate] OK", log, ws0);
      assert steps.replies == before + Good(2);
      error := steps.Attempt(PullStage);
      if error.Some? {
        EndsWith(2, Reply(PullStage, error));
        EndsAfter(before, steps.replies, Good(2) + [Reply(PullStage, error)], error);
        PrepareMove(state, false, error.value);
        ms := Take(Prepare(false, error.value), s, ms0);
        return;
      }
      assert steps.replies == before + Good(3);
      PrepareMove(state, true, "");
      ms := Take(Prepare(true, ""), s, ms0);
    }

    /** Rolls out: no error if and only if the rollout succeeded. */
    method RollOut(id: JobId, ghost s: State, ghost ms0: seq<Move>)
      returns (error: Option<string>, ghost outcome: Option<R.Outcome>, ghost calls: seq<R.Event>, ghost ms: seq<Move>)
      requires Valid() && state.worker.Rolling? && state.worker.id == id && Ran(s, ms0)
      requires state.worker.phase == R.Start && state.worker.service in services
      modifies `state, steps`replies
      ensures Valid() && Ran(s, ms) && state.worker == Closing(id, error) && state.q == old(state.q)
      ensures steps.replies == old(steps.replies) + [Reply(RolloutStage, error)]
      ensures outcome.Some? && Concluded(calls, outcome.value)
      ensures error.None? <==> outcome == Some(R.Succeeded)
    {
      hide Inv, RunFrom, Q.Inv, Q.Step, R.Step, H.Apply, R.Explained;
      var docker := new Rollout.DockerHost();
      var msg: string := *;
      var result := Rollout.Rollout(docker, healthTimeoutMs);
      outcome, calls := Some(result), docker.trace;
      ms := RolledOut(docker.trace, s, ms0);
      ms := Take(RolloutReturns(msg), s, ms);
      error := if result.Succeeded? then None else Some(msg);
      steps.Note(RolloutStage, error);
    }

    /** The pipeline's moves for the calls a rollout has made. */
    ghost method RolledOut(es: seq<R.Event>, s: State, ms0: seq<Move>) returns (ms: seq<Move>)
      requires Inv(state) && state.up && Ran(s, ms0) && R.Run(es).Some?
      requires state.worker.Rolling? && state.worker.service in state.hosts && state.worker.phase == R.Start
      modifies `state
      ensures Inv(state) && Ran(s, ms) && state.hosts.Keys == old(state).hosts.Keys
      ensures state == old(state).(worker := old(state).worker.(phase := R.Run(es).value), hosts := state.hosts)
    {
      RolloutRuns(state, es);
      Lifecycle(state, Calls(es));
      RunConcat(s, ms0, Calls(es));
      state := RunFrom(state, Calls(es)).value;
      ms := ms0 + Calls(es);
    }
  }
}
