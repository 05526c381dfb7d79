/**
 The log component over its whole life: the pipeline goes on, polls report the status the job's
 row has or had, every change of the status empties the view, and streams open in between.
 */
module LogComponent {
  import opened Options
  import opened SseClient
  import opened LogFidelity
  import LogTail
  import P = Pipeline

  /**
   `status` is the component's property. `past` and `since` are history: the statuses the job's row
   has had, any of which a poll that was under way may still report, and the streams that opened
   since the view was last emptied.
   */
  datatype Scene = Scene(jobs: P.State, past: set<P.Status>, status: P.Status, shown: seq<string>, since: seq<Cycle>)

  datatype Happening =
    | Later(m: P.Move)
    | Polled(status: P.Status)
    | Stream(c: Cycle)

  /** A stream of the job's log opens now; nothing is logged after the row has become terminal. */
  ghost predicate Opens(s: Scene, id: P.JobId, log: string, c: Cycle) {
    && id in s.jobs.rows && c.terminal == P.Terminal(s.jobs.rows[id].status)
    && Streams(c, log) && (c.terminal ==> c.start == log)
  }

  ghost function Next(s: Scene, id: P.JobId, log: string, h: Happening): Option<Scene> {
    match h
    case Later(m) =>
      var jobs := P.Step(s.jobs, m);
      if jobs.None? then None
      else Some(s.(jobs := jobs.value, past := s.past + if id in jobs.value.rows then {jobs.value.rows[id].status} else {}))
    case Polled(status) =>
      if status !in s.past then None
      else if status == s.status then Some(s)
      else Some(s.(status := status, shown := [], since := []))
    case Stream(c) =>
      // only a running job is streamed more than once
      if (s.since != [] && !s.status.Running?) || !Opens(s, id, log, c) then None
      else Some(s.(shown := Reshow(s.shown, Lines(c)), since := s.since + [c]))
  }

  ghost function RunFrom(s: Scene, id: P.JobId, log: string, hs: seq<Happening>): Option<Scene>
    decreases |hs|
  {
    if hs == [] then Some(s)
    else
      match Next(s, id, log, hs[0])
      case None => None
      case Some(s') => RunFrom(s', id, log, hs[1..])
  }

  ghost predicate Inv(s: Scene, id: P.JobId, log: string) {
    && P.Inv(s.jobs) && s.status in s.past && (id in s.jobs.rows ==> s.jobs.rows[id].status in s.past)
    && (forall st :: st in s.past && P.Terminal(st) ==> id in s.jobs.rows && s.jobs.rows[id].status == st)
    && s.shown == Shown(s.since)
    && (forall c :: c in s.since ==> Streams(c, log))
    && (P.Terminal(s.status) ==> |s.since| <= 1 && forall c :: c in s.since ==> c.terminal && c.start == log)
  }

  /** The component is mounted on a status just read. */
  lemma Mounted(jobs: P.State, id: P.JobId, log: string)
    requires P.Inv(jobs) && id in jobs.rows
    ensures var status := jobs.rows[id].status; Inv(Scene(jobs, {status}, status, [], []), id, log)
  {
    hide P.Inv;
  }

  lemma LaterStep(s: Scene, id: P.JobId, log: string, m: P.Move, s': Scene)
    requires Inv(s, id, log) && Next(s, id, log, Later(m)) == Some(s')
    ensures Inv(s', id, log)
  {
    P.InvStep(s.jobs, m, s'.jobs);
    P.ForwardStep(s.jobs, m, s'.jobs);
    hide P.Inv, P.Step, Streams, Shown;
  }

  lemma PolledStep(s: Scene, id: P.JobId, log: string, status: P.Status, s': Scene)
    requires Inv(s, id, log) && Next(s, id, log, Polled(status)) == Some(s')
    ensures Inv(s', id, log)
  {
    hide P.Inv, P.Step, Streams;
  }

  lemma StreamStep(s: Scene, id: P.JobId, log: string, c: Cycle, s': Scene)
    requires Inv(s, id, log) && Next(s, id, log, Stream(c)) == Some(s')
    ensures Inv(s', id, log)
  {
    hide P.Inv, P.Step, Streams, Lines, Reshow;
    assert (s.since + [c])[..|s.since|] == s.since;
  }

  lemma InvStep(s: Scene, id: P.JobId, log: string, h: Happening, s': Scene)
    requires Inv(s, id, log) && Next(s, id, log, h) == Some(s')
    ensures Inv(s', id, log)
  {
    hide Inv, Next;
    match h
    case Later(m) => LaterStep(s, id, log, m, s');
    case Polled(status) => PolledStep(s, id, log, status, s');
    case Stream(c) => StreamStep(s, id, log, c, s');
  }

  lemma {:induction false} RunInv(s: Scene, id: P.JobId, log: string, hs: seq<Happening>)
    requires Inv(s, id, log) && RunFrom(s, id, log, hs).Some?
    ensures Inv(RunFrom(s, id, log, hs).value, id, log)
    decreases |hs|
  {
    hide Inv, Next;
    if hs != [] {
      var s' := Next(s, id, log, hs[0]).value;
      InvStep(s, id, log, hs[0], s');
      RunInv(s', id, log, hs[1..]);
    }
  }

  /**
   Over the component's whole life, with the pipeline running on, polls that may be late, and streams
   cut anywhere: the view is what the streams since the last change of status make of it, as
   `Fidelity` says. With a terminal status it is right whatever was shown before: exactly the first
   events of the log that the stream opened since then delivered, and all once that arrives in full.
   */
  lemma ComponentFidelity(s: Scene, id: P.JobId, log: string, hs: seq<Happening>)
    requires LogTail.Whole(log) && Inv(s, id, log) && RunFrom(s, id, log, hs).Some?
    ensures var r := RunFrom(s, id, log, hs).value;
            && (forall c :: c in r.since ==> Streams(c, log))
            && |r.shown| == Longest(r.since)
            && (r.shown <= Events(log) <==> forall i :: 0 <= i < |r.since| ==> !Spoils(r.since, i, log))
            && (P.Terminal(r.status) ==>
                  && |r.since| <= 1 && r.shown <= Events(log)
                  && (r.since != [] ==> r.shown == Lines(r.since[0]))
                  && ((exists c :: c in r.since && Concat(c.chunks) == Print(Events(log))) ==> r.shown == Events(log)))
  {
    RunInv(s, id, log, hs);
    var r := RunFrom(s, id, log, hs).value;
    hide RunFrom, P.Inv, Shown, Longest, Streams, Events, Spoils, Concat, Print, Lines;
    Fidelity(log, r.since);
    if P.Terminal(r.status) {
      forall c | c in r.since ensures Possible(c) { PossibleStream(c, log); }
      TerminalJobFidelity(log, r.since);
      if r.since != [] {
        OnlyStream(r.since);
      }
    }
  }

  lemma PossibleStream(c: Cycle, log: string)
    requires Streams(c, log)
    ensures Possible(c)
  {
  }

  lemma OnlyStream(cycles: seq<Cycle>)
    requires |cycles| == 1
    ensures Shown(cycles) == Lines(cycles[0])
  {
    hide Lines;
    assert cycles[..0] == [] && [] + Lines(cycles[0])[0..] == Lines(cycles[0]);
  }

  /**
   A view that was spoiled, or has anything else, is put right: when the row is terminal and the
   component does not know it yet, the next poll that reports it empties the view, and then one
   stream that arrives in full shows the whole log.
   */
  lemma PollThenStream(s: Scene, id: P.JobId, log: string, c: Cycle)
    requires LogTail.Whole(log) && Inv(s, id, log) && id in s.jobs.rows
    requires var st := s.jobs.rows[id].status; P.Terminal(st) && st != s.status
    requires Opens(s, id, log, c) && Concat(c.chunks) == Print(Events(log))
    ensures var r := RunFrom(s, id, log, [Polled(s.jobs.rows[id].status), Stream(c)]);
            r.Some? && r.value.shown == Events(log)
  {
    hide Inv, Events, Streams, Concat, Print, Lines, RunFrom;
    var st := s.jobs.rows[id].status;
    Reported(s, id, log);
    var s' := s.(status := st, shown := [], since := []);
    assert Next(s, id, log, Polled(st)) == Some(s');
    var r := s'.(shown := Reshow([], Lines(c)), since := [] + [c]);
    assert Next(s', id, log, Stream(c)) == Some(r);
    RunTwo(s, id, log, Polled(st), s', Stream(c), r);
    AllLines(c, log);
    Unseen(Events(log));
  }

  /** The row's present status may be reported. */
  lemma Reported(s: Scene, id: P.JobId, log: string)
    requires Inv(s, id, log) && id in s.jobs.rows
    ensures s.jobs.rows[id].status in s.past
  {
    hide P.Inv, Streams, Shown;
  }

  lemma Unseen(lines: seq<string>)
    ensures Reshow([], lines) == lines
  {
  }

  lemma RunTwo(s: Scene, id: P.JobId, log: string, a: Happening, s': Scene, b: Happening, r: Scene)
    requires Next(s, id, log, a) == Some(s') && Next(s', id, log, b) == Some(r)
    ensures RunFrom(s, id, log, [a, b]) == Some(r)
  {
    hide Next;
    assert [a, b][1..] == [b] && [b][1..] == [];
    assert RunFrom(r, id, log, []) == Some(r);
    assert RunFrom(s', id, log, [b]) == Some(r);
  }
}
