/** From the log file to the dashboard, over any number of streams, each possibly cut short. */
module LogFidelity {
  import opened GoStrings
  import opened LogTail
  import opened SseClient

  /** One stream: how the handler ran and in what chunks its response, or part of it, arrived. */
  datatype Cycle = Cycle(start: string, terminal: bool, ms: seq<Move>, chunks: seq<string>)

  ghost predicate Possible(c: Cycle) {
    && Whole(c.start) && Runs(Opened(c.start, c.terminal), c.ms)
    && Concat(c.chunks) <= Print(EndOf(c).sent)
  }

  ghost function EndOf(c: Cycle): State
    requires Runs(Opened(c.start, c.terminal), c.ms)
  {
    RunFrom(Opened(c.start, c.terminal), c.ms)
  }

  /** The stream read this log, or what there was of it then. */
  ghost predicate Streams(c: Cycle, log: string) { Possible(c) && EndOf(c).content <= log }

  /** The log when the handler last hit the end of the file. */
  ghost function SeenOf(c: Cycle): string
    requires Runs(Opened(c.start, c.terminal), c.ms)
  {
    EndOf(c).seen
  }

  /** The handler ended the stream although a line followed what it had seen of the log. */
  ghost predicate EndedEarly(c: Cycle, log: string)
    requires Streams(c, log)
  {
    EndOf(c).phase == Closed(true) && SeenOf(c) <= log && LinesOf(log[|SeenOf(c)|..]) != []
  }

  function Lines(c: Cycle): seq<string> { Received(Concat(c.chunks)) }

  /** Such a stream arrived up to its `[DONE]`, where the log has another line. */
  ghost predicate Misleads(c: Cycle, log: string)
    requires Streams(c, log)
  {
    EndedEarly(c, log) && Lines(c) == EndOf(c).sent && |Lines(c)| <= |LinesOf(log)|
    && Lines(c) != [] && LinesOf(log)[|Lines(c)|-1] != DONE
  }

  /** The raw lines the view shows after these streams. */
  function Shown(cycles: seq<Cycle>): seq<string> {
    if cycles == [] then []
    else Reshow(Shown(cycles[..|cycles|-1]), Lines(cycles[|cycles|-1]))
  }

  /** These are the streams the component's effect shows in an emptied view. */
  lemma {:induction false} ShownByEffect(cycles: seq<Cycle>)
    ensures Shown(cycles) == ShowAll(seq(|cycles|, i requires 0 <= i < |cycles| => cycles[i].chunks))
  {
    if cycles != [] {
      var init := cycles[..|cycles|-1];
      var streams := seq(|cycles|, i requires 0 <= i < |cycles| => cycles[i].chunks);
      ShownByEffect(init);
      assert streams[..|cycles|-1] == seq(|init|, i requires 0 <= i < |init| => init[i].chunks);
      hide Received, Concat, Reshow;
    }
  }

  /** The most lines one of these streams delivered. */
  function Longest(cycles: seq<Cycle>): nat {
    if cycles == [] then 0
    else
      var n, m := Longest(cycles[..|cycles|-1]), |Lines(cycles[|cycles|-1])|;
      if n < m then m else n
  }

  /** All a finished job's log has to say. */
  function Events(log: string): seq<string> { LinesOf(log) + [DONE] }

  lemma EventsPrintable(log: string)
    ensures Printable(Events(log))
  {
    LinesPrintable(log);
    forall e | e in Events(log) ensures e != "" && '\n' !in e {
      assert e in LinesOf(log) || e == DONE;
    }
  }

  lemma SentPrintable(log: string, phase: Phase)
    ensures Printable(Sent(LinesOf(log), phase))
  {
    EventsPrintable(log);
  }

  /** What the handler has sent, in terms of the whole log. */
  lemma SentOfLog(c: Cycle, log: string)
    requires Streams(c, log) && Whole(log)
    ensures var sent := EndOf(c).sent;
            && Printable(sent)
            && if EndedEarly(c, log) then 0 < |sent| <= |LinesOf(log)| && sent == LinesOf(log)[..|sent|-1] + [DONE]
               else sent <= Events(log)
  {
    hide LinesOf, Runs, RunFrom, Whole;
    var r := EndOf(c);
    EndFacts(c);
    var read := r.content[..r.pos];
    SentPrintable(read, r.phase);
    LinesAppend(read, log[|read|..]);
    assert log == read + log[|read|..];
    hide Possible, Inv, Opened;
  }

  lemma EndFacts(c: Cycle)
    requires Possible(c)
    ensures var r := EndOf(c);
            && r.pos <= |r.content| && Whole(r.content[..r.pos]) && r.sent == Sent(LinesOf(r.content[..r.pos]), r.phase)
            && (r.phase == Closed(true) ==> r.seen == r.content[..r.pos])
  {
    hide LinesOf, Runs, RunFrom, Whole;
    OpenedInv(c.start, c.terminal);
    TailIsFaithful(Opened(c.start, c.terminal), c.ms);
  }

  /**
   The lines a stream delivers are the first events of the log, exactly if the stream does not
   mislead; one that does has its `[DONE]` where the log goes on.
   */
  lemma StreamLines(c: Cycle, log: string)
    requires Streams(c, log) && Whole(log)
    ensures Lines(c) <= Events(log) <==> !Misleads(c, log)
    ensures Misleads(c, log) ==>
              && 0 < |Lines(c)| < |Events(log)|
              && Lines(c)[|Lines(c)|-1] == DONE != Events(log)[|Lines(c)|-1]
  {
    hide LinesOf, Runs, RunFrom, EndedEarly, Received;
    SentOfLog(c, log);
    var sent := EndOf(c).sent;
    assert Concat(c.chunks) <= Print(sent) by { PossibleText(c, log); }
    ReceivedPrefix(sent, Concat(c.chunks));
    hide Concat, Print, Printable;
    PrefixCases(Lines(c), sent, LinesOf(log));
  }

  lemma PossibleText(c: Cycle, log: string)
    requires Streams(c, log)
    ensures Concat(c.chunks) <= Print(EndOf(c).sent)
  {
  }

  /** A prefix of the log's lines with `[DONE]` after some of them. */
  lemma PrefixCases(r: seq<string>, sent: seq<string>, lines: seq<string>)
    requires |r| <= |sent| && r == sent[..|r|]
    ensures sent <= lines + [DONE] ==> r <= lines + [DONE]
    ensures 0 < |sent| <= |lines| && sent == lines[..|sent|-1] + [DONE] ==>
              && (r == sent ==> r[|r|-1] == DONE && (r <= lines + [DONE] <==> lines[|r|-1] == DONE))
              && (r != sent ==> r <= lines + [DONE])
  {
    if 0 < |sent| <= |lines| && sent == lines[..|sent|-1] + [DONE] {
      if r == sent {
        assert (lines + [DONE])[|r|-1] == lines[|r|-1];
      } else {
        assert |r| != |sent|;
      }
    }
  }

  /** The `i`th stream misleads, and delivers more than was shown before it. */
  ghost predicate Spoils(cycles: seq<Cycle>, i: nat, log: string)
    requires i < |cycles| && Streams(cycles[i], log)
  {
    Misleads(cycles[i], log) && |Lines(cycles[i])| > Longest(cycles[..i])
  }

  /**
   Whatever the number, lengths and chunking of the streams since the view was last emptied: it shows as many lines as the
   longest stream so far delivered. They are, without gap or duplicate, the first events of the
   log if and only if no stream spoiled them, one that ended early and was the first to get so
   far; and then they are all events, ending in `[DONE]`, once one stream arrived in full.
   */
  lemma {:induction false} Fidelity(log: string, cycles: seq<Cycle>)
    requires Whole(log) && forall c :: c in cycles ==> Streams(c, log)
    ensures |Shown(cycles)| == Longest(cycles)
    ensures Shown(cycles) <= Events(log) <==> forall i :: 0 <= i < |cycles| ==> !Spoils(cycles, i, log)
    ensures Shown(cycles) <= Events(log) && (exists c :: c in cycles && Concat(c.chunks) == Print(Events(log))) ==>
              Shown(cycles) == Events(log)
  {
    hide Received, Print, LinesOf, Streams, Concat, Misleads, Lines;
    if cycles != [] {
      var init, c := cycles[..|cycles|-1], cycles[|cycles|-1];
      assert forall x :: x in cycles ==> x in init || x == c;
      assert forall x :: x in init ==> x in cycles;
      Fidelity(log, init);
      StreamLines(c, log);
      ReshowStep(Events(log), Shown(init), Lines(c), Misleads(c, log));
      forall i | 0 <= i < |init| ensures Spoils(cycles, i, log) <==> Spoils(init, i, log) {
        assert cycles[..i] == init[..i] && cycles[i] == init[i];
      }
      hide Reshow, Spoils;
      LastSpoils(cycles, log);
      if Concat(c.chunks) == Print(Events(log)) {
        AllLines(c, log);
      }
      hide Events;
    }
  }

  lemma LastSpoils(cycles: seq<Cycle>, log: string)
    requires cycles != [] && forall c :: c in cycles ==> Streams(c, log)
    ensures var n := |cycles| - 1;
            Spoils(cycles, n, log) <==> Misleads(cycles[n], log) && |Lines(cycles[n])| > Longest(cycles[..n])
  {
  }

  lemma AllLines(c: Cycle, log: string)
    requires Concat(c.chunks) == Print(Events(log))
    ensures Lines(c) == Events(log)
  {
    EventsPrintable(log);
    ReceivedPrefix(Events(log), Concat(c.chunks));
  }

  /** One more stream, whose lines are the first events unless its last line is wrong. */
  lemma ReshowStep(events: seq<string>, shown: seq<string>, r: seq<string>, wrong: bool)
    requires r <= events <==> !wrong
    requires wrong ==> 0 < |r| < |events| && r[|r|-1] != events[|r|-1]
    ensures |Reshow(shown, r)| == if |shown| < |r| then |r| else |shown|
    ensures Reshow(shown, r) <= events <==> shown <= events && !(wrong && |r| > |shown|)
  {
    var after := Reshow(shown, r);
    assert shown <= after;
    if |r| > |shown| {
      assert forall k :: |shown| <= k < |r| ==> after[k] == r[k];
    }
  }

  // ---------- Streams of a job that is already finished ----------

  lemma {:induction false} FinishedRun(s: State, ms: seq<Move>)
    requires Runs(s, ms) && s.terminal && (s.phase.AtEof? || s.phase == Closed(true) ==> s.seenTerminal)
    ensures var r := RunFrom(s, ms);
            r.content == s.content && (r.phase == Closed(true) ==> r.seenTerminal)
    decreases |ms|
  {
    if ms != [] {
      FinishedRun(Step(s, ms[0]), ms[1..]);
    }
  }

  /** For a job already terminal when streaming begins, no stream can end early. */
  lemma TerminalJobFidelity(log: string, cycles: seq<Cycle>)
    requires Whole(log)
    requires forall c :: c in cycles ==> Possible(c) && c.start == log && c.terminal
    ensures Longest(cycles) <= |Events(log)| && Shown(cycles) == Events(log)[..Longest(cycles)]
    ensures (exists c :: c in cycles && Concat(c.chunks) == Print(Events(log))) ==> Shown(cycles) == Events(log)
  {
    hide Streams, EndedEarly, Possible, Events, Spoils, Shown, Longest, LinesOf, Print, Concat, Whole;
    forall c | c in cycles ensures Streams(c, log) && !EndedEarly(c, log) {
      FinishedStream(c, log);
    }
    Fidelity(log, cycles);
    forall i | 0 <= i < |cycles| ensures !Spoils(cycles, i, log) {
      assert cycles[i] in cycles;
      NoSpoil(cycles, i, log);
    }
  }

  lemma NoSpoil(cycles: seq<Cycle>, i: nat, log: string)
    requires i < |cycles| && Streams(cycles[i], log) && !EndedEarly(cycles[i], log)
    ensures !Spoils(cycles, i, log)
  {
    hide Streams, EndedEarly;
  }

  lemma FinishedStream(c: Cycle, log: string)
    requires Possible(c) && c.start == log && c.terminal
    ensures Streams(c, log) && !EndedEarly(c, log)
  {
    FinishedRun(Opened(log, true), c.ms);
    OpenedInv(log, true);
    TailIsFaithful(Opened(log, true), c.ms);
    assert LinesOf(log[|log|..]) == [];
  }

  // ---------- A stream that ends early, and one that arrives in full after it ----------

  const LOG := "b\n"

  function EarlyCycle(): Cycle {
    Cycle("", false, [Read] + ([Append(LOG)] + ([Settle] + ([CheckStatus(true)] + []))), [Print([DONE])])
  }

  function FullCycle(): Cycle {
    Cycle(LOG, true, [Read] + ([Read] + ([CheckStatus(true)] + [])), [Print(["b", DONE])])
  }

  lemma FullRun()
    ensures var c := FullCycle();
            && Runs(Opened(c.start, c.terminal), c.ms)
            && EndOf(c) == State(LOG, true, 2, ["b", DONE], Closed(true), LOG, true)
  {
    hide LinesOf, TrimRight, RunFrom, Runs;
    var s0 := Opened(LOG, true);
    var s1 := State(LOG, true, 2, ["b"], Reading, "", false);
    var s2 := State(LOG, true, 2, ["b"], AtEof(""), LOG, true);
    var s3 := State(LOG, true, 2, ["b", DONE], Closed(true), LOG, true);
    FirstRead();
    assert Enabled(s1, Read) && Step(s1, Read) == s2 by { assert LOG[2..] == ""; }
    assert Enabled(s2, CheckStatus(true)) && Step(s2, CheckStatus(true)) == s3 by { assert ["b"] + [] + [DONE] == ["b", DONE]; }
    hide Step, Enabled, Opened;
    NoMoves(s3);
    RunCons(s2, CheckStatus(true), []);
    RunCons(s1, Read, [CheckStatus(true)] + []);
    RunCons(s0, Read, [Read] + ([CheckStatus(true)] + []));
  }

  lemma FirstRead()
    ensures var s := Opened(LOG, true);
            Enabled(s, Read) && Step(s, Read) == State(LOG, true, 2, ["b"], Reading, "", false)
  {
    assert LOG[0..] == LOG && LOG[..2] == LOG && "b" + ['\n'] == LOG;
    IndexAfter("b", '\n', "");
    assert LOG + "" == LOG;
    assert TrimRight("b", "\r\n") == "b" && LOG[..1] == "b";
    assert TrimRight(LOG, "\r\n") == "b";
    assert [] + ["b"] == ["b"];
  }

  /**
   The job logs a line and finishes between the last read of the first stream and its status
   query. The second stream arrives in full, and still the line is not shown: its place is taken.
   Shown alone, as after the view was emptied, the second stream is all right.
   */
  lemma LateLineHidden()
    ensures var cycles := [EarlyCycle(), FullCycle()];
            && (forall c :: c in cycles ==> Streams(c, LOG))
            && Lines(FullCycle()) == Events(LOG) == ["b", DONE]
            && Shown(cycles) == [DONE, DONE]
            && Shown([FullCycle()]) == ["b", DONE]
  {
    hide LinesOf, Runs, RunFrom, Received, Print;
    LateLinesAreLost();
    FullRun();
    OneChunk(Print([DONE]));
    OneChunk(Print(["b", DONE]));
    ReceivedPrefix([DONE], Print([DONE]));
    ReceivedPrefix(["b", DONE], Print(["b", DONE]));
    assert ["b"] + [DONE] == ["b", DONE];
    var cycles := [EarlyCycle(), FullCycle()];
    assert cycles[..1] == [EarlyCycle()] && [EarlyCycle()][..0] == [];
    assert Shown([EarlyCycle()]) == [DONE] by { assert [DONE][0..] == [DONE] && [] + [DONE] == [DONE]; }
    assert [FullCycle()][..0] == [] && [] + ["b", DONE][0..] == ["b", DONE];
    assert ["b", DONE][1..] == [DONE] && [DONE] + [DONE] == [DONE, DONE];
  }

  lemma OneChunk(text: string)
    ensures Concat([text]) == text
  {
    assert [text][..0] == [] && "" + text == text;
  }
}
