/**
 The log stream of one job while the executor may still write to the log: the handler reads
 line by line, and at the end of the file asks the store whether the job is finished.
 */
module LogTail {
  import opened GoStrings

  const DONE := "[DONE]"

  /** What the handler sends for one line it read. */
  function Emit(line: string): seq<string> {
    var trimmed := TrimRight(line, "\r\n");
    if trimmed == "" then [] else [trimmed]
  }

  /** The non-empty complete lines of a log, trimmed. */
  function LinesOf(content: string): seq<string>
    decreases |content|
  {
    var i := Index(content, '\n');
    if i < 0 then [] else Emit(content[..i+1]) + LinesOf(content[i+1..])
  }

  /** The executor appends lines with their newline, each in one write. */
  predicate Whole(text: string) { text == "" || text[|text|-1] == '\n' }

  datatype Phase =
    | Reading
    | AtEof(partial: string)
    | Waiting
    | Closed(done: bool)

  /**
   The log and whether the job's row is terminal, shared with the executor; the handler's
   reader position, what it sent, and where it stands. `seen` and `seenTerminal` are history:
   the log, and the row, when the handler last hit the end of the file.
   */
  datatype State = State(
    content: string,
    terminal: bool,
    pos: nat,
    sent: seq<string>,
    phase: Phase,
    seen: string,
    seenTerminal: bool)

  datatype Move =
    | Append(text: string)  // the executor logs
    | Settle                // the row becomes terminal; the executor logs nothing after that
    | Read
    | CheckStatus(readable: bool)  // the store answers, or the query fails
    | Resume
    | Disconnect            // the client goes away, or a read fails

  predicate WriterMove(m: Move) { m.Append? || m.Settle? }

  predicate Enabled(s: State, m: Move) {
    match m
    case Append(text) => !s.terminal && text != "" && Whole(text)
    case Settle => !s.terminal
    case Read => s.phase.Reading? && s.pos <= |s.content|
    case CheckStatus(_) => s.phase.AtEof?
    case Resume => s.phase.Waiting?
    case Disconnect => !s.phase.Closed?
  }

  function Step(s: State, m: Move): State
    requires Enabled(s, m)
  {
    match m
    case Append(text) => s.(content := s.content + text)
    case Settle => s.(terminal := true)
    case Read =>
      var rest := s.content[s.pos..];
      var i := Index(rest, '\n');
      if i >= 0 then s.(pos := s.pos + i + 1, sent := s.sent + Emit(rest[..i+1]))
      else s.(pos := |s.content|, phase := AtEof(rest), seen := s.content, seenTerminal := s.terminal)
    case CheckStatus(readable) =>
      if !readable || !s.terminal then s.(phase := Waiting)
      else
        var flushed := if s.phase.partial == "" then [] else [TrimRight(s.phase.partial, "\r\n")];
        s.(sent := s.sent + flushed + [DONE], phase := Closed(true))
    case Resume => s.(phase := Reading)
    case Disconnect => s.(phase := Closed(false))
  }

  predicate Runs(s: State, ms: seq<Move>)
    decreases |ms|
  {
    ms == [] || (Enabled(s, ms[0]) && Runs(Step(s, ms[0]), ms[1..]))
  }

  function RunFrom(s: State, ms: seq<Move>): State
    requires Runs(s, ms)
    decreases |ms|
  {
    if ms == [] then s else RunFrom(Step(s, ms[0]), ms[1..])
  }

  /** A handler that has just opened the log. */
  function Opened(content: string, terminal: bool): State {
    State(content, terminal, 0, [], Reading, "", false)
  }

  lemma LinesHead(head: string, rest: string)
    requires '\n' !in head
    ensures LinesOf(head + ['\n'] + rest) == Emit(head + ['\n']) + LinesOf(rest)
  {
    var s := head + ['\n'] + rest;
    IndexAfter(head, '\n', rest);
    assert s[..|head|+1] == head + ['\n'] && s[|head|+1..] == rest;
  }

  /** Whole lines are read the same whatever is appended after them. */
  lemma {:induction false} LinesAppend(a: string, b: string)
    requires Whole(a)
    ensures LinesOf(a + b) == LinesOf(a) + LinesOf(b)
    decreases |a|
  {
    if a == "" {
      assert a + b == b;
    } else {
      var i := Index(a, '\n');
      var head, rest := a[..i], a[i+1..];
      LinesAppend(rest, b);
      LinesHead(head, rest);
      LinesHead(head, rest + b);
      CutAt(a, i);
      hide *;
      Assoc(head + ['\n'], rest, b);
      Assoc(Emit(head + ['\n']), LinesOf(rest), LinesOf(b));
    }
  }

  lemma {:induction false} LinesPrintable(content: string)
    ensures forall line :: line in LinesOf(content) ==> line != "" && '\n' !in line
    decreases |content|
  {
    var i := Index(content, '\n');
    if i >= 0 {
      LinesPrintable(content[i+1..]);
      EmitPrintable(content, i);
      hide Emit, Index;
    }
  }

  lemma EmitPrintable(content: string, i: nat)
    requires i < |content| && content[i] == '\n' && '\n' !in content[..i]
    ensures forall line :: line in Emit(content[..i+1]) ==> line != "" && '\n' !in line
  {
    var line, trimmed := content[..i+1], TrimRight(content[..i+1], "\r\n");
    hide TrimRight;
    assert |trimmed| == i + 1 ==> trimmed[i] == line[i] == '\n' && trimmed[i] in "\r\n" by { assert "\r\n"[1] == '\n'; }
    assert forall k :: 0 <= k < |trimmed| ==> trimmed[k] == line[k] && line[k] == content[..i][k];
  }

  /** What is sent for complete raw lines, given without their newlines. */
  function Printed(raw: seq<string>): seq<string> {
    if raw == [] then []
    else
      var line := TrimRight(raw[0], "\r");
      (if line == "" then [] else [line]) + Printed(raw[1..])
  }

  lemma {:induction false} TrimLine(p: string)
    requires '\n' !in p
    ensures TrimRight(p, "\r\n") == TrimRight(p, "\r")
  {
    if p != "" && p[|p|-1] == '\r' {
      assert "\r\n"[0] == '\r' && "\r"[0] == '\r';
      assert forall c :: c in p[..|p|-1] ==> c in p;
      TrimLine(p[..|p|-1]);
    } else if p != "" {
      assert p[|p|-1] in p;
      assert forall c :: c in "\r\n" ==> c == '\r' || c == '\n';
    }
  }

  lemma EmitIs(p: string)
    requires '\n' !in p
    ensures Emit(p + ['\n']) == Printed([p])
  {
    assert (p + ['\n'])[..|p|] == p && "\r\n"[1] == '\n';
    TrimLine(p);
    assert [p][1..] == [];
    assert Printed([]) == [];
  }

  lemma PrintedCons(head: string, tail: seq<string>)
    ensures Printed([head] + tail) == Printed([head]) + Printed(tail)
  {
    assert ([head] + tail)[1..] == tail && [head][1..] == [];
    assert Printed([]) == [];
    hide TrimRight;
  }

  lemma ButLastOf(head: string, tail: seq<string>)
    requires tail != []
    ensures ([head] + tail)[..|[head] + tail|-1] == [head] + tail[..|tail|-1]
  {
  }

  /** The lines of a log are what is between its newlines, without trailing returns, if not empty. */
  lemma {:induction false} LinesExactly(content: string)
    ensures var parts := Split(content, '\n'); LinesOf(content) == Printed(parts[..|parts|-1])
    decreases |content|
  {
    var i := Index(content, '\n');
    if i < 0 {
      NoLine(content);
    } else {
      hide *;
      FirstLine(content, i);
      var head, rest := content[..i], content[i+1..];
      LinesExactly(rest);
      EmitIs(head);
      var tail := Split(rest, '\n');
      ButLastOf(head, tail);
      PrintedCons(head, tail[..|tail|-1]);
    }
  }

  lemma NoLine(content: string)
    requires Index(content, '\n') < 0
    ensures Split(content, '\n') == [content] && [content][..0] == [] && LinesOf(content) == Printed([]) == []
  {
  }

  lemma FirstLine(content: string, i: nat)
    requires i == Index(content, '\n')
    ensures i < |content| && '\n' !in content[..i]
    ensures Split(content, '\n') == [content[..i]] + Split(content[i+1..], '\n')
    ensures LinesOf(content) == Emit(content[..i] + ['\n']) + LinesOf(content[i+1..])
  {
    hide LinesOf, Emit, Split;
    CutAt(content, i);
    LinesHead(content[..i], content[i+1..]);
    SplitHead(content[..i], '\n', content[i+1..]);
  }

  /** What has been sent when these lines have been and the handler is in `phase`. */
  function Sent(lines: seq<string>, phase: Phase): seq<string> {
    if phase == Closed(true) then lines + [DONE] else lines
  }

  ghost predicate Inv(s: State) {
    && Whole(s.content) && s.pos <= |s.content| && Whole(s.content[..s.pos])
    && s.sent == Sent(LinesOf(s.content[..s.pos]), s.phase)
    && (s.phase.AtEof? || s.phase == Closed(true) ==> s.seen == s.content[..s.pos])
    && (s.phase.AtEof? ==> s.phase.partial == "")
    && (s.phase == Closed(true) ==> s.terminal)
    && (s.seenTerminal ==> s.terminal && s.seen == s.content)
  }

  lemma OneLine(head: string)
    requires '\n' !in head
    ensures LinesOf(head + ['\n']) == Emit(head + ['\n'])
  {
    var line := head + ['\n'];
    assert line[..|head|] == head;
    IndexIs(line, '\n', |head|);
    assert line[..|head|+1] == line && line[|head|+1..] == "" && LinesOf("") == [];
  }

  lemma WholeAppend(a: string, b: string)
    requires b != "" && Whole(b)
    ensures Whole(a + b)
  {
  }

  /** The next complete line extends what was read by itself. */
  lemma NextLine(content: string, pos: nat)
    requires pos <= |content| && Whole(content[..pos]) && Index(content[pos..], '\n') >= 0
    ensures var rest := content[pos..]; var i := Index(rest, '\n');
            && Whole(content[..pos+i+1])
            && LinesOf(content[..pos+i+1]) == LinesOf(content[..pos]) + Emit(rest[..i+1])
  {
    hide LinesOf, Emit, Index;
    var rest := content[pos..];
    var i := Index(rest, '\n');
    TakeOne(rest, i);
    TakeMore(content, pos, i + 1);
    OneLine(rest[..i]);
    LinesAppend(content[..pos], rest[..i] + ['\n']);
    WholeAppend(content[..pos], rest[..i] + ['\n']);
  }

  lemma NothingLeft(content: string, pos: nat)
    requires pos <= |content| && Whole(content) && '\n' !in content[pos..]
    ensures content[pos..] == "" && pos == |content| && content[..pos] == content
  {
    assert forall k :: pos <= k < |content| ==> content[pos..][k-pos] == content[k];
  }

  lemma ReadStep(s: State)
    requires Inv(s) && Enabled(s, Read)
    ensures Inv(Step(s, Read))
  {
    hide LinesOf, Emit, Index, Whole;
    if Index(s.content[s.pos..], '\n') < 0 {
      NothingLeft(s.content, s.pos);
    } else {
      NextLine(s.content, s.pos);
    }
  }

  lemma InvStep(s: State, m: Move)
    requires Inv(s) && Enabled(s, m)
    ensures Inv(Step(s, m))
  {
    hide LinesOf, Emit, TrimRight, Index;
    if m.Read? {
      ReadStep(s);
    } else if m.Append? {
      assert (s.content + m.text)[..s.pos] == s.content[..s.pos];
    }
  }

  /**
   With the executor writing concurrently in any interleaving: what was sent is an in-order,
   gap-free prefix of the log's lines, followed by `[DONE]` once, at the end, if the handler
   finished. If the row was terminal when the end of the file was hit, the whole log was sent;
   in general it was sent in full exactly if nothing printable was logged after that read.
   */
  lemma {:induction false} TailIsFaithful(s: State, ms: seq<Move>)
    requires Inv(s) && Runs(s, ms)
    ensures var r := RunFrom(s, ms);
            && Inv(r) && r.pos <= |r.content|
            && LinesOf(r.content) == LinesOf(r.content[..r.pos]) + LinesOf(r.content[r.pos..])
            && r.sent == Sent(LinesOf(r.content[..r.pos]), r.phase)
            && (r.phase == Closed(true) && r.seenTerminal ==> r.sent == LinesOf(r.content) + [DONE])
            && (r.phase == Closed(true) ==>
                  (r.sent == LinesOf(r.content) + [DONE] <==> LinesOf(r.content[|r.seen|..]) == []))
    decreases |ms|
  {
    if ms == [] {
      assert s.content == s.content[..s.pos] + s.content[s.pos..];
      LinesAppend(s.content[..s.pos], s.content[s.pos..]);
      if s.phase == Closed(true) {
        var before, after := LinesOf(s.content[..s.pos]), LinesOf(s.content[s.pos..]);
        assert |before + [DONE]| == |before + after + [DONE]| ==> after == [];
        assert after == [] ==> before + after == before;
      }
    } else {
      InvStep(s, ms[0]);
      TailIsFaithful(Step(s, ms[0]), ms[1..]);
    }
  }

  lemma OpenedInv(content: string, terminal: bool)
    requires Whole(content)
    ensures Inv(Opened(content, terminal))
  {
  }

  lemma RunCons(s: State, m: Move, ms: seq<Move>)
    requires Enabled(s, m) && Runs(Step(s, m), ms)
    ensures Runs(s, [m] + ms) && RunFrom(s, [m] + ms) == RunFrom(Step(s, m), ms)
  {
    assert ([m] + ms)[1..] == ms;
  }

  /** The handler hits the end of an empty log; then the executor logs a line and finishes the job. */
  function Race(): seq<State> {
    var s1 := Step(Opened("", false), Read);
    var s2 := s1.(content := "b\n");
    var s3 := s2.(terminal := true);
    [Opened("", false), s1, s2, s3, s3.(sent := [DONE], phase := Closed(true))]
  }

  lemma RaceSteps()
    ensures var r := Race();
            && Enabled(r[0], Read) && Step(r[0], Read) == r[1]
            && Enabled(r[1], Append("b\n")) && Step(r[1], Append("b\n")) == r[2]
            && Enabled(r[2], Settle) && Step(r[2], Settle) == r[3]
            && Enabled(r[3], CheckStatus(true)) && Step(r[3], CheckStatus(true)) == r[4]
            && r[4] == State("b\n", true, 0, [DONE], Closed(true), "", false)
  {
    hide LinesOf, Emit, TrimRight;
    assert "" + "b\n" == "b\n" && [] + [] + [DONE] == [DONE];
  }

  /** Lines logged between the last read and the status check are lost: the stream ends without them. */
  lemma LateLinesAreLost()
    ensures var ms := [Read] + ([Append("b\n")] + ([Settle] + ([CheckStatus(true)] + [])));
            && Runs(Opened("", false), ms)
            && RunFrom(Opened("", false), ms) == State("b\n", true, 0, [DONE], Closed(true), "", false)
            && LinesOf("b\n") == ["b"]
  {
    OneLineB();
    hide LinesOf, Emit, RunFrom, Runs, Step, Enabled;
    RaceSteps();
    var r := Race();
    NoMoves(r[4]);
    RunCons(r[3], CheckStatus(true), []);
    RunCons(r[2], Settle, [CheckStatus(true)] + []);
    RunCons(r[1], Append("b\n"), [Settle] + ([CheckStatus(true)] + []));
    RunCons(r[0], Read, [Append("b\n")] + ([Settle] + ([CheckStatus(true)] + [])));
  }

  lemma OneLineB()
    ensures LinesOf("b\n") == ["b"]
  {
    assert TrimRight("b" + ['\n'], "\r\n") == "b" && "b" + ['\n'] == "b\n";
    OneLine("b");
  }

  lemma NoMoves(s: State)
    ensures Runs(s, []) && RunFrom(s, []) == s
  {
  }
}
