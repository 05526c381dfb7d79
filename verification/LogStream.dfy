/** The log stream handler as it is written, with the executor interfering between its actions. */
module LogStream {
  import opened GoStrings
  import opened LogTail

  lemma {:induction false} RunsAppend(s: State, a: seq<Move>, b: seq<Move>)
    requires Runs(s, a) && Runs(RunFrom(s, a), b)
    ensures Runs(s, a + b) && RunFrom(s, a + b) == RunFrom(RunFrom(s, a), b)
    decreases |a|
  {
    if a == [] {
      assert a + b == b;
    } else {
      RunsAppend(Step(s, a[0]), a[1..], b);
      assert (a + b)[1..] == a[1..] + b;
    }
  }

  /** Of whole lines the handler never reads a part. */
  lemma AtEofPartial(s: State)
    requires Inv(s)
    ensures s.phase.AtEof? ==> s.phase.partial == ""
    ensures s.phase.Reading? || s.phase.AtEof? ==> s.sent == LinesOf(s.content[..s.pos])
    ensures s.phase.AtEof? ==> s.content[..s.pos] == s.seen
  {
  }

  /** From `from` to `to` is the next line with its newline, or, if there is none, all that is left. */
  predicate TakesLine(content: string, from: nat, to: nat, complete: bool) {
    && from <= to <= |content|
    && if complete then from < to && content[to-1] == '\n' && '\n' !in content[from..to-1]
       else to == |content| && '\n' !in content[from..]
  }

  /** A read takes the next line, up to its newline, or finds that there is none. */
  lemma ReadMove(s: State)
    requires s.phase.Reading? && s.pos <= |s.content|
    ensures Enabled(s, Read)
    ensures var rest := s.content[s.pos..];
            var i := Index(rest, '\n');
            var line := TrimRight(rest[..i+1], "\r\n");
            if i >= 0 then
              && TakesLine(s.content, s.pos, s.pos + i + 1, true)
              && Step(s, Read) == s.(pos := s.pos + i + 1, sent := s.sent + if line == "" then [] else [line])
            else
              && TakesLine(s.content, s.pos, |s.content|, false)
              && Step(s, Read) == s.(pos := |s.content|, phase := AtEof(rest), seen := s.content, seenTerminal := s.terminal)
  {
    hide Index, TrimRight, TakesLine;
    LineAt(s.content, s.pos);
  }

  lemma LineAt(content: string, pos: nat)
    requires pos <= |content|
    ensures var i := Index(content[pos..], '\n');
            if i >= 0 then pos + i + 1 <= |content| && TakesLine(content, pos, pos + i + 1, true)
            else TakesLine(content, pos, |content|, false)
  {
    hide Index;
    var i := Index(content[pos..], '\n');
    if i >= 0 {
      assert content[pos..pos+i] == content[pos..][..i];
    }
  }

  class Stream {
    var content: string       // the log file
    var terminal: bool        // the job's row
    var pos: nat              // the handler's reader
    var sent: seq<string>     // the events written to the response
    var toCome: nat           // how many more lines the executor may log
    var patience: nat         // how many more turns the client may stay
    var gone: bool            // the client has left
    ghost var answers: seq<bool>  // whether each status query was answered
    ghost var state: State

    ghost predicate Valid()
      reads this
    {
      && Inv(state) && state.content == content && state.terminal == terminal
      && state.pos == pos <= |content| && state.sent == sent
    }

    /** The moves so far lead from `s` to where the stream is now. */
    ghost predicate Ran(s: State, ms: seq<Move>)
      reads this
    {
      Runs(s, ms) && RunFrom(s, ms) == state
    }

    constructor (content: string, terminal: bool, toCome: nat, patience: nat)
      requires Whole(content)
      ensures Valid() && state == Opened(content, terminal) && !gone && answers == []
    {
      this.content, this.terminal, pos, sent := content, terminal, 0, [];
      this.toCome, this.patience, gone, answers := toCome, patience, false, [];
      state := Opened(content, terminal);
      new;
      OpenedInv(content, terminal);
    }

    /** Steps of the executor: it logs whole lines, and then may finish the job. */
    method Others(ghost s: State, ghost ms0: seq<Move>) returns (ghost ms: seq<Move>)
      requires Valid() && Ran(s, ms0)
      modifies `content, `terminal, `toCome, `state
      ensures Valid() && Ran(s, ms) && ms0 <= ms && forall m :: m in ms[|ms0|..] ==> WriterMove(m)
      ensures state.phase == old(state.phase)
      ensures content[..pos] == old(content[..pos]) && old(content) <= content && (old(terminal) ==> terminal)
      ensures toCome < old(toCome) || (toCome == old(toCome) && content == old(content))
    {
      hide Inv, Runs, RunFrom;
      ms := ms0;
      var lines: int := *;
      for k := 0 to (if lines < 0 then 0 else lines)
        invariant Valid() && Ran(s, ms) && ms0 <= ms && forall m :: m in ms[|ms0|..] ==> WriterMove(m)
        invariant state.phase == old(state.phase)
        invariant old(content) <= content && terminal == old(terminal)
        invariant toCome < old(toCome) || (toCome == old(toCome) && content == old(content))
      {
        var text: string := *;
        if !terminal && text != "" && Whole(text) && toCome > 0 {
          ms := Take(Append(text), s, ms);
          content, toCome := content + text, toCome - 1;
        }
      }
      var settles: bool := *;
      if settles && !terminal {
        ms := Take(Settle, s, ms);
        terminal := true;
      }
    }

    /** The store's answer to a status query, if it gives one. */
    method Query() returns (answered: bool)
      modifies `answers
      ensures answers == old(answers) + [answered]
    {
      answered := *;
      answers := answers + [answered];
    }

    /** Waits a little; true if the client has left meanwhile. */
    method ClientGone() returns (left: bool)
      modifies `patience, `gone
      ensures left ==> gone
      ensures !left ==> gone == old(gone) && patience < old(patience)
    {
      left := *;
      left := left || patience == 0;
      if left {
        gone := true;
      } else {
        patience := patience - 1;
      }
    }

    ghost method Take(m: Move, s: State, ms0: seq<Move>) returns (ms: seq<Move>)
      requires Inv(state) && Ran(s, ms0) && Enabled(state, m)
      modifies `state
      ensures Inv(state) && state == Step(old(state), m) && Ran(s, ms) && ms == ms0 + [m]
    {
      InvStep(state, m);
      NoMoves(Step(state, m));
      RunCons(state, m, []);
      assert [m] + [] == [m];
      RunsAppend(s, ms0, [m]);
      state := Step(state, m);
      ms := ms0 + [m];
    }

    /** Streams until the job is finished or the client is gone, and for no other reason ends. */
    method Tail() returns (done: bool, ghost ms: seq<Move>)
      requires Valid() && state.phase.Reading? && !gone
      modifies this
      ensures Valid() && Runs(old(state), ms) && RunFrom(old(state), ms) == state
      ensures if done then terminal && !gone && answers != [] && answers[|answers|-1] else gone
      ensures pos <= |content| && LinesOf(content) == LinesOf(content[..pos]) + LinesOf(content[pos..])
      ensures sent == LinesOf(content[..pos]) + if done then ["[DONE]"] else []
      ensures done && state.seenTerminal ==> sent == LinesOf(content) + ["[DONE]"]
    {
      done, ms := TailLoop();
      TailIsFaithful(old(state), ms);
    }

    method TailLoop() returns (done: bool, ghost ms: seq<Move>)
      requires Valid() && state.phase.Reading? && !gone
      modifies this
      ensures Valid() && Runs(old(state), ms) && RunFrom(old(state), ms) == state
      ensures state.phase == Closed(done)
      ensures if done then terminal && !gone && answers != [] && answers[|answers|-1] else gone
    {
      hide Inv, Runs, RunFrom, Enabled, Step, TakesLine;
      ghost var s := state;
      NoMoves(s);
      ms := [];
      while true
        invariant Valid() && state.phase.Reading? && Ran(s, ms) && !gone
        decreases patience, toCome, |content| - pos
      {
        var ended;
        ended, done, ms := Turn(s, ms);
        if ended {
          return;
        }
      }
    }

    /** One turn of the loop: a line, or the end of the file and then the status. */
    method Turn(ghost s: State, ghost ms0: seq<Move>) returns (ended: bool, done: bool, ghost ms: seq<Move>)
      requires Valid() && state.phase.Reading? && Ran(s, ms0) && !gone
      modifies this
      ensures Valid() && Ran(s, ms) && state.phase == if ended then Closed(done) else Reading
      ensures ended ==> if done then terminal && !gone && answers != [] && answers[|answers|-1] else gone
      ensures !ended ==>
                && !gone
                && (patience < old(patience)
                    || (patience == old(patience)
                        && (toCome < old(toCome)
                            || (toCome == old(toCome) && |content| - pos < old(|content| - pos)))))
    {
      hide Inv, Runs, RunFrom, LinesOf, TakesLine;
      var complete, partial;
      ms := Others(s, ms0);
      complete, partial, ms := ReadLine(s, ms);
      if complete {
        return false, false, ms;
      }
      ms := Others(s, ms);
      ghost var readable;
      done, readable, ms := CheckStatusAtEof(partial, s, ms);
      if done {
        return true, true, ms;
      }
      var left := ClientGone();
      if left {
        ms := Take(Disconnect, s, ms);
        return true, false, ms;
      }
      ms := Take(Resume, s, ms);
      ended := false;
    }

    /** Reads up to the next newline and sends the line, or hits the end of the file. */
    method ReadLine(ghost s: State, ghost ms0: seq<Move>)
      returns (complete: bool, partial: string, ghost ms: seq<Move>)
      requires Valid() && state.phase.Reading? && Ran(s, ms0)
      modifies `pos, `sent, `state
      ensures Valid() && Ran(s, ms) && ms == ms0 + [Read]
      ensures state.phase == if complete then Reading else AtEof(partial)
      ensures content == old(content) && terminal == old(terminal)
      ensures TakesLine(content, old(pos), pos, complete) && (!complete ==> sent == old(sent))
      ensures complete ==> old(pos) < pos
      ensures sent == LinesOf(content[..pos])
    {
      hide LinesOf, Inv, Runs, RunFrom, Step, Enabled, Index, TrimRight, TakesLine, Whole;
      var rest := content[pos..];
      var i := Index(rest, '\n');
      ReadMove(state);
      ms := Take(Read, s, ms0);
      AtEofPartial(state);
      if i >= 0 {
        var line := TrimRight(rest[..i+1], "\r\n");
        pos := pos + i + 1;
        if line != "" {
          sent := sent + [line];
        }
        assert sent == state.sent;
        return true, "", ms;
      }
      pos := |content|;
      return false, rest, ms;
    }

    /** At the end of the file: asks whether the job is finished, and if so ends the stream. */
    method CheckStatusAtEof(partial: string, ghost s: State, ghost ms0: seq<Move>)
      returns (done: bool, ghost readable: bool, ghost ms: seq<Move>)
      requires Valid() && state.phase == AtEof(partial) && Ran(s, ms0)
      modifies `sent, `answers, `state
      ensures Valid() && Ran(s, ms) && ms == ms0 + [CheckStatus(readable)]
      ensures done <==> readable && terminal
      ensures answers == old(answers) + [readable]
      ensures state.phase == if done then Closed(true) else Waiting
      ensures sent == old(sent) +
                if !done then [] else if partial == "" then ["[DONE]"] else [TrimRight(partial, "\r\n")] + ["[DONE]"]
      ensures content == old(content) && terminal == old(terminal) && pos == old(pos)
    {
      hide LinesOf, Inv, Runs, RunFrom;
      var answered := Query();
      readable := answered;
      ms := Take(CheckStatus(readable), s, ms0);
      if !answered || !terminal {
        return false, readable, ms;
      }
      if partial != "" {
        sent := sent + [TrimRight(partial, "\r\n")];
      }
      sent := sent + [DONE];
      assert sent == state.sent;
      done := true;
    }
  }
}
