/**
 The dashboard's side of the log stream: chunks of the response are split incrementally on
 blank lines, and lines already shown by an earlier stream of the same job are skipped.
 */
module SseClient {
  import opened GoStrings

  const FIELD := "data: "
  const BLANK := "\n\n"

  /** How the server prints one event. */
  function Frame(payload: string): string { FIELD + payload + BLANK }

  function Print(events: seq<string>): string {
    if events == [] then "" else Frame(events[0]) + Print(events[1..])
  }

  /** The first position of a blank line, or -1. */
  function FirstBlank(s: string): (i: int)
    ensures -1 <= i && (i >= 0 ==> i + 1 < |s|)
    ensures i >= 0 ==> s[i] == '\n' && s[i+1] == '\n'
    ensures forall k :: 0 <= k < |s| - 1 && (i < 0 || k < i) ==> s[k] != '\n' || s[k+1] != '\n'
  {
    if |s| < 2 then -1
    else if s[0] == '\n' && s[1] == '\n' then 0
    else
      var i := FirstBlank(s[1..]);
      assert forall k :: 1 <= k < |s| ==> s[k] == s[1..][k-1];
      if i < 0 then -1 else i + 1
  }

  /** text.split('\n\n'): leftmost, non-overlapping. */
  function SplitBlank(s: string): (parts: seq<string>)
    ensures |parts| >= 1
    decreases |s|
  {
    var i := FirstBlank(s);
    if i < 0 then [s] else [s[..i]] + SplitBlank(s[i+2..])
  }

  function Last(parts: seq<string>): string
    requires parts != []
  {
    parts[|parts|-1]
  }

  function ButLast(parts: seq<string>): seq<string>
    requires parts != []
  {
    parts[..|parts|-1]
  }

  /** part.replace(/^data: /, '') */
  function Strip(part: string): string { if FIELD <= part then part[|FIELD|..] else part }

  /** The field name is taken off once, and a part without it is left as it is. */
  lemma StripExactly(x: string)
    ensures Frame(x) == "data: " + x + "\n\n" && Strip("data: " + x) == x
    ensures !("data: " <= x) ==> Strip(x) == x
  {
    assert ("data: " + x)[|FIELD|..] == x;
  }

  function JoinBlank(parts: seq<string>): string
    requires parts != []
  {
    if |parts| == 1 then parts[0] else parts[0] + "\n\n" + JoinBlank(parts[1..])
  }

  predicate BlankAt(s: string, k: nat) { k + 1 < |s| && s[k] == '\n' && s[k+1] == '\n' }

  predicate NoBlank(s: string) { forall k :: 0 <= k < |s| ==> !BlankAt(s, k) }

  /** Splitting on blank lines: the parts, joined by them, are the text, and hold none. */
  lemma {:induction false} SplitBlankExactly(s: string)
    ensures JoinBlank(SplitBlank(s)) == s
    ensures forall p :: p in SplitBlank(s) ==> NoBlank(p)
    decreases |s|
  {
    var i := FirstBlank(s);
    if i >= 0 {
      SplitFirst(s, i);
      var head, rest := s[..i], s[i+2..];
      HeadHasNone(s, i);
      SplitBlankExactly(rest);
      JoinBlankCons(head, SplitBlank(rest));
      BlankBetween(s, i);
      hide *;
    } else {
      assert SplitBlank(s) == [s] && NoBlank(s);
      hide SplitBlank;
    }
  }

  lemma HeadHasNone(s: string, i: nat)
    requires i == FirstBlank(s)
    ensures NoBlank(s[..i])
  {
    hide FirstBlank;
    forall k | 0 <= k < i ensures !BlankAt(s[..i], k) {
      assert !BlankAt(s, k);
    }
  }

  lemma JoinBlankCons(head: string, parts: seq<string>)
    requires parts != []
    ensures JoinBlank([head] + parts) == head + "\n\n" + JoinBlank(parts)
  {
    assert ([head] + parts)[1..] == parts;
  }

  lemma BlankBetween(s: string, i: nat)
    requires i + 1 < |s| && s[i] == '\n' && s[i+1] == '\n'
    ensures s == s[..i] + "\n\n" + s[i+2..]
  {
  }

  /** The lines handed on for these parts, empty ones dropped. */
  function Deliver(parts: seq<string>): seq<string> {
    if parts == [] then []
    else
      var line := Strip(parts[|parts|-1]);
      Deliver(parts[..|parts|-1]) + if line != "" then [line] else []
  }

  /** What the whole received text amounts to. */
  function Received(text: string): seq<string> { Deliver(ButLast(SplitBlank(text))) }

  function Concat(chunks: seq<string>): string {
    if chunks == [] then "" else Concat(chunks[..|chunks|-1]) + chunks[|chunks|-1]
  }

  lemma FirstBlankIs(s: string, i: nat)
    requires i + 1 < |s| && s[i] == '\n' && s[i+1] == '\n'
    requires forall k :: 0 <= k < i ==> s[k] != '\n' || s[k+1] != '\n'
    ensures FirstBlank(s) == i
  {
    hide FirstBlank;
    assert FirstBlank(s) < 0 || FirstBlank(s) <= i;
  }

  lemma SplitFirst(s: string, i: nat)
    requires i + 1 < |s| && s[i] == '\n' && s[i+1] == '\n'
    requires forall k :: 0 <= k < i ==> s[k] != '\n' || s[k+1] != '\n'
    ensures SplitBlank(s) == [s[..i]] + SplitBlank(s[i+2..])
  {
    FirstBlankIs(s, i);
  }

  lemma SliceAppend(x: string, y: string, i: nat)
    requires i <= |x|
    ensures (x + y)[..i] == x[..i] && (x + y)[i..] == x[i..] + y
  {
  }

  lemma PartsGrow(head: string, parts: seq<string>, more: seq<string>)
    requires parts != []
    ensures Last([head] + parts) == Last(parts) && ButLast([head] + parts) == [head] + ButLast(parts)
    ensures [head] + (ButLast(parts) + more) == ButLast([head] + parts) + more
  {
  }

  /**
   Carrying the last part over is exact: splitting a text extended by a chunk gives the parts
   handed on so far, then the parts of the carried text extended by the chunk.
   */
  lemma {:induction false} CarryOver(x: string, y: string)
    ensures SplitBlank(x + y) == ButLast(SplitBlank(x)) + SplitBlank(Last(SplitBlank(x)) + y)
    decreases |x|
  {
    var i := FirstBlank(x);
    if i >= 0 {
      var rest := x[i+2..];
      CarryOver(rest, y);
      SplitFirst(x, i);
      SplitFirstMore(x, y, i);
      hide *;
      PartsGrow(x[..i], SplitBlank(rest), SplitBlank(Last(SplitBlank(rest)) + y));
    } else {
      assert SplitBlank(x) == [x];
      hide SplitBlank, FirstBlank;
      assert ButLast([x]) == [] && Last([x]) == x && [] + SplitBlank(x + y) == SplitBlank(x + y);
    }
  }

  /** What follows a text does not move its first blank line. */
  lemma SplitFirstMore(x: string, y: string, i: nat)
    requires i == FirstBlank(x)
    ensures SplitBlank(x + y) == [x[..i]] + SplitBlank(x[i+2..] + y)
  {
    hide FirstBlank, SplitBlank;
    SliceAppend(x, y, i);
    SliceAppend(x, y, i + 2);
    assert forall k :: 0 <= k < |x| ==> (x + y)[k] == x[k];
    SplitFirst(x + y, i);
  }

  lemma {:induction false} DeliverAppend(a: seq<string>, b: seq<string>)
    ensures Deliver(a + b) == Deliver(a) + Deliver(b)
  {
    if b == [] {
      assert a + b == a;
    } else {
      var init := b[..|b|-1];
      DeliverAppend(a, init);
      assert (a + b)[..|a + b|-1] == a + init && (a + b)[|a + b|-1] == b[|b|-1];
      hide Strip;
    }
  }

  /** A line without newlines, printed and followed by anything, is the first part of the text. */
  lemma FrameFirst(payload: string, rest: string)
    requires '\n' !in payload
    ensures SplitBlank(Frame(payload) + rest) == [FIELD + payload] + SplitBlank(rest)
  {
    var body, s := FIELD + payload, Frame(payload) + rest;
    assert forall k :: 0 <= k < |body| ==> s[k] == body[k] && body[k] != '\n';
    assert s[|body|] == '\n' && s[|body|+1] == '\n';
    assert s[..|body|] == body && s[|body|+2..] == rest;
    SplitFirst(s, |body|);
  }

  /** A text that stops inside the first frame has no part to hand on. */
  lemma NoFrame(payload: string, text: string)
    requires '\n' !in payload && text <= Frame(payload) && |text| < |Frame(payload)|
    ensures SplitBlank(text) == [text]
  {
    hide FirstBlank;
    var body := FIELD + payload;
    assert forall k :: 0 <= k < |text| && k < |body| ==> text[k] == Frame(payload)[k] == body[k];
    assert forall k :: 0 <= k < |text| - 1 ==> text[k] != '\n';
    assert FirstBlank(text) < 0;
  }

  predicate Printable(events: seq<string>) {
    forall e :: e in events ==> e != "" && '\n' !in e
  }

  lemma DeliverFirst(payload: string, parts: seq<string>)
    requires payload != ""
    ensures Deliver([FIELD + payload] + parts) == [payload] + Deliver(parts)
  {
    var part := FIELD + payload;
    DeliverAppend([part], parts);
    assert part[|FIELD|..] == payload;
    assert Strip(part) == payload && [part][0] == part;
    assert Deliver([]) == [];
    assert Deliver([part]) == Deliver([part][..0]) + [payload];
  }

  lemma PrefixOf(a: string, b: string, text: string)
    requires text <= a + b
    ensures |text| < |a| ==> text <= a
    ensures |text| >= |a| ==> text == a + text[|a|..] && text[|a|..] <= b
    ensures |text| >= |a| && text == a + b ==> text[|a|..] == b
  {
  }

  /**
   Print/parse round trip, also for an interrupted stream: whatever prefix of the printed
   events arrives, the lines received are a prefix of the events, and all of them when all arrived.
   */
  lemma {:induction false} ReceivedPrefix(events: seq<string>, text: string)
    requires Printable(events) && text <= Print(events)
    ensures |Received(text)| <= |events| && Received(text) == events[..|Received(text)|]
    ensures text == Print(events) ==> Received(text) == events
    decreases |events|
  {
    if events == [] {
      assert SplitBlank("") == [""];
      assert ButLast([""]) == [];
    } else {
      assert Print(events) == Frame(events[0]) + Print(events[1..]) && events[0] in events;
      hide SplitBlank, Deliver, Print, Frame, Strip;
      var payload, frame := events[0], Frame(events[0]);
      PrefixOf(frame, Print(events[1..]), text);
      if |text| < |frame| {
        NoFrame(payload, text);
        NothingReceived(text);
      } else {
        var rest := text[|frame|..];
        assert forall e :: e in events[1..] ==> e in events;
        ReceivedPrefix(events[1..], rest);
        FrameFirst(payload, rest);
        PartsGrow(FIELD + payload, SplitBlank(rest), []);
        DeliverFirst(payload, ButLast(SplitBlank(rest)));
        assert Received(text) == [payload] + Received(rest);
        hide Received;
        ConsPrefix(events, Received(rest));
      }
    }
  }

  lemma ConsPrefix(events: seq<string>, r: seq<string>)
    requires events != [] && |r| < |events| && r == events[1..][..|r|]
    ensures [events[0]] + r == events[..|r|+1]
    ensures r == events[1..] ==> [events[0]] + r == events
  {
  }

  lemma NothingReceived(text: string)
    requires SplitBlank(text) == [text]
    ensures Received(text) == []
  {
    assert ButLast([text]) == [];
  }

  // ---------- The client as it is written ----------

  /** What the view has shown after one more stream that delivered `lines`. */
  function Reshow(taken: seq<string>, lines: seq<string>): seq<string> {
    if |lines| <= |taken| then taken else taken + lines[|taken|..]
  }

  class LogView {
    var lineIndex: nat       // lines of the current stream
    var seenCount: nat       // lines shown so far
    var shown: seq<string>   // the raw lines shown
    ghost var lines: seq<string>
    ghost var before: seq<string>

    /** `before` was shown by earlier streams, `lines` came in the current one. */
    ghost predicate Valid()
      reads this
    {
      && seenCount == |shown| && lineIndex == |lines|
      && shown == Reshow(before, lines)
    }

    constructor ()
      ensures Valid() && shown == [] && lines == []
    {
      lineIndex, seenCount, shown, lines, before := 0, 0, [], [], [];
    }

    /** The job or its status has changed: nothing is shown any more, and nothing counts as seen. */
    method Reset()
      requires Valid()
      modifies this
      ensures Valid() && shown == [] && lines == []
    {
      lineIndex, seenCount, shown, lines, before := 0, 0, [], [], [];
    }

    method BeginStream()
      requires Valid()
      modifies this
      ensures Valid() && lines == [] && shown == before == old(shown)
    {
      lineIndex, lines, before := 0, [], shown;
    }

    /** The callback: skips a line shown by an earlier stream, shows any other. */
    method OnLine(raw: string)
      requires Valid()
      modifies this
      ensures Valid() && lines == old(lines) + [raw] && before == old(before)
    {
      lines := lines + [raw];
      if lineIndex < seenCount {
        lineIndex := lineIndex + 1;
        return;
      }
      lineIndex := lineIndex + 1;
      seenCount := seenCount + 1;
      shown := shown + [raw];
    }
  }

  class LogStream {
    var buffer: string
    ghost var received: string

    /** Handed-on parts and carried buffer are the split of everything received. */
    ghost predicate Valid()
      reads this
    {
      buffer == Last(SplitBlank(received))
    }

    constructor ()
      ensures Valid() && received == ""
    {
      buffer, received := "", "";
    }

    /** One chunk: whole parts are handed on, the rest is kept for the next chunk. */
    method Feed(chunk: string, view: LogView)
      requires Valid() && view.Valid() && view.lines == Received(received)
      modifies this, view
      ensures Valid() && received == old(received) + chunk
      ensures view.Valid() && view.lines == Received(received) && view.before == old(view.before)
    {
      hide SplitBlank, Deliver;
      CarryOver(received, chunk);
      ghost var handed := ButLast(SplitBlank(received));
      var parts := SplitBlank(buffer + chunk);
      FeedParts(handed, parts);
      DeliverAppend(handed, ButLast(parts));
      received := received + chunk;
      buffer := Last(parts);
      Hand(ButLast(parts), view);
    }

    /** Hands the parts on, line by line. */
    method Hand(parts: seq<string>, view: LogView)
      requires view.Valid()
      modifies view
      ensures view.Valid() && view.lines == old(view.lines) + Deliver(parts) && view.before == old(view.before)
    {
      for k := 0 to |parts|
        invariant view.Valid() && view.before == old(view.before)
        invariant view.lines == old(view.lines) + Deliver(parts[..k])
      {
        assert parts[..k+1][..k] == parts[..k];
        var line := Strip(parts[k]);
        if line != "" {
          view.OnLine(line);
        }
      }
      assert parts[..|parts|] == parts;
    }
  }

  /** One stream of the job into the view, ended by the server or cut off after these chunks. */
  method StreamOnce(view: LogView, chunks: seq<string>)
    requires view.Valid()
    modifies view
    ensures view.Valid() && view.shown == Reshow(old(view.shown), Received(Concat(chunks)))
  {
    view.BeginStream();
    var stream := new LogStream();
    NothingReceived("");
    for k := 0 to |chunks|
      invariant stream.Valid() && fresh(stream) && stream.received == Concat(chunks[..k])
      invariant view.Valid() && view.lines == Received(stream.received) && view.before == old(view.shown)
    {
      assert chunks[..k+1][..k] == chunks[..k];
      stream.Feed(chunks[k], view);
    }
    assert chunks[..|chunks|] == chunks;
  }

  /** What is shown after these streams, each given by its chunks, from an empty view. */
  function ShowAll(streams: seq<seq<string>>): seq<string> {
    if streams == [] then []
    else Reshow(ShowAll(streams[..|streams|-1]), Received(Concat(streams[|streams|-1])))
  }

  /**
   The effect that runs when the job or its status has changed: it empties the view and streams
   once, and for a running job again and again, `streams` being what arrives until it is cleaned up.
   */
  method Effect(view: LogView, running: bool, streams: seq<seq<string>>)
    requires view.Valid() && streams != []
    modifies view
    ensures view.Valid() && view.shown == ShowAll(if running then streams else streams[..1])
  {
    view.Reset();
    StreamOnce(view, streams[0]);
    assert streams[..1][..0] == [] && streams[..1] == [streams[0]];
    var k := 1;
    while running && k < |streams|
      invariant 1 <= k <= |streams| && (!running ==> k == 1)
      invariant view.Valid() && view.shown == ShowAll(streams[..k])
    {
      assert streams[..k+1][..k] == streams[..k];
      StreamOnce(view, streams[k]);
      k := k + 1;
    }
    assert running ==> streams[..k] == streams;
  }

  lemma FeedParts(handed: seq<string>, parts: seq<string>)
    requires parts != []
    ensures Last(handed + parts) == Last(parts) && ButLast(handed + parts) == handed + ButLast(parts)
  {
  }
}
