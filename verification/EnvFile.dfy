/** Merging one variable into the content of a .env file. */
module EnvFile {
  import opened Options
  import opened GoStrings

  function Assignment(key: string, value: string): string { key + ['='] + value }

  /** The last line that assigns `key`, or -1. */
  function LastMatch(lines: seq<string>, key: string): (i: int)
    ensures -1 <= i < |lines|
    ensures i >= 0 ==> HasPrefix(lines[i], key + ['='])
    ensures forall k :: i < k < |lines| ==> !HasPrefix(lines[k], key + ['='])
  {
    if lines == [] then -1
    else if HasPrefix(lines[|lines|-1], key + ['=']) then |lines| - 1
    else LastMatch(lines[..|lines|-1], key)
  }

  /** How the file is read: the last assignment of a key wins. */
  function Lookup(content: string, key: string): Option<string> { LookupIn(Split(content, '\n'), key) }

  function LookupIn(lines: seq<string>, key: string): Option<string> {
    var i := LastMatch(lines, key);
    if i < 0 then None else Some(lines[i][|key|+1..])
  }

  /** The content with `key` set to `value`. */
  function SetEnv(content: string, key: string, value: string): string {
    var newLine := Assignment(key, value);
    var lines := Split(content, '\n');
    var i := LastMatch(lines, key);
    if i >= 0 then Join(lines[i := newLine], '\n')
    else if content == "" then newLine
    else if content[|content|-1] == '\n' then content + newLine + ['\n']
    else content + ['\n'] + newLine
  }

  /** The lines of the content with `newLine` set for `key`. */
  function SetLines(lines: seq<string>, key: string, newLine: string): seq<string>
    requires lines != []
  {
    var i := LastMatch(lines, key);
    if i >= 0 then lines[i := newLine]
    else if lines[|lines|-1] == "" then
      if |lines| == 1 then [newLine] else lines[..|lines|-1] + [newLine, ""]
    else lines + [newLine]
  }

  predicate Plain(s: string) { '\n' !in s }

  predicate Key(s: string) { '\n' !in s && '=' !in s }

  lemma AssignmentPlain(key: string, value: string)
    requires Key(key) && Plain(value)
    ensures Plain(Assignment(key, value)) && Assignment(key, value) != "" && Split(Assignment(key, value), '\n') == [Assignment(key, value)]
  {
  }

  lemma LastMatchIs(lines: seq<string>, key: string, i: nat)
    requires i < |lines| && HasPrefix(lines[i], key + ['='])
    requires forall k :: i < k < |lines| ==> !HasPrefix(lines[k], key + ['='])
    ensures LastMatch(lines, key) == i
  {
    hide LastMatch;
    var j := LastMatch(lines, key);
    assert j >= i;
  }

  lemma SplitNewline(body: string)
    ensures Split(body + ['\n'], '\n') == Split(body, '\n') + [""]
  {
    SplitAppend(body, '\n', "");
    assert body + ['\n'] + "" == body + ['\n'];
    assert Split("", '\n') == [""];
  }

  lemma SplitAround(head: string, tail: string)
    requires '\n' !in tail
    ensures var lines := Split(head + ['\n'] + tail, '\n'); lines[|lines|-1] == tail && |lines| > 1
  {
    hide Split;
    SplitAppend(head, '\n', tail);
    SplitNone(tail, '\n');
  }

  lemma SplitAtLast(s: string)
    ensures var j, lines := LastIndex(s, '\n'), Split(s, '\n');
            lines[|lines|-1] == s[j+1..] && (j >= 0 ==> |lines| > 1)
  {
    hide Split, LastIndex;
    var j := LastIndex(s, '\n');
    if j >= 0 {
      SplitAround(s[..j], s[j+1..]);
      CutAt(s, j);
    } else {
      SplitNone(s, '\n');
    }
  }

  lemma LastLine(s: string)
    requires s != ""
    ensures var lines := Split(s, '\n'); s[|s|-1] == '\n' <==> lines[|lines|-1] == ""
    ensures s[|s|-1] == '\n' ==> |Split(s, '\n')| > 1
  {
    SplitAtLast(s);
    var j := LastIndex(s, '\n');
    hide Split, LastIndex;
    assert forall k :: j < k < |s| ==> s[k] == s[j+1..][k-j-1];
  }

  /** What SetEnv does to the file is what SetLines does to its lines. */
  lemma SetEnvLines(content: string, key: string, value: string)
    requires Key(key) && Plain(value)
    ensures Split(SetEnv(content, key, value), '\n') == SetLines(Split(content, '\n'), key, Assignment(key, value))
  {
    var lines, newLine := Split(content, '\n'), Assignment(key, value);
    AssignmentPlain(key, value);
    var i := LastMatch(lines, key);
    SplitPartsFree(content, '\n');
    if i >= 0 {
      hide LastMatch, Split, Join;
      SplitJoin(lines[i := newLine], '\n');
    } else if content == "" {
    } else {
      LastLine(content);
      hide LastMatch;
      if content[|content|-1] == '\n' {
        EndsInBlank(content, newLine);
      } else {
        SplitAppend(content, '\n', newLine);
      }
    }
  }

  lemma EndsInBlank(content: string, newLine: string)
    requires content != "" && content[|content|-1] == '\n' && Plain(newLine)
    ensures var lines := Split(content, '\n');
            |lines| > 1 && Split(content + newLine + ['\n'], '\n') == lines[..|lines|-1] + [newLine, ""]
  {
    hide Split;
    var body := content[..|content|-1];
    TakeOne(content, |content| - 1);
    assert content[..|content|] == content;
    SplitNone(newLine, '\n');
    SplitNewline(body);
    SplitAppend(body, '\n', newLine);
    SplitNewline(content + newLine);
    hide *;
    AfterLast(Split(body, '\n'), newLine);
  }

  lemma AfterLast(parts: seq<string>, line: string)
    requires parts != []
    ensures |parts + [""]| > 1 && (parts + [""])[..|parts + [""]|-1] == parts
    ensures parts + [line] + [""] == parts + [line, ""]
  {
  }

  lemma OtherKey(key: string, other: string, rest: string)
    requires Key(key) && Key(other) && HasPrefix(key + ['='] + rest, other + ['='])
    ensures key == other
  {
    var line := key + ['='] + rest;
    assert line[|other|] == (other + ['='])[|other|] == '=';
    assert line[..|other|] == other;
    IndexIs(line, '=', |other|);
    IndexAfter(key, '=', rest);
    assert line[..|key|] == key;
  }

  /** The key reads back as the value. */
  lemma SetThenLookup(content: string, key: string, value: string)
    requires Key(key) && Plain(value)
    ensures Lookup(SetEnv(content, key, value), key) == Some(value)
  {
    SetEnvLines(content, key, value);
    LookupSet(Split(content, '\n'), key, value);
  }

  lemma LookupSet(lines: seq<string>, key: string, value: string)
    requires lines != []
    ensures LookupIn(SetLines(lines, key, Assignment(key, value)), key) == Some(value)
  {
    var newLine := Assignment(key, value);
    var after, i := SetLines(lines, key, newLine), LastMatch(lines, key);
    var j := if i >= 0 then i else if lines[|lines|-1] == "" then |lines| - 1 else |lines|;
    assert after[j] == newLine && newLine[|key|+1..] == value && HasPrefix(newLine, key + ['=']);
    LastMatchIs(after, key, j);
  }

  /** No other key's value changes. */
  lemma SetKeepsOthers(content: string, key: string, value: string, other: string)
    requires Key(key) && Plain(value) && Key(other) && other != key
    ensures Lookup(SetEnv(content, key, value), other) == Lookup(content, other)
  {
    SetEnvLines(content, key, value);
    LookupOther(Split(content, '\n'), key, value, other);
  }

  lemma LookupOther(lines: seq<string>, key: string, value: string, other: string)
    requires lines != [] && Key(key) && Key(other) && other != key
    ensures LookupIn(SetLines(lines, key, Assignment(key, value)), other) == LookupIn(lines, other)
  {
    var newLine := Assignment(key, value);
    var after, i, j := SetLines(lines, key, newLine), LastMatch(lines, key), LastMatch(lines, other);
    assert !HasPrefix(newLine, other + ['=']) by {
      if HasPrefix(newLine, other + ['=']) {
        OtherKey(key, other, value);
      }
    }
    if i >= 0 {
      assert lines[i] == key + ['='] + lines[i][|key|+1..];
      if HasPrefix(lines[i], other + ['=']) {
        OtherKey(key, other, lines[i][|key|+1..]);
      }
      assert j != i;
    }
    hide LastMatch;
    if j >= 0 {
      LastMatchIs(after, other, j);
    } else {
      assert forall k :: 0 <= k < |after| ==> !HasPrefix(after[k], other + ['=']);
      assert LastMatch(after, other) < 0;
    }
  }

  /** Setting a key twice is setting it to the second value. */
  lemma SetTwice(content: string, key: string, first: string, second: string)
    requires Key(key) && Plain(first) && Plain(second)
    ensures SetEnv(SetEnv(content, key, first), key, second) == SetEnv(content, key, second)
  {
    var once := SetEnv(content, key, first);
    SetEnvLines(content, key, first);
    SetEnvLines(content, key, second);
    SetEnvLines(once, key, second);
    SetLinesTwice(Split(content, '\n'), key, first, second);
    JoinSplit(SetEnv(once, key, second), '\n');
    JoinSplit(SetEnv(content, key, second), '\n');
  }

  lemma SetLinesTwice(lines: seq<string>, key: string, first: string, second: string)
    requires lines != []
    ensures SetLines(lines, key, Assignment(key, first)) != []
    ensures SetLines(SetLines(lines, key, Assignment(key, first)), key, Assignment(key, second))
         == SetLines(lines, key, Assignment(key, second))
  {
    var a, b := Assignment(key, first), Assignment(key, second);
    var after, i := SetLines(lines, key, a), LastMatch(lines, key);
    var j := if i >= 0 then i else if lines[|lines|-1] == "" then |lines| - 1 else |lines|;
    assert after[j] == a && HasPrefix(a, key + ['=']);
    LastMatchIs(after, key, j);
    assert after[j := b] == SetLines(lines, key, b);
  }

  /** A file that is not empty ends in a newline afterwards exactly if it did before. */
  lemma SetKeepsTrailingNewline(content: string, key: string, value: string)
    requires Key(key) && Plain(value) && content != ""
    ensures HasSuffix(SetEnv(content, key, value), "\n") <==> HasSuffix(content, "\n")
  {
    hide SetEnv, Split;
    var after, lines := SetEnv(content, key, value), Split(content, '\n');
    SetEnvLines(content, key, value);
    AssignmentPlain(key, value);
    LastOfSetLines(lines, key, Assignment(key, value));
    LastLine(content);
    SplitNone("", '\n');
    if after != "" {
      LastLine(after);
    }
    hide SetLines, Assignment;
    assert HasSuffix(content, "\n") <==> content[|content|-1] == '\n';
    assert HasSuffix(after, "\n") <==> after != "" && after[|after|-1] == '\n';
  }

  lemma LastOfSetLines(lines: seq<string>, key: string, newLine: string)
    requires lines != [] && newLine != ""
    ensures var after := SetLines(lines, key, newLine);
            after != [] && (lines != [""] ==> after != [""] && (after[|after|-1] == "" <==> lines[|lines|-1] == ""))
  {
    var i := LastMatch(lines, key);
    hide LastMatch;
    assert i >= 0 ==> lines[i] != "";
  }

  ghost predicate Assigns(line: string, key: string) { HasPrefix(line, key + ['=']) }

  /**
   `after` are the lines of `before` with the last assignment of the key replaced, or, if there is
   none, all of them in order, then the new line, and then the empty line after a last newline again.
   */
  ghost predicate OneLineSet(before: seq<string>, after: seq<string>, key: string, newLine: string)
    requires before != []
  {
    var n := |before| - 1;
    if exists k :: 0 <= k <= n && Assigns(before[k], key) then
      exists i :: 0 <= i <= n && Assigns(before[i], key) && (forall k :: i < k <= n ==> !Assigns(before[k], key))
                  && after == before[i := newLine]
    else if before == [""] then after == [newLine]
    else if before[n] == "" then after == before[..n] + [newLine, ""]
    else after == before + [newLine]
  }

  /** No line is lost or moved, and only one is changed or added. */
  lemma NoLineLost(content: string, key: string, value: string)
    requires Key(key) && Plain(value)
    ensures OneLineSet(Split(content, '\n'), Split(SetEnv(content, key, value), '\n'), key, key + ['='] + value)
  {
    hide Split, SetEnv;
    SetEnvLines(content, key, value);
    var lines := Split(content, '\n');
    hide LastMatch;
    var i := LastMatch(lines, key);
    if i >= 0 {
      assert Assigns(lines[i], key);
    }
  }

  /** setEnvLine as it is written. */
  method SetEnvLine(content: string, key: string, value: string) returns (merged: string)
    ensures merged == SetEnv(content, key, value)
    ensures Key(key) && Plain(value) ==>
              OneLineSet(Split(content, '\n'), Split(merged, '\n'), key, key + ['='] + value)
  {
    if Key(key) && Plain(value) {
      NoLineLost(content, key, value);
    }
    hide OneLineSet;
    var keyPrefix, newLine := key + "=", key + "=" + value;
    var lines := Split(content, '\n');
    var lastIdx := -1;
    for i := 0 to |lines|
      invariant -1 <= lastIdx < i
      invariant lastIdx == LastMatch(lines[..i], key)
    {
      assert lines[..i+1][..i] == lines[..i];
      if HasPrefix(lines[i], keyPrefix) {
        lastIdx := i;
      }
    }
    assert lines[..|lines|] == lines;
    if lastIdx >= 0 {
      lines := lines[lastIdx := newLine];
      return Join(lines, '\n');
    }
    if content == "" {
      return newLine;
    }
    if HasSuffix(content, "\n") {
      return content + newLine + "\n";
    }
    merged := content + "\n" + newLine;
  }
}
