/** The functions of Go's package strings that the modelled code uses, on byte-wise strings. */
module GoStrings {

  /** The first position of `c`, or -1. */
  function Index(s: string, c: char): (i: int)
    ensures -1 <= i < |s|
    ensures i >= 0 ==> s[i] == c && c !in s[..i]
    ensures i < 0 ==> c !in s
  {
    if s == "" then -1
    else if s[0] == c then 0
    else
      var i := Index(s[1..], c);
      assert i >= 0 ==> s[..i+1] == [s[0]] + s[1..][..i];
      if i < 0 then -1 else i + 1
  }

  /** The last position of `c`, or -1. */
  function LastIndex(s: string, c: char): (i: int)
    ensures -1 <= i < |s|
    ensures i >= 0 ==> s[i] == c && c !in s[i+1..]
    ensures i < 0 ==> c !in s
  {
    if s == "" then -1
    else if s[|s|-1] == c then |s| - 1
    else
      var i := LastIndex(s[..|s|-1], c);
      assert i >= 0 ==> s[i+1..] == s[..|s|-1][i+1..] + [s[|s|-1]];
      i
  }

  predicate HasPrefix(s: string, prefix: string) { prefix <= s }

  predicate HasSuffix(s: string, suffix: string) {
    |suffix| <= |s| && s[|s|-|suffix|..] == suffix
  }

  /** strings.Split with a one-character separator. */
  function Split(s: string, sep: char): (parts: seq<string>)
    ensures |parts| >= 1
    decreases |s|
  {
    var i := Index(s, sep);
    if i < 0 then [s] else [s[..i]] + Split(s[i+1..], sep)
  }

  function Join(parts: seq<string>, sep: char): string {
    if parts == [] then ""
    else if |parts| == 1 then parts[0]
    else parts[0] + [sep] + Join(parts[1..], sep)
  }

  /** strings.TrimRight: drops the trailing characters that are in `cutset`. */
  function TrimRight(s: string, cutset: string): (r: string)
    ensures r <= s && (r != "" ==> r[|r|-1] !in cutset)
    ensures forall k :: |r| <= k < |s| ==> s[k] in cutset
  {
    if s != "" && s[|s|-1] in cutset then TrimRight(s[..|s|-1], cutset) else s
  }

  function TrimLeft(s: string, cutset: string): (r: string)
    ensures |r| <= |s| && s[|s|-|r|..] == r && (r != "" ==> r[0] !in cutset)
    ensures forall k :: 0 <= k < |s| - |r| ==> s[k] in cutset
  {
    if s != "" && s[0] in cutset then TrimLeft(s[1..], cutset) else s
  }

  lemma IndexIs(s: string, c: char, i: nat)
    requires i < |s| && s[i] == c && c !in s[..i]
    ensures Index(s, c) == i
  {
    var j := Index(s, c);
    hide Index;
    assert forall k :: 0 <= k < i ==> s[..i][k] == s[k];
    assert forall k :: 0 <= k < j ==> s[..j][k] == s[k];
  }

  lemma LastIndexIs(s: string, c: char, i: nat)
    requires i < |s| && s[i] == c && c !in s[i+1..]
    ensures LastIndex(s, c) == i
  {
    var j := LastIndex(s, c);
    hide LastIndex;
    assert forall k :: i < k < |s| ==> s[i+1..][k-i-1] == s[k];
    assert j >= 0 ==> forall k :: j < k < |s| ==> s[j+1..][k-j-1] == s[k];
  }

  /** The first occurrence is where a separator-free prefix ends. */
  lemma IndexAfter(a: string, c: char, b: string)
    requires c !in a
    ensures Index(a + [c] + b, c) == |a|
  {
    assert (a + [c] + b)[..|a|] == a;
    IndexIs(a + [c] + b, c, |a|);
  }

  lemma LastIndexBefore(a: string, c: char, b: string)
    requires c !in b
    ensures LastIndex(a + [c] + b, c) == |a|
  {
    assert (a + [c] + b)[|a|+1..] == b;
    LastIndexIs(a + [c] + b, c, |a|);
  }

  lemma SplitNone(s: string, sep: char)
    requires sep !in s
    ensures Split(s, sep) == [s]
  {
  }

  lemma SplitHead(a: string, sep: char, b: string)
    requires sep !in a
    ensures Split(a + [sep] + b, sep) == [a] + Split(b, sep)
  {
    var s := a + [sep] + b;
    IndexAfter(a, sep, b);
    assert s[..|a|] == a && s[|a|+1..] == b;
  }

  /** Splitting distributes over the separator, whatever the two sides contain. */
  lemma {:induction false} SplitAppend(a: string, sep: char, b: string)
    ensures Split(a + [sep] + b, sep) == Split(a, sep) + Split(b, sep)
    decreases |a|
  {
    var i := Index(a, sep);
    if i < 0 {
      SplitHead(a, sep, b);
    } else {
      var head, rest := a[..i], a[i+1..];
      SplitAppend(rest, sep, b);
      SplitHead(head, sep, rest);
      SplitHead(head, sep, rest + [sep] + b);
      Regroup(head, sep, rest, sep, b);
      CutAt(a, i);
      hide *;
      Assoc([head], Split(rest, sep), Split(b, sep));
    }
  }

  lemma CutAt<T>(s: seq<T>, i: nat)
    requires i < |s|
    ensures s == s[..i] + [s[i]] + s[i+1..]
  {
  }

  lemma TakeOne<T>(s: seq<T>, i: nat)
    requires i < |s|
    ensures s[..i+1] == s[..i] + [s[i]]
  {
  }

  lemma TakeInto<T>(a: seq<T>, b: seq<T>, k: nat)
    requires k <= |b|
    ensures (a + b)[..|a|+k] == a + b[..k]
  {
  }

  lemma TakeMore<T>(s: seq<T>, i: nat, k: nat)
    requires i + k <= |s|
    ensures s[..i+k] == s[..i] + s[i..][..k]
  {
  }

  lemma Assoc<T>(a: seq<T>, b: seq<T>, c: seq<T>)
    ensures a + (b + c) == a + b + c
  {
  }

  lemma Regroup(head: string, c: char, rest: string, d: char, b: string)
    ensures head + [c] + rest + [d] + b == head + [c] + (rest + [d] + b)
  {
  }

  lemma {:induction false} JoinSplit(s: string, sep: char)
    ensures Join(Split(s, sep), sep) == s
    decreases |s|
  {
    var i := Index(s, sep);
    if i >= 0 {
      var head, tail := s[..i], Split(s[i+1..], sep);
      JoinSplit(s[i+1..], sep);
      assert Split(s, sep) == [head] + tail;
      hide Split, Index;
      assert ([head] + tail)[1..] == tail;
      CutAt(s, i);
    }
  }

  /** Joining non-empty lists of separator-free parts and splitting again gives the parts back. */
  lemma {:induction false} SplitJoin(parts: seq<string>, sep: char)
    requires parts != [] && forall p :: p in parts ==> sep !in p
    ensures Split(Join(parts, sep), sep) == parts
  {
    if |parts| > 1 {
      SplitJoin(parts[1..], sep);
      SplitAppend(parts[0], sep, Join(parts[1..], sep));
      assert parts[0] in parts && Split(parts[0], sep) == [parts[0]];
      assert parts == [parts[0]] + parts[1..];
    } else {
      assert parts[0] in parts && parts == [parts[0]];
    }
  }

  lemma {:induction false} SplitPartsFree(s: string, sep: char)
    ensures forall p :: p in Split(s, sep) ==> sep !in p
    decreases |s|
  {
    var i := Index(s, sep);
    if i >= 0 {
      SplitPartsFree(s[i+1..], sep);
    }
  }
}
