/** Unpadded base64url (RFC 4648, sections 5 and 3.2) as Go's RawURLEncoding reads and writes it. */
module Base64Url {
  import opened Options

  /** A Go string: its characters are bytes. */
  predicate Bytes(s: string) { forall c :: c in s ==> c as int < 256 }

  function EncodeDigit(v: int): char
    requires 0 <= v < 64
  {
    if v < 26 then (v + 65) as char          // A-Z
    else if v < 52 then (v + 71) as char     // a-z
    else if v < 62 then (v - 4) as char      // 0-9
    else if v == 62 then '-'
    else '_'
  }

  function DecodeDigit(c: char): (v: Option<int>)
    ensures v.Some? ==> 0 <= v.value < 64
  {
    if 'A' <= c <= 'Z' then Some(c as int - 65)
    else if 'a' <= c <= 'z' then Some(c as int - 71)
    else if '0' <= c <= '9' then Some(c as int + 4)
    else if c == '-' then Some(62)
    else if c == '_' then Some(63)
    else None
  }

  lemma DigitRoundTrip(v: int)
    requires 0 <= v < 64
    ensures DecodeDigit(EncodeDigit(v)) == Some(v) && EncodeDigit(v) != '\r' && EncodeDigit(v) != '\n'
  {
  }

  /** The four digits of three bytes. */
  function D0(a: int): int { a / 4 }

  function D1(a: int, b: int): int { a % 4 * 16 + b / 16 }

  function D2(b: int, c: int): int { b % 16 * 4 + c / 64 }

  function D3(c: int): int { c % 64 }

  lemma DigitRange(a: int, b: int, c: int)
    requires 0 <= a < 256 && 0 <= b < 256 && 0 <= c < 256
    ensures 0 <= D0(a) < 64 && 0 <= D1(a, b) < 64 && 0 <= D2(b, c) < 64 && 0 <= D3(c) < 64
  {
  }

  function Quantum(a: int, b: int, c: int): (q: string)
    requires 0 <= a < 256 && 0 <= b < 256 && 0 <= c < 256
    ensures |q| == 4
  {
    DigitRange(a, b, c);
    [EncodeDigit(D0(a)), EncodeDigit(D1(a, b)), EncodeDigit(D2(b, c)), EncodeDigit(D3(c))]
  }

  /** Three bytes make four digits; one or two bytes at the end make two or three. */
  function Encode(s: string): string
    requires Bytes(s)
  {
    if s == "" then ""
    else
      assert s[0] in s && (|s| > 1 ==> s[1] in s) && (|s| > 2 ==> s[2] in s);
      if |s| == 1 then Quantum(s[0] as int, 0, 0)[..2]
      else if |s| == 2 then Quantum(s[0] as int, s[1] as int, 0)[..3]
      else
        assert forall x :: x in s[3..] ==> x in s;
        Quantum(s[0] as int, s[1] as int, s[2] as int) + Encode(s[3..])
  }

  function Char(v: int): char
    requires 0 <= v < 256
  {
    v as char
  }

  /** The value of a digit, for those that have one. */
  function Value(c: char): int
    requires DecodeDigit(c).Some?
  {
    DecodeDigit(c).value
  }

  /** The bytes of two, three or four digits. */
  function First(t: string): char
    requires |t| >= 2 && DecodeDigit(t[0]).Some? && DecodeDigit(t[1]).Some?
  {
    Char(Value(t[0]) * 4 + Value(t[1]) / 16)
  }

  function Second(t: string): char
    requires |t| >= 3 && DecodeDigit(t[1]).Some? && DecodeDigit(t[2]).Some?
  {
    Char(Value(t[1]) % 16 * 16 + Value(t[2]) / 4)
  }

  function Third(t: string): char
    requires |t| >= 4 && DecodeDigit(t[2]).Some? && DecodeDigit(t[3]).Some?
  {
    Char(Value(t[2]) % 4 * 64 + Value(t[3]))
  }

  /** Four digits make three bytes; two or three at the end make one or two; one is an error. */
  function DecodeDigits(t: string): Option<string> {
    if t == "" then Some("")
    else if |t| == 1 || DecodeDigit(t[0]).None? || DecodeDigit(t[1]).None? then None
    else if |t| == 2 then Some([First(t)])
    else if DecodeDigit(t[2]).None? then None
    else if |t| == 3 then Some([First(t), Second(t)])
    else if DecodeDigit(t[3]).None? then None
    else
      var rest := DecodeDigits(t[4..]);
      if rest.None? then None else Some([First(t), Second(t), Third(t)] + rest.value)
  }

  /** The decoder skips line breaks wherever they are. */
  function DropBreaks(s: string): string {
    if s == "" then ""
    else (if s[0] == '\r' || s[0] == '\n' then "" else [s[0]]) + DropBreaks(s[1..])
  }

  function Decode(s: string): Option<string> { DecodeDigits(DropBreaks(s)) }

  lemma QuantumRoundTrip(a: int, b: int, c: int)
    requires 0 <= a < 256 && 0 <= b < 256 && 0 <= c < 256
    ensures D0(a) * 4 + D1(a, b) / 16 == a
    ensures D1(a, b) % 16 * 16 + D2(b, c) / 4 == b
    ensures D2(b, c) % 4 * 64 + D3(c) == c
  {
  }

  lemma QuantumDigits(a: int, b: int, c: int)
    requires 0 <= a < 256 && 0 <= b < 256 && 0 <= c < 256
    ensures var q := Quantum(a, b, c);
      && DecodeDigit(q[0]) == Some(D0(a)) && DecodeDigit(q[1]) == Some(D1(a, b))
      && DecodeDigit(q[2]) == Some(D2(b, c)) && DecodeDigit(q[3]) == Some(D3(c))
      && '\r' !in q && '\n' !in q
  {
    hide DecodeDigit, EncodeDigit, D0, D1, D2, D3;
    DigitRange(a, b, c);
    DigitRoundTrip(D0(a));
    DigitRoundTrip(D1(a, b));
    DigitRoundTrip(D2(b, c));
    DigitRoundTrip(D3(c));
  }

  lemma DecodeQuantum(a: char, b: char, c: char, t: string, s: string)
    requires a as int < 256 && b as int < 256 && c as int < 256
    requires DecodeDigits(t) == Some(s)
    ensures DecodeDigits(Quantum(a as int, b as int, c as int) + t) == Some([a, b, c] + s)
  {
    hide DecodeDigit, Quantum, D0, D1, D2, D3;
    QuantumDigits(a as int, b as int, c as int);
    QuantumRoundTrip(a as int, b as int, c as int);
    DigitRange(a as int, b as int, c as int);
    var q := Quantum(a as int, b as int, c as int);
    assert (q + t)[4..] == t;
  }

  lemma DecodeTail(a: char, b: char)
    requires a as int < 256 && b as int < 256
    ensures DecodeDigits(Quantum(a as int, 0, 0)[..2]) == Some([a])
    ensures DecodeDigits(Quantum(a as int, b as int, 0)[..3]) == Some([a, b])
  {
    hide DecodeDigit, Quantum, D0, D1, D2, D3;
    QuantumDigits(a as int, 0, 0);
    QuantumRoundTrip(a as int, 0, 0);
    QuantumDigits(a as int, b as int, 0);
    QuantumRoundTrip(a as int, b as int, 0);
    DigitRange(a as int, 0, 0);
    DigitRange(a as int, b as int, 0);
  }

  lemma {:induction false} KeepAll(a: string, b: string)
    requires '\r' !in a && '\n' !in a && DropBreaks(b) == b
    ensures DropBreaks(a + b) == a + b
  {
    hide DropBreaks;
    if a == "" {
      assert a + b == b;
    } else {
      var c, tail := a[0], a[1..];
      assert c in a && forall d :: d in tail ==> d in a;
      KeepAll(tail, b);
      KeepOne(c, tail + b);
      FirstOf(a, b);
    }
  }

  lemma FirstOf(a: string, b: string)
    requires a != ""
    ensures a + b == [a[0]] + (a[1..] + b)
  {
  }

  lemma KeepOne(c: char, b: string)
    requires c != '\r' && c != '\n'
    ensures DropBreaks([c] + b) == [c] + DropBreaks(b)
  {
    assert ([c] + b)[1..] == b;
  }

  /** Decoding what was encoded gives it back, for every string of bytes. */
  lemma {:induction false} RoundTrip(s: string)
    requires Bytes(s)
    ensures DecodeDigits(Encode(s)) == Some(s)
    ensures DropBreaks(Encode(s)) == Encode(s)
    decreases |s|
  {
    hide Quantum, DecodeDigits, DropBreaks, DecodeDigit;
    if s == "" {
      EmptyRoundTrip();
    } else {
      assert s[0] in s && (|s| > 1 ==> s[1] in s) && (|s| > 2 ==> s[2] in s);
      if |s| < 3 {
        DecodeTail(s[0], s[|s|-1]);
        QuantumDigits(s[0] as int, if |s| == 1 then 0 else s[1] as int, 0);
        EmptyRoundTrip();
        KeepAll(Encode(s), "");
        assert s == (if |s| == 1 then [s[0]] else [s[0], s[1]]) && Encode(s) + "" == Encode(s);
      } else {
        var a, b, c, rest := s[0], s[1], s[2], s[3..];
        assert forall x :: x in rest ==> x in s;
        RoundTrip(rest);
        DecodeQuantum(a, b, c, Encode(rest), rest);
        QuantumDigits(a as int, b as int, c as int);
        KeepAll(Quantum(a as int, b as int, c as int), Encode(rest));
        assert s == [a, b, c] + rest;
      }
    }
  }

  lemma EmptyRoundTrip()
    ensures DecodeDigits("") == Some("") && DropBreaks("") == ""
  {
  }

  lemma DecodeEncode(s: string)
    requires Bytes(s)
    ensures Decode(Encode(s)) == Some(s)
  {
    RoundTrip(s);
  }

  // ---------- What is decoded, exactly ----------

  const UPPER := "ABCDEFGHIJKLMNOPQRSTUVWXYZ"
  const LOWER := "abcdefghijklmnopqrstuvwxyz"
  const OTHERS := "0123456789-_"

  /** The digits are those of the table in section 5 of RFC 4648, in its order. */
  lemma Alphabet(v: int)
    requires 0 <= v < 64
    ensures |UPPER| == |LOWER| == 26 && |OTHERS| == 12
    ensures EncodeDigit(v) == if v < 26 then UPPER[v] else if v < 52 then LOWER[v-26] else OTHERS[v-52]
  {
  }

  lemma DigitExactly(c: char, v: int)
    ensures DecodeDigit(c) == Some(v) <==> 0 <= v < 64 && c == EncodeDigit(v)
  {
  }

  /** Only the two line breaks are skipped. */
  lemma {:induction false} BreaksDropped(a: string, b: string)
    ensures DropBreaks(a + b) == DropBreaks(a) + DropBreaks(b)
    ensures |a| == 1 ==> DropBreaks(a) == if a[0] == '\r' || a[0] == '\n' then "" else a
  {
    if a == "" {
      assert a + b == b;
    } else {
      var c, tail := a[0], a[1..];
      BreaksDropped(tail, b);
      assert (a + b)[1..] == tail + b && (a + b)[0] == c;
      assert |a| == 1 ==> tail == "" && a == [c];
      var kept := if c == '\r' || c == '\n' then "" else [c];
      assert DropBreaks(a) == kept + DropBreaks(tail);
      hide DropBreaks;
      assert kept + (DropBreaks(tail) + DropBreaks(b)) == kept + DropBreaks(tail) + DropBreaks(b);
    }
  }

  predicate AllDigits(t: string) { forall c :: c in t ==> DecodeDigit(c).Some? }

  /** How many values of the last digit make no difference: its low bits beyond the last byte. */
  function Slack(n: nat): nat { if n % 4 == 2 then 16 else if n % 4 == 3 then 4 else 1 }

  /** `u` is `t` but for the low bits of the last digit that no byte holds. */
  ghost predicate SameBits(t: string, u: string) {
    && |t| == |u|
    && (t != "" ==>
          && t[..|t|-1] == u[..|u|-1]
          && DecodeDigit(t[|t|-1]).Some? && DecodeDigit(u[|u|-1]).Some?
          && DecodeDigit(t[|t|-1]).value / Slack(|t|) == DecodeDigit(u[|u|-1]).value / Slack(|t|))
  }

  lemma DigitsBack(v0: int, v1: int, v2: int, v3: int)
    requires 0 <= v0 < 64 && 0 <= v1 < 64 && 0 <= v2 < 64 && 0 <= v3 < 64
    ensures var a, b, c := v0 * 4 + v1 / 16, v1 % 16 * 16 + v2 / 4, v2 % 4 * 64 + v3;
            && 0 <= a < 256 && 0 <= b < 256 && 0 <= c < 256
            && D0(a) == v0 && D1(a, b) == v1 && D2(b, c) == v2 && D3(c) == v3
            && D1(a, 0) / 16 == v1 / 16 && D2(b, 0) / 4 == v2 / 4
  {
  }

  lemma {:induction false} DecodesDigits(t: string)
    ensures DecodeDigits(t).Some? <==> AllDigits(t) && |t| % 4 != 1
    decreases |t|
  {
    hide DecodeDigit;
    assert AllDigits(t) <==> forall k :: 0 <= k < |t| ==> DecodeDigit(t[k]).Some?;
    if |t| >= 4 {
      var rest := t[4..];
      DecodesDigits(rest);
      assert forall k :: 4 <= k < |t| ==> t[k] == rest[k-4];
      assert AllDigits(rest) <==> forall k :: 4 <= k < |t| ==> DecodeDigit(t[k]).Some?;
    }
  }

  lemma SameBitsMore(head: string, x: string, t: string)
    requires |head| == 4 && SameBits(x, t) && AllDigits(head)
    ensures SameBits(head + x, head + t)
  {
    hide DecodeDigit;
    if t == "" {
      assert head + x == head + t == head && head[3] in head;
    } else {
      assert (head + x)[..|head + x|-1] == head + x[..|x|-1];
      assert (head + t)[..|head + t|-1] == head + t[..|t|-1];
    }
  }

  /** One step of the decoder, for each number of digits there may be left. */
  lemma DecodeStep(t: string)
    requires DecodeDigits(t).Some? && t != ""
    ensures |t| >= 2 && DecodeDigit(t[0]).Some? && DecodeDigit(t[1]).Some?
    ensures |t| >= 3 ==> DecodeDigit(t[2]).Some?
    ensures |t| >= 4 ==> DecodeDigit(t[3]).Some? && DecodeDigits(t[4..]).Some?
    ensures DecodeDigits(t).value ==
              if |t| == 2 then [First(t)]
              else if |t| == 3 then [First(t), Second(t)]
              else [First(t), Second(t), Third(t)] + DecodeDigits(t[4..]).value
  {
    hide DecodeDigit, First, Second, Third;
  }

  lemma TwoBack(t: string)
    requires |t| == 2 && DecodeDigits(t).Some?
    ensures Bytes(DecodeDigits(t).value) && SameBits(Encode(DecodeDigits(t).value), t)
  {
    hide DecodeDigits, DecodeDigit, EncodeDigit, D0, D1, D2, D3, Quantum;
    DecodeStep(t);
    var v0, v1 := Value(t[0]), Value(t[1]);
    var s := DecodeDigits(t).value;
    DigitExactly(t[0], v0);
    DigitsBack(v0, v1, 0, 0);
    var q := Quantum(s[0] as int, 0, 0);
    QuantumDigits(s[0] as int, 0, 0);
    DigitExactly(q[0], v0);
    assert q[..2][..1] == [q[0]] && t[..1] == [t[0]];
  }

  lemma ThreeBack(t: string)
    requires |t| == 3 && DecodeDigits(t).Some?
    ensures Bytes(DecodeDigits(t).value) && SameBits(Encode(DecodeDigits(t).value), t)
  {
    hide DecodeDigits, DecodeDigit, EncodeDigit, D0, D1, D2, D3, Quantum;
    DecodeStep(t);
    var v0, v1, v2 := Value(t[0]), Value(t[1]), Value(t[2]);
    var s := DecodeDigits(t).value;
    DigitExactly(t[0], v0);
    DigitExactly(t[1], v1);
    DigitsBack(v0, v1, v2, 0);
    var q := Quantum(s[0] as int, s[1] as int, 0);
    QuantumDigits(s[0] as int, s[1] as int, 0);
    DigitExactly(q[0], v0);
    DigitExactly(q[1], v1);
    assert q[..3][..2] == [q[0], q[1]] && t[..2] == [t[0], t[1]];
  }

  lemma FourOnly(t: string, head: string)
    requires |t| >= 4 && head == t[..4]
    ensures head[4..] == "" && head[0] == t[0] && head[1] == t[1] && head[2] == t[2] && head[3] == t[3]
    ensures forall a: char, b: char, c: char :: [a, b, c] + "" == [a, b, c]
  {
  }

  /** The first four digits and the rest are decoded by themselves. */
  lemma SplitQuantum(t: string)
    requires |t| >= 4 && DecodeDigits(t).Some?
    ensures AllDigits(t[..4]) && DecodeDigits(t[4..]).Some? && DecodeDigits(t[..4]).Some?
    ensures DecodeDigits(t).value == DecodeDigits(t[..4]).value + DecodeDigits(t[4..]).value
  {
    hide DecodeDigits, DecodeDigit;
    var head := t[..4];
    DecodeStep(t);
    assert forall c :: c in head ==> c == t[0] || c == t[1] || c == t[2] || c == t[3];
    assert AllDigits(head);
    hide AllDigits, First, Second, Third;
    DecodesDigits(head);
    EmptyRoundTrip();
    DecodeStep(head);
    FourOnly(t, head);
  }

  /** Three bytes read from four digits are encoded to these digits. */
  lemma QuantumBack(t: string)
    requires |t| == 4 && AllDigits(t)
    ensures DecodeDigits(t).Some? && |DecodeDigits(t).value| == 3
    ensures var s := DecodeDigits(t).value;
            s[0] as int < 256 && s[1] as int < 256 && s[2] as int < 256 && Quantum(s[0] as int, s[1] as int, s[2] as int) == t
  {
    hide DecodeDigits, DecodeDigit, EncodeDigit, D0, D1, D2, D3;
    DecodesDigits(t);
    DecodeStep(t);
    EmptyRoundTrip();
    assert t[4..] == "";
    var v0, v1, v2, v3 := Value(t[0]), Value(t[1]), Value(t[2]), Value(t[3]);
    DigitExactly(t[0], v0);
    DigitExactly(t[1], v1);
    DigitExactly(t[2], v2);
    DigitExactly(t[3], v3);
    DigitsBack(v0, v1, v2, v3);
    assert t == [t[0], t[1], t[2], t[3]];
  }

  lemma EncodeMore(head: string, rest: string)
    requires |head| == 3 && Bytes(head) && Bytes(rest)
    ensures Bytes(head + rest)
    ensures head[0] as int < 256 && head[1] as int < 256 && head[2] as int < 256
    ensures Encode(head + rest) == Quantum(head[0] as int, head[1] as int, head[2] as int) + Encode(rest)
  {
    hide Quantum;
    assert (head + rest)[3..] == rest && head[0] in head && head[1] in head && head[2] in head;
    assert forall c :: c in head + rest <==> c in head || c in rest;
  }

  lemma {:induction false} DigitsEncoded(t: string)
    requires DecodeDigits(t).Some?
    ensures Bytes(DecodeDigits(t).value) && SameBits(Encode(DecodeDigits(t).value), t)
    decreases |t|
  {
    if t == "" {
    } else if |t| < 4 {
      DecodeStep(t);
      hide *;
      if |t| == 2 {
        TwoBack(t);
      } else {
        ThreeBack(t);
      }
    } else {
      hide *;
      SplitQuantum(t);
      DigitsEncoded(t[4..]);
      QuantumBack(t[..4]);
      var head, rest := DecodeDigits(t[..4]).value, DecodeDigits(t[4..]).value;
      ThreeBytes(head);
      EncodeMore(head, rest);
      SameBitsMore(t[..4], Encode(rest), t[4..]);
      assert t == t[..4] + t[4..];
    }
  }

  lemma ThreeBytes(s: string)
    requires |s| == 3 && s[0] as int < 256 && s[1] as int < 256 && s[2] as int < 256
    ensures Bytes(s)
  {
    assert forall c :: c in s <==> c == s[0] || c == s[1] || c == s[2];
  }

  /**
   Exactly the texts that, without line breaks, consist of digits and do not leave a single one over
   are decoded; and what they are decoded to is encoded to the same digits, but for the bits of the
   last one that no byte holds.
   */
  lemma DecodedExactly(t: string)
    ensures Decode(t).Some? <==> AllDigits(DropBreaks(t)) && |DropBreaks(t)| % 4 != 1
    ensures Decode(t).Some? ==> Bytes(Decode(t).value) && SameBits(Encode(Decode(t).value), DropBreaks(t))
  {
    hide *;
    var d := DropBreaks(t);
    assert Decode(t) == DecodeDigits(d) by { DecodeIs(t); }
    DecodesDigits(d);
    if Decode(t).Some? {
      DigitsEncoded(d);
    }
  }

  lemma DecodeIs(t: string)
    ensures Decode(t) == DecodeDigits(DropBreaks(t))
  {
  }
}
