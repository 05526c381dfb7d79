/** Registry credentials: minting, decoding and validating "<expiry>:<name>:<mac>" (token.go). */
module Token {
  import opened Options
  import opened GoStrings
  import Base64Url

  const TTL := 900
  const MIN_INT64 := -0x8000_0000_0000_0000
  const MAX_INT64 := 0x7FFF_FFFF_FFFF_FFFF

  /** The keyed hash of a secret and a message, printed in hexadecimal. */
  type Mac = (string, string) -> string

  ghost predicate Hexadecimal(mac: Mac) {
    forall secret, message :: Base64Url.Bytes(mac(secret, message)) && ':' !in mac(secret, message)
  }

  // ---------- strconv ----------

  function Digit(d: int): char
    requires 0 <= d < 10
  {
    (d + 48) as char
  }

  function Digits(n: nat): (s: string)
    ensures s != ""
    ensures forall c :: c in s ==> '0' <= c <= '9'
  {
    if n < 10 then [Digit(n)] else Digits(n / 10) + [Digit(n % 10)]
  }

  /** strconv.FormatInt in base 10. */
  function FormatInt(n: int): string {
    if n < 0 then ['-'] + Digits(-n) else Digits(n)
  }

  /** The number a non-empty string of digits stands for; None for any other string. */
  function Number(s: string): (n: Option<int>)
    ensures n.Some? ==> n.value >= 0
  {
    if s == "" then None
    else
      var d := s[|s|-1] as int - 48;
      if !(0 <= d < 10) then None
      else if |s| == 1 then Some(d)
      else
        var init := Number(s[..|s|-1]);
        if init.None? then None else Some(10 * init.value + d)
  }

  /** strconv.ParseInt in base 10 with 64 bits: an optional sign, digits, and a value in range. */
  function ParseInt(s: string): Option<int> {
    var signed := s != "" && (s[0] == '+' || s[0] == '-');
    var n := Number(if signed then s[1..] else s);
    if n.None? then None
    else
      var v := if signed && s[0] == '-' then -n.value else n.value;
      if MIN_INT64 <= v <= MAX_INT64 then Some(v) else None
  }

  lemma {:induction false} NumberOfDigits(n: nat)
    ensures Number(Digits(n)) == Some(n)
  {
    if n >= 10 {
      NumberOfDigits(n / 10);
      var s := Digits(n);
      assert s[..|s|-1] == Digits(n / 10) && s[|s|-1] == Digit(n % 10);
    }
  }

  lemma ParseFormat(n: int)
    requires MIN_INT64 <= n <= MAX_INT64
    ensures ParseInt(FormatInt(n)) == Some(n)
  {
    NumberOfDigits(if n < 0 then -n else n);
    if n >= 0 {
      var s := Digits(n);
      assert s[0] in s;
    } else {
      assert (['-'] + Digits(-n))[1..] == Digits(-n);
    }
  }

  /** Printed digits are the decimal ones, the last digit last. */
  lemma DigitsAre(n: nat, d: nat)
    requires d < 10
    ensures Digits(d) == ["0123456789"[d]]
    ensures n > 0 ==> Digits(10 * n + d) == Digits(n) + ["0123456789"[d]]
  {
    assert "0123456789"[d] == Digit(d);
    assert (10 * n + d) / 10 == n && (10 * n + d) % 10 == d;
  }

  function Zeros(k: nat): string { if k == 0 then "" else Zeros(k - 1) + ['0'] }

  lemma {:induction false} NumberOfPadded(k: nat, n: nat)
    ensures Number(Zeros(k) + Digits(n)) == Some(n)
  {
    var s := Zeros(k) + Digits(n);
    if n >= 10 {
      NumberOfPadded(k, n / 10);
      assert s[..|s|-1] == Zeros(k) + Digits(n / 10) && s[|s|-1] == Digit(n % 10);
    } else {
      assert s[..|s|-1] == Zeros(k) && s[|s|-1] == Digit(n);
      if k > 0 {
        NumberOfPadded(k - 1, 0);
        assert Zeros(k) == Zeros(k - 1) + Digits(0);
      }
    }
  }

  lemma {:induction false} NumberSpelled(s: string) returns (k: nat)
    requires Number(s).Some?
    ensures s == Zeros(k) + Digits(Number(s).value)
    decreases |s|
  {
    var n, d := Number(s).value, s[|s|-1] as int - 48;
    assert s == s[..|s|-1] + [Digit(d)];
    if |s| == 1 {
      k := 0;
    } else {
      k := NumberSpelled(s[..|s|-1]);
      var m := Number(s[..|s|-1]).value;
      assert n == 10 * m + d;
      if m == 0 {
        k := k + 1;
      } else {
        assert Digits(n) == Digits(m) + [Digit(d)];
        assert Zeros(k) + (Digits(m) + [Digit(d)]) == Zeros(k) + Digits(m) + [Digit(d)];
      }
    }
  }

  /** `s` spells the number: perhaps a sign, perhaps zeros, and its digits. */
  ghost predicate Spells(s: string, sign: string, k: nat, n: nat, v: int) {
    && (sign == "" || sign == "+" || sign == "-")
    && s == sign + (Zeros(k) + Digits(n))
    && (sign == "-" ==> v + n == 0) && (sign != "-" ==> v == n)
  }

  /** Exactly the texts that spell a number that fits into 64 bits are parsed, and as that number. */
  lemma ParsedExactly(s: string, v: int)
    ensures ParseInt(s) == Some(v) <==>
      -0x8000_0000_0000_0000 <= v <= 0x7FFF_FFFF_FFFF_FFFF && exists sign, k, n :: Spells(s, sign, k, n, v)
  {
    hide Digits, Zeros;
    if ParseInt(s) == Some(v) {
      var signed := s != "" && (s[0] == '+' || s[0] == '-');
      var rest := if signed then s[1..] else s;
      var k := NumberSpelled(rest);
      var sign := if signed then [s[0]] else "";
      assert s == sign + rest;
      assert Spells(s, sign, k, Number(rest).value, v);
    }
    forall sign, k, n | Spells(s, sign, k, n, v) && MIN_INT64 <= v <= MAX_INT64
      ensures ParseInt(s) == Some(v)
    {
      NumberOfPadded(k, n);
      PaddedDigit(k, n);
      var rest := Zeros(k) + Digits(n);
      assert sign == "" ==> s == rest;
      assert sign != "" ==> s[1..] == rest && s[0] == sign[0];
    }
  }

  lemma PaddedDigit(k: nat, n: nat)
    ensures var s := Zeros(k) + Digits(n); s != "" && '0' <= s[0] <= '9'
  {
    if k > 0 {
      ZerosFirst(k);
    } else {
      assert Zeros(0) + Digits(n) == Digits(n) && Digits(n)[0] in Digits(n);
    }
  }

  lemma {:induction false} ZerosFirst(k: nat)
    requires k > 0
    ensures Zeros(k) != "" && Zeros(k)[0] == '0'
  {
    if k > 1 {
      ZerosFirst(k - 1);
    }
  }

  lemma FormatIsPlain(n: int)
    ensures ':' !in FormatInt(n) && Base64Url.Bytes(FormatInt(n))
  {
  }

  // ---------- tokens ----------

  datatype Claims = Claims(name: string, rest: string, mac: string)

  /** The two fields that are signed. */
  function Payload(expiry: string, name: string): string { expiry + [':'] + name }

  function Raw(mac: Mac, secret: string, payload: string): string { payload + [':'] + mac(secret, payload) }

  /** MintRegistryToken at time `now`, in seconds. */
  function Mint(mac: Mac, secret: string, name: string, now: int): string
    requires Base64Url.Bytes(Raw(mac, secret, Payload(FormatInt(now + TTL), name)))
  {
    Base64Url.Encode(Raw(mac, secret, Payload(FormatInt(now + TTL), name)))
  }

  function Fields(s: string): (claims: Option<Claims>)
    ensures claims.Some? ==> ':' in claims.value.rest
  {
    var lastColon := LastIndex(s, ':');
    if lastColon < 0 then None
    else
      var mac, rest := s[lastColon+1..], s[..lastColon];
      var firstColon := Index(rest, ':');
      if firstColon < 0 then None else Some(Claims(rest[firstColon+1..], rest, mac))
  }

  function DecodeToken(token: string): (claims: Option<Claims>)
    ensures claims.Some? ==> ':' in claims.value.rest
  {
    var decoded := Base64Url.Decode(token);
    if decoded.None? then None else Fields(decoded.value)
  }

  predicate Validate(mac: Mac, secret: string, token: string, now: int) {
    var claims := DecodeToken(token);
    if claims.None? then false
    else
      var rest := claims.value.rest;
      var expiry := ParseInt(rest[..Index(rest, ':')]);
      if expiry.None? || now > expiry.value then false
      else claims.value.mac == mac(secret, rest)
  }

  /** The same checks once more, and before them those of the repository. */
  predicate ValidateForRepo(mac: Mac, secret: string, token: string, repo: string, now: int) {
    if repo == "" then false
    else
      var claims := DecodeToken(token);
      if claims.None? || claims.value.name != repo then false
      else
        var rest := claims.value.rest;
        var expiry := ParseInt(rest[..Index(rest, ':')]);
        if expiry.None? || now > expiry.value then false
        else claims.value.mac == mac(secret, rest)
  }

  /** The name may contain colons: only the first and the last colon of the text separate. */
  lemma FieldsOf(expiry: string, name: string, mac: string)
    requires ':' !in expiry && ':' !in mac
    ensures Fields(Payload(expiry, name) + [':'] + mac) == Some(Claims(name, Payload(expiry, name), mac))
  {
    var rest := Payload(expiry, name);
    var s := rest + [':'] + mac;
    LastIndexBefore(rest, ':', mac);
    IndexAfter(expiry, ':', name);
    assert s[..|rest|] == rest && s[|rest|+1..] == mac;
    assert rest[|expiry|+1..] == name;
  }

  /** And nothing else decodes to three fields: the text is always fields and colons put together. */
  lemma FieldsInverse(s: string)
    requires Fields(s).Some?
    ensures var c := Fields(s).value;
      && s == c.rest + [':'] + c.mac && ':' !in c.mac
      && exists expiry :: ':' !in expiry && c.rest == Payload(expiry, c.name)
  {
    var c := Fields(s).value;
    var lastColon, firstColon := LastIndex(s, ':'), Index(c.rest, ':');
    CutAt(s, lastColon);
    CutAt(c.rest, firstColon);
    assert ':' !in c.rest[..firstColon] && c.rest == Payload(c.rest[..firstColon], c.name);
  }

  /** The printed token consists of bytes, so that it can be encoded, whenever name and hash do. */
  lemma RawBytes(mac: Mac, secret: string, name: string, now: int)
    requires Hexadecimal(mac) && Base64Url.Bytes(name)
    ensures Base64Url.Bytes(Raw(mac, secret, Payload(FormatInt(now + TTL), name)))
  {
    FormatIsPlain(now + TTL);
  }

  /** Decoding a minted token returns the name and the signed text it was minted for. */
  lemma DecodeMinted(mac: Mac, secret: string, name: string, now: int)
    requires Hexadecimal(mac) && Base64Url.Bytes(name)
    ensures Base64Url.Bytes(Raw(mac, secret, Payload(FormatInt(now + TTL), name)))
    ensures var payload := Payload(FormatInt(now + TTL), name);
      DecodeToken(Mint(mac, secret, name, now)) == Some(Claims(name, payload, mac(secret, payload)))
  {
    RawBytes(mac, secret, name, now);
    FormatIsPlain(now + TTL);
    var expiry := FormatInt(now + TTL);
    hide FormatInt, Payload, Base64Url.Bytes, Base64Url.Encode, Base64Url.Decode, Fields;
    Base64Url.DecodeEncode(Raw(mac, secret, Payload(expiry, name)));
    FieldsOf(expiry, name, mac(secret, Payload(expiry, name)));
  }

  /** A minted token is accepted up to fifteen minutes after it was minted, and not a second longer. */
  lemma MintedUntilExpiry(mac: Mac, secret: string, name: string, minted: int, now: int)
    requires Hexadecimal(mac) && Base64Url.Bytes(name)
    requires MIN_INT64 <= minted + TTL <= MAX_INT64
    ensures Base64Url.Bytes(Raw(mac, secret, Payload(FormatInt(minted + TTL), name)))
    ensures Validate(mac, secret, Mint(mac, secret, name, minted), now) <==> now <= minted + 900
  {
    DecodeMinted(mac, secret, name, minted);
    FormatIsPlain(minted + TTL);
    ParseFormat(minted + TTL);
    var expiry := FormatInt(minted + TTL);
    hide FormatInt, ParseInt, Base64Url.Bytes, Mint, DecodeToken;
    IndexAfter(expiry, ':', name);
    assert Payload(expiry, name)[..|expiry|] == expiry;
  }

  /** Validation for a repository adds only the name: it must be the repository's, and not empty. */
  lemma RepoValidation(mac: Mac, secret: string, token: string, repo: string, now: int)
    ensures ValidateForRepo(mac, secret, token, repo, now) <==>
      Validate(mac, secret, token, now) && repo != "" && DecodeToken(token).value.name == repo
  {
  }

  /** A minted token opens its own repository, for as long as it lives, and no other. */
  lemma MintedForRepo(mac: Mac, secret: string, name: string, repo: string, minted: int, now: int)
    requires Hexadecimal(mac) && Base64Url.Bytes(name)
    requires MIN_INT64 <= minted + TTL <= MAX_INT64
    ensures Base64Url.Bytes(Raw(mac, secret, Payload(FormatInt(minted + TTL), name)))
    ensures ValidateForRepo(mac, secret, Mint(mac, secret, name, minted), repo, now) <==>
      repo == name != "" && now <= minted + TTL
  {
    DecodeMinted(mac, secret, name, minted);
    MintedUntilExpiry(mac, secret, name, minted, now);
    RepoValidation(mac, secret, Mint(mac, secret, name, minted), repo, now);
  }

  /**
   * The accepted tokens, exactly: those whose decoded text is an unexpired expiry, a name and the
   * hash of these two, with colons between.
   */
  lemma AcceptedExactly(mac: Mac, secret: string, token: string, now: int)
    requires Hexadecimal(mac)
    ensures Validate(mac, secret, token, now) <==>
      exists expiry, name :: Accepts(mac, secret, token, now, expiry, name)
  {
    var text := Base64Url.Decode(token);
    hide Base64Url.Bytes, ParseInt, Base64Url.Decode;
    if Validate(mac, secret, token, now) {
      var claims := DecodeToken(token).value;
      FieldsInverse(text.value);
      hide Fields, DecodeToken;
      var expiry :| ':' !in expiry && claims.rest == Payload(expiry, claims.name);
      IndexAfter(expiry, ':', claims.name);
      assert claims.rest[..|expiry|] == expiry;
      assert Accepts(mac, secret, token, now, expiry, claims.name);
    }
    forall expiry, name | Accepts(mac, secret, token, now, expiry, name)
      ensures Validate(mac, secret, token, now)
    {
      FieldsOf(expiry, name, mac(secret, Payload(expiry, name)));
      IndexAfter(expiry, ':', name);
      assert Payload(expiry, name)[..|expiry|] == expiry;
    }
  }

  /** The same with the name: it is the one that the token decodes to. */
  lemma NamedExactly(mac: Mac, secret: string, token: string, now: int, name: string)
    requires Hexadecimal(mac)
    ensures Validate(mac, secret, token, now) && DecodeToken(token).value.name == name <==>
      exists expiry :: Accepts(mac, secret, token, now, expiry, name)
  {
    hide Validate, ParseInt, Base64Url.Decode;
    AcceptedExactly(mac, secret, token, now);
    forall expiry, other | Accepts(mac, secret, token, now, expiry, other)
      ensures DecodeToken(token).Some? && DecodeToken(token).value.name == other
    {
      FieldsOf(expiry, other, mac(secret, Payload(expiry, other)));
    }
  }

  predicate Accepts(mac: Mac, secret: string, token: string, now: int, expiry: string, name: string) {
    && ':' !in expiry
    && Base64Url.Decode(token) == Some(Raw(mac, secret, Payload(expiry, name)))
    && ParseInt(expiry).Some? && now <= ParseInt(expiry).value
  }
}
