/**
 * How the connection models render values into text: Rust's `Display` for
 * `u16` and `bool`, and the `address:port` endpoint that every format uses.
 * Each rendering has a parser beside it and a lemma that parsing undoes
 * rendering, so that the formats built from them can be shown injective.
 * A flag is read back only as part of its closing suffix (`ParseFlagSuffix`).
 */
module Text {
  import opened Wrappers

  /** Rust's `u16`, the type of every port. */
  type U16 = n: int | 0 <= n < 0x1_0000

  predicate IsDigit(c: char) {
    '0' <= c <= '9'
  }

  predicate AllDigits(s: string) {
    forall i :: 0 <= i < |s| ==> IsDigit(s[i])
  }

  function DigitChar(d: nat): (c: char)
    requires d < 10
    ensures IsDigit(c) && c as int - '0' as int == d
  {
    ('0' as int + d) as char
  }

  function DigitValue(c: char): (d: nat)
    requires IsDigit(c)
    ensures d < 10
  {
    c as int - '0' as int
  }

  /**
   * `{}` applied to an unsigned integer: decimal digits, no sign, and no
   * leading zero except for the number zero itself.
   */
  function DecimalString(n: nat): (s: string)
    ensures 0 < |s| && AllDigits(s)
    ensures s[0] == '0' <==> n == 0
    ensures n == 0 ==> s == "0"
    decreases n
  {
    if n < 10 then [DigitChar(n)] else DecimalString(n / 10) + [DigitChar(n % 10)]
  }

  /** The number a string of decimal digits denotes. */
  function DigitsValue(s: string): nat
    requires AllDigits(s)
  {
    if s == [] then 0 else 10 * DigitsValue(s[..|s| - 1]) + DigitValue(s[|s| - 1])
  }

  /** The shape `{}` gives a number: digits, and no leading zero unless it is "0". */
  predicate Canonical(s: string) {
    0 < |s| && AllDigits(s) && (s[0] == '0' ==> |s| == 1)
  }

  /**
   * Reads a number written as `{}` writes it, and nothing else: "08080" and
   * "" are refused, so a string that parses is the rendering of its value.
   */
  function ParseDecimal(s: string): (r: Option<nat>)
    ensures r.Some? <==> Canonical(s)
    ensures r.Some? ==> s == DecimalString(r.value)
  {
    if Canonical(s) then
      CanonicalRendering(s);
      Some(DigitsValue(s))
    else
      None
  }

  /** Rendering the value of a canonical digit string gives that string back. */
  lemma {:induction false} CanonicalRendering(s: string)
    requires Canonical(s)
    ensures DecimalString(DigitsValue(s)) == s
    ensures 1 < |s| ==> 10 <= DigitsValue(s)
    decreases |s|
  {
    var last := s[|s| - 1];
    if |s| == 1 {
      assert s == [] + [last];
      assert DigitsValue(s) == DigitValue(last);
      assert DigitChar(DigitValue(last)) == last;
    } else {
      var t := s[..|s| - 1];
      assert s == t + [last];
      assert t[0] == s[0];
      CanonicalRendering(t);
      if |t| == 1 {
        assert DigitsValue(t) == DigitsValue([]) * 10 + DigitValue(t[0]);
      }
      var n := DigitsValue(s);
      assert n == 10 * DigitsValue(t) + DigitValue(last);
      assert n / 10 == DigitsValue(t) && n % 10 == DigitValue(last);
      assert DigitChar(DigitValue(last)) == last;
    }
  }

  lemma {:induction false} DecimalValue(n: nat)
    ensures DigitsValue(DecimalString(n)) == n
    decreases n
  {
    var s := DecimalString(n);
    if n >= 10 {
      var t := DecimalString(n / 10);
      DecimalValue(n / 10);
      assert s == t + [DigitChar(n % 10)];
      assert s[..|s| - 1] == t;
    }
  }

  /** Reading back a rendered number gives that number. */
  lemma DecimalRoundTrip(n: nat)
    ensures ParseDecimal(DecimalString(n)) == Some(n)
  {
    DecimalValue(n);
  }

  /** Reads a port: a decimal number, as `{}` writes it, that fits in a `u16`. */
  function ParsePort(s: string): (r: Option<U16>)
    ensures r.Some? ==> s == DecimalString(r.value)
  {
    var n :- ParseDecimal(s);
    if n < 0x1_0000 then Some(n) else None
  }

  lemma PortRoundTrip(p: U16)
    ensures ParsePort(DecimalString(p)) == Some(p)
  {
    DecimalRoundTrip(p);
  }

  /** `{}` applied to a `bool`. */
  function BoolString(b: bool): string {
    if b then "true" else "false"
  }

  /** The last position of `c` in `s`, if any. */
  function LastIndexOf(s: string, c: char): (r: Option<nat>)
    ensures r.Some? ==> r.value < |s| && s[r.value] == c
    ensures r.Some? ==> forall j :: r.value < j < |s| ==> s[j] != c
    ensures r.None? <==> forall j :: 0 <= j < |s| ==> s[j] != c
  {
    if |s| == 0 then None
    else if s[|s| - 1] == c then Some(|s| - 1)
    else LastIndexOf(s[..|s| - 1], c)
  }

  /** `format!("{}:{}", address, port)`. */
  function Endpoint(address: string, port: nat): string {
    address + ":" + DecimalString(port)
  }

  /**
   * Splits an endpoint at its last colon. The port never contains a colon,
   * so the address may (an IPv6 literal, say) without making this ambiguous.
   */
  function ParseEndpoint(s: string): (r: Option<(string, nat)>)
    ensures r.Some? ==> s == Endpoint(r.value.0, r.value.1)
  {
    match LastIndexOf(s, ':')
    case None => None
    case Some(i) =>
      var port :- ParseDecimal(s[i + 1..]);
      assert s == s[..i] + ":" + s[i + 1..];
      Some((s[..i], port))
  }

  lemma EndpointRoundTrip(address: string, port: nat)
    ensures ParseEndpoint(Endpoint(address, port)) == Some((address, port))
  {
    var d := DecimalString(port);
    var s := Endpoint(address, port);
    var k := |address|;
    assert s[k] == ':';
    assert forall j :: k < j < |s| ==> s[j] == d[j - k - 1];
    var r := LastIndexOf(s, ':');
    assert r.Some?;
    assert r.value == k;
    assert s[..k] == address;
    assert s[k + 1..] == d;
    DecimalRoundTrip(port);
  }

  /** A string splits into `address` and `port` exactly when it is their endpoint. */
  lemma EndpointParsesExactly(s: string, address: string, port: nat)
    ensures ParseEndpoint(s) == Some((address, port)) <==> s == Endpoint(address, port)
  {
    EndpointRoundTrip(address, port);
  }

  /** Reads an endpoint whose port fits in a `u16`. */
  function ParseAddressPort(s: string): (r: Option<(string, U16)>)
    ensures r.Some? ==> s == Endpoint(r.value.0, r.value.1)
  {
    var ep :- ParseEndpoint(s);
    if ep.1 < 0x1_0000 then Some((ep.0, ep.1 as U16)) else None
  }

  lemma AddressPortRoundTrip(address: string, port: U16)
    ensures ParseAddressPort(Endpoint(address, port)) == Some((address, port))
  {
    EndpointRoundTrip(address, port);
  }

  /** Two prefixes that differ at some position cannot both begin one string. */
  lemma PrefixesExclusive(p: string, q: string, i: nat, s: string)
    requires i < |p| && i < |q| && p[i] != q[i]
    ensures p <= s ==> !(q <= s)
  {
  }

  predicate EndsWith(s: string, suffix: string) {
    |suffix| <= |s| && s[|s| - |suffix|..] == suffix
  }

  function StripSuffix(suffix: string, s: string): (r: Option<string>)
    ensures r.Some? <==> EndsWith(s, suffix)
    ensures r.Some? ==> s == r.value + suffix
  {
    if EndsWith(s, suffix) then Some(s[..|s| - |suffix|]) else None
  }

  lemma StripSuffixOf(body: string, suffix: string)
    ensures StripSuffix(suffix, body + suffix) == Some(body)
  {
  }

  /** `format!("{}{})", caption, flag)`: a boolean flag closing a parenthesis. */
  function FlagSuffix(caption: string, flag: bool): string {
    caption + BoolString(flag) + ")"
  }

  /** Splits `s` into what precedes a trailing flag suffix and the flag. */
  function ParseFlagSuffix(caption: string, s: string): (r: Option<(string, bool)>)
    ensures r.Some? ==> s == r.value.0 + FlagSuffix(caption, r.value.1)
  {
    match StripSuffix(FlagSuffix(caption, true), s)
    case Some(body) => Some((body, true))
    case None =>
      var body :- StripSuffix(FlagSuffix(caption, false), s);
      Some((body, false))
  }

  lemma FlagSuffixRoundTrip(body: string, caption: string, flag: bool)
    ensures ParseFlagSuffix(caption, body + FlagSuffix(caption, flag)) == Some((body, flag))
  {
    var s := body + FlagSuffix(caption, flag);
    StripSuffixOf(body, FlagSuffix(caption, flag));
    if !flag {
      // "false)" and "true)" already differ five characters from the end
      var t := FlagSuffix(caption, true);
      assert s[|s| - 5] == 'a' && t[|t| - 5] == 't';
      assert |t| <= |s| ==> s[|s| - |t|..][|t| - 5] == s[|s| - 5];
    }
  }

  /** `format!("{}{}", prefix, port)`, read back. */
  function ParsePortAfter(prefix: string, s: string): (r: Option<U16>)
    ensures r.Some? ==> s == prefix + DecimalString(r.value)
  {
    if prefix <= s then
      var p :- ParsePort(s[|prefix|..]);
      assert s == prefix + s[|prefix|..];
      Some(p)
    else
      None
  }

  lemma PortAfterRoundTrip(prefix: string, port: U16)
    ensures ParsePortAfter(prefix, prefix + DecimalString(port)) == Some(port)
  {
    assert (prefix + DecimalString(port))[|prefix|..] == DecimalString(port);
    PortRoundTrip(port);
  }

  /** `format!("{}{}:{}", prefix, address, port)`, read back. */
  function ParseEndpointAfter(prefix: string, s: string): (r: Option<(string, U16)>)
    ensures r.Some? ==> s == prefix + Endpoint(r.value.0, r.value.1)
  {
    if prefix <= s then
      var ep :- ParseAddressPort(s[|prefix|..]);
      assert s == prefix + s[|prefix|..];
      Some(ep)
    else
      None
  }

  lemma EndpointAfterRoundTrip(prefix: string, address: string, port: U16)
    ensures ParseEndpointAfter(prefix, prefix + Endpoint(address, port)) == Some((address, port))
  {
    assert (prefix + Endpoint(address, port))[|prefix|..] == Endpoint(address, port);
    AddressPortRoundTrip(address, port);
  }

  /** `format!("{}{}:{}{}{})", prefix, address, port, caption, flag)`, read back. */
  function ParseFlaggedEndpointAfter(prefix: string, caption: string, s: string): (r: Option<(string, U16, bool)>)
    ensures r.Some? ==> s == prefix + Endpoint(r.value.0, r.value.1) + FlagSuffix(caption, r.value.2)
  {
    if prefix <= s then
      var flagged :- ParseFlagSuffix(caption, s[|prefix|..]);
      var ep :- ParseAddressPort(flagged.0);
      assert s == prefix + s[|prefix|..];
      Some((ep.0, ep.1, flagged.1))
    else
      None
  }

  lemma FlaggedEndpointAfterRoundTrip(prefix: string, address: string, port: U16, caption: string, flag: bool)
    ensures ParseFlaggedEndpointAfter(prefix, caption, prefix + Endpoint(address, port) + FlagSuffix(caption, flag))
         == Some((address, port, flag))
  {
    var body := Endpoint(address, port) + FlagSuffix(caption, flag);
    assert prefix + Endpoint(address, port) + FlagSuffix(caption, flag) == prefix + body;
    assert (prefix + body)[|prefix|..] == body;
    FlagSuffixRoundTrip(Endpoint(address, port), caption, flag);
    AddressPortRoundTrip(address, port);
  }
}
