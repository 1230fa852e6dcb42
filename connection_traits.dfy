/**
 * The trait design of src/connection_traits.rs: `Connectable` is implemented
 * by three structs, each formatting its own fields. The three implementors
 * are the three constructors of one datatype, and a trait method is a member
 * function matching on them. `describe` and `connect` take `&self`; values
 * are immutable here, so neither can change a field.
 */
module ConnectionTraits {
  import opened Wrappers
  import opened Text

  const TcpScheme := "tcp://"
  const UdpScheme := "udp://"
  const LocalScheme := "local://"
  const EncryptionFlag := " (encryption: "
  const TcpConnecting := "[TCP] Connecting to "
  const UdpConnecting := "[UDP] Connecting to "
  const LocalConnecting := "[Local] Connecting to local port "

  /** The implementors of `Connectable`. */
  datatype Connectable =
    | TcpConnection(address: string, port: U16, encryption: bool)
    | UdpConnection(address: string, port: U16)
    | LocalHostConnection(port: U16)
  {
    /** `Connectable::describe`; the scheme it starts with names the implementor. */
    function Describe(): (s: string)
      ensures TcpScheme <= s <==> TcpConnection?
      ensures UdpScheme <= s <==> UdpConnection?
      ensures LocalScheme <= s <==> LocalHostConnection?
    {
      var s := match this
        case TcpConnection(a, p, e) => TcpScheme + Endpoint(a, p) + FlagSuffix(EncryptionFlag, e)
        case UdpConnection(a, p) => UdpScheme + Endpoint(a, p)
        case LocalHostConnection(p) => LocalScheme + DecimalString(p);
      PrefixesExclusive(TcpScheme, UdpScheme, 0, s);
      PrefixesExclusive(TcpScheme, LocalScheme, 0, s);
      PrefixesExclusive(UdpScheme, LocalScheme, 0, s);
      s
    }

    /** The line `Connectable::connect` prints; its tag names the implementor. */
    function ConnectMessage(): (s: string)
      ensures TcpConnecting <= s <==> TcpConnection?
      ensures UdpConnecting <= s <==> UdpConnection?
      ensures LocalConnecting <= s <==> LocalHostConnection?
    {
      var s := match this
        case TcpConnection(a, p, e) => TcpConnecting + Endpoint(a, p) + FlagSuffix(EncryptionFlag, e)
        case UdpConnection(a, p) => UdpConnecting + Endpoint(a, p)
        case LocalHostConnection(p) => LocalConnecting + DecimalString(p);
      PrefixesExclusive(TcpConnecting, UdpConnecting, 1, s);
      PrefixesExclusive(TcpConnecting, LocalConnecting, 1, s);
      PrefixesExclusive(UdpConnecting, LocalConnecting, 1, s);
      s
    }
  }

  /** Reads a connection back from its description; only descriptions parse. */
  function ParseDescription(s: string): (r: Option<Connectable>)
    ensures r.Some? ==> s == r.value.Describe()
  {
    if TcpScheme <= s then
      var t :- ParseFlaggedEndpointAfter(TcpScheme, EncryptionFlag, s);
      Some(TcpConnection(t.0, t.1, t.2))
    else if UdpScheme <= s then
      var ep :- ParseEndpointAfter(UdpScheme, s);
      Some(UdpConnection(ep.0, ep.1))
    else
      var p :- ParsePortAfter(LocalScheme, s);
      Some(LocalHostConnection(p))
  }

  /** Reads a connection back from its `connect` line; only `connect` lines parse. */
  function ParseConnectMessage(s: string): (r: Option<Connectable>)
    ensures r.Some? ==> s == r.value.ConnectMessage()
  {
    if TcpConnecting <= s then
      var t :- ParseFlaggedEndpointAfter(TcpConnecting, EncryptionFlag, s);
      Some(TcpConnection(t.0, t.1, t.2))
    else if UdpConnecting <= s then
      var ep :- ParseEndpointAfter(UdpConnecting, s);
      Some(UdpConnection(ep.0, ep.1))
    else
      var p :- ParsePortAfter(LocalConnecting, s);
      Some(LocalHostConnection(p))
  }

  /** The description loses nothing: different connections describe differently. */
  lemma DescribeRoundTrip(c: Connectable)
    ensures ParseDescription(c.Describe()) == Some(c)
  {
    match c
    case TcpConnection(a, p, e) => TcpDescribeRoundTrip(a, p, e);
    case UdpConnection(a, p) => UdpDescribeRoundTrip(a, p);
    case LocalHostConnection(p) => LocalDescribeRoundTrip(p);
  }

  lemma TcpDescribeRoundTrip(a: string, p: U16, e: bool)
    ensures ParseDescription(TcpConnection(a, p, e).Describe()) == Some(TcpConnection(a, p, e))
  {
    FlaggedEndpointAfterRoundTrip(TcpScheme, a, p, EncryptionFlag, e);
  }

  lemma UdpDescribeRoundTrip(a: string, p: U16)
    ensures ParseDescription(UdpConnection(a, p).Describe()) == Some(UdpConnection(a, p))
  {
    EndpointAfterRoundTrip(UdpScheme, a, p);
  }

  lemma LocalDescribeRoundTrip(p: U16)
    ensures ParseDescription(LocalHostConnection(p).Describe()) == Some(LocalHostConnection(p))
  {
    PortAfterRoundTrip(LocalScheme, p);
  }

  /** Equal descriptions come from equal connections. */
  lemma DescribeInjective(c: Connectable, d: Connectable)
    ensures c.Describe() == d.Describe() <==> c == d
  {
    DescribeRoundTrip(c);
    DescribeRoundTrip(d);
  }

  /** A string parses to `c` exactly when it is `c`'s description. */
  lemma DescribeParsesExactly(s: string, c: Connectable)
    ensures ParseDescription(s) == Some(c) <==> s == c.Describe()
  {
    DescribeRoundTrip(c);
  }

  /** The `connect` line, too, names the connection exactly. */
  lemma ConnectMessageRoundTrip(c: Connectable)
    ensures ParseConnectMessage(c.ConnectMessage()) == Some(c)
  {
    match c
    case TcpConnection(a, p, e) => TcpConnectRoundTrip(a, p, e);
    case UdpConnection(a, p) => UdpConnectRoundTrip(a, p);
    case LocalHostConnection(p) => LocalConnectRoundTrip(p);
  }

  lemma TcpConnectRoundTrip(a: string, p: U16, e: bool)
    ensures ParseConnectMessage(TcpConnection(a, p, e).ConnectMessage()) == Some(TcpConnection(a, p, e))
  {
    FlaggedEndpointAfterRoundTrip(TcpConnecting, a, p, EncryptionFlag, e);
  }

  lemma UdpConnectRoundTrip(a: string, p: U16)
    ensures ParseConnectMessage(UdpConnection(a, p).ConnectMessage()) == Some(UdpConnection(a, p))
  {
    EndpointAfterRoundTrip(UdpConnecting, a, p);
  }

  lemma LocalConnectRoundTrip(p: U16)
    ensures ParseConnectMessage(LocalHostConnection(p).ConnectMessage()) == Some(LocalHostConnection(p))
  {
    PortAfterRoundTrip(LocalConnecting, p);
  }

  /** A string parses to `c` exactly when it is `c`'s `connect` line. */
  lemma ConnectMessageParsesExactly(s: string, c: Connectable)
    ensures ParseConnectMessage(s) == Some(c) <==> s == c.ConnectMessage()
  {
    ConnectMessageRoundTrip(c);
  }

  const GenericCaption := "→ [generic] "
  const DynCaption := "→ [dyn] "

  /**
   * The lines `use_connection_generic` prints: the description after its
   * caption, the `connect` line, and an empty line.
   */
  function UseConnectionGeneric(c: Connectable): (lines: seq<string>)
    ensures |lines| == 3 && GenericCaption <= lines[0]
    ensures ParseDescription(lines[0][|GenericCaption|..]) == Some(c)
    ensures ParseConnectMessage(lines[1]) == Some(c)
    ensures lines[2] == ""
  {
    var first := GenericCaption + c.Describe();
    assert first[|GenericCaption|..] == c.Describe();
    DescribeRoundTrip(c);
    ConnectMessageRoundTrip(c);
    [first, c.ConnectMessage(), ""]
  }

  /** The lines `use_connection_dyn` prints: as the generic entry point, another caption. */
  function UseConnectionDyn(c: Connectable): (lines: seq<string>)
    ensures |lines| == 3 && DynCaption <= lines[0]
    ensures ParseDescription(lines[0][|DynCaption|..]) == Some(c)
    ensures ParseConnectMessage(lines[1]) == Some(c)
    ensures lines[2] == ""
  {
    var first := DynCaption + c.Describe();
    assert first[|DynCaption|..] == c.Describe();
    DescribeRoundTrip(c);
    ConnectMessageRoundTrip(c);
    [first, c.ConnectMessage(), ""]
  }

  /** Static and dynamic dispatch print the same lines but for the caption. */
  lemma GenericMatchesDyn(c: Connectable)
    ensures UseConnectionGeneric(c)[1..] == UseConnectionDyn(c)[1..]
    ensures UseConnectionGeneric(c)[0][|GenericCaption|..] == UseConnectionDyn(c)[0][|DynCaption|..]
  {
    var g, d := UseConnectionGeneric(c), UseConnectionDyn(c);
    assert g[0][|GenericCaption|..] == c.Describe();
    assert d[0][|DynCaption|..] == c.Describe();
  }
}
