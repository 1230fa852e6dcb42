/**
 * The plain sum type of src/connection_enum.rs: a connection is TCP, UDP or
 * local, and `describe` and `connect` are one `match` each. `connect` prints
 * one line; here it returns that line.
 */
module ConnectionEnum {
  import opened Wrappers
  import opened Text

  const TcpScheme := "tcp://"
  const UdpScheme := "udp://"
  const LocalScheme := "local://"
  /** `describe` says "encrypted" where `connect` says "encryption". */
  const DescribeFlag := " (encrypted: "
  const ConnectFlag := " (encryption: "
  const TcpConnecting := "Connecting via TCP to "
  const UdpConnecting := "Connecting via UDP to "
  const LocalConnecting := "Connecting to local service on port "

  datatype Connection =
    | Tcp(address: string, port: U16, encryption: bool)
    | Udp(address: string, port: U16)
    | LocalHost(port: U16)
  {
    /**
     * A URI-like rendering; total over the three variants, and the scheme
     * it starts with names the variant.
     */
    function Describe(): (s: string)
      ensures TcpScheme <= s <==> Tcp?
      ensures UdpScheme <= s <==> Udp?
      ensures LocalScheme <= s <==> LocalHost?
    {
      var s := match this
        case Tcp(a, p, e) => TcpScheme + Endpoint(a, p) + FlagSuffix(DescribeFlag, e)
        case Udp(a, p) => UdpScheme + Endpoint(a, p)
        case LocalHost(p) => LocalScheme + DecimalString(p);
      PrefixesExclusive(TcpScheme, UdpScheme, 0, s);
      PrefixesExclusive(TcpScheme, LocalScheme, 0, s);
      PrefixesExclusive(UdpScheme, LocalScheme, 0, s);
      s
    }

    /** The line `connect` prints; its opening words name the variant. */
    function ConnectMessage(): (s: string)
      ensures TcpConnecting <= s <==> Tcp?
      ensures UdpConnecting <= s <==> Udp?
      ensures LocalConnecting <= s <==> LocalHost?
    {
      var s := match this
        case Tcp(a, p, e) => TcpConnecting + Endpoint(a, p) + FlagSuffix(ConnectFlag, e)
        case Udp(a, p) => UdpConnecting + Endpoint(a, p)
        case LocalHost(p) => LocalConnecting + DecimalString(p);
      PrefixesExclusive(TcpConnecting, UdpConnecting, 15, s);
      PrefixesExclusive(TcpConnecting, LocalConnecting, 11, s);
      PrefixesExclusive(UdpConnecting, LocalConnecting, 11, s);
      s
    }
  }

  /** Reads a connection back from its description; only descriptions parse. */
  function ParseDescription(s: string): (r: Option<Connection>)
    ensures r.Some? ==> s == r.value.Describe()
  {
    if TcpScheme <= s then
      var t :- ParseFlaggedEndpointAfter(TcpScheme, DescribeFlag, s);
      Some(Tcp(t.0, t.1, t.2))
    else if UdpScheme <= s then
      var ep :- ParseEndpointAfter(UdpScheme, s);
      Some(Udp(ep.0, ep.1))
    else
      var p :- ParsePortAfter(LocalScheme, s);
      Some(LocalHost(p))
  }

  /** Reads a connection back from its `connect` line; only `connect` lines parse. */
  function ParseConnectMessage(s: string): (r: Option<Connection>)
    ensures r.Some? ==> s == r.value.ConnectMessage()
  {
    if TcpConnecting <= s then
      var t :- ParseFlaggedEndpointAfter(TcpConnecting, ConnectFlag, s);
      Some(Tcp(t.0, t.1, t.2))
    else if UdpConnecting <= s then
      var ep :- ParseEndpointAfter(UdpConnecting, s);
      Some(Udp(ep.0, ep.1))
    else
      var p :- ParsePortAfter(LocalConnecting, s);
      Some(LocalHost(p))
  }

  /** The description loses nothing: different connections describe differently. */
  lemma DescribeRoundTrip(c: Connection)
    ensures ParseDescription(c.Describe()) == Some(c)
  {
    match c
    case Tcp(a, p, e) => TcpDescribeRoundTrip(a, p, e);
    case Udp(a, p) => UdpDescribeRoundTrip(a, p);
    case LocalHost(p) => LocalDescribeRoundTrip(p);
  }

  lemma TcpDescribeRoundTrip(a: string, p: U16, e: bool)
    ensures ParseDescription(Tcp(a, p, e).Describe()) == Some(Tcp(a, p, e))
  {
    FlaggedEndpointAfterRoundTrip(TcpScheme, a, p, DescribeFlag, e);
  }

  lemma UdpDescribeRoundTrip(a: string, p: U16)
    ensures ParseDescription(Udp(a, p).Describe()) == Some(Udp(a, p))
  {
    EndpointAfterRoundTrip(UdpScheme, a, p);
  }

  lemma LocalDescribeRoundTrip(p: U16)
    ensures ParseDescription(LocalHost(p).Describe()) == Some(LocalHost(p))
  {
    PortAfterRoundTrip(LocalScheme, p);
  }

  /** A string parses to `c` exactly when it is `c`'s description. */
  lemma DescribeParsesExactly(s: string, c: Connection)
    ensures ParseDescription(s) == Some(c) <==> s == c.Describe()
  {
    DescribeRoundTrip(c);
  }

  /** The `connect` line, too, names the connection exactly. */
  lemma ConnectMessageRoundTrip(c: Connection)
    ensures ParseConnectMessage(c.ConnectMessage()) == Some(c)
  {
    match c
    case Tcp(a, p, e) => TcpConnectRoundTrip(a, p, e);
    case Udp(a, p) => UdpConnectRoundTrip(a, p);
    case LocalHost(p) => LocalConnectRoundTrip(p);
  }

  lemma TcpConnectRoundTrip(a: string, p: U16, e: bool)
    ensures ParseConnectMessage(Tcp(a, p, e).ConnectMessage()) == Some(Tcp(a, p, e))
  {
    FlaggedEndpointAfterRoundTrip(TcpConnecting, a, p, ConnectFlag, e);
  }

  lemma UdpConnectRoundTrip(a: string, p: U16)
    ensures ParseConnectMessage(Udp(a, p).ConnectMessage()) == Some(Udp(a, p))
  {
    EndpointAfterRoundTrip(UdpConnecting, a, p);
  }

  lemma LocalConnectRoundTrip(p: U16)
    ensures ParseConnectMessage(LocalHost(p).ConnectMessage()) == Some(LocalHost(p))
  {
    PortAfterRoundTrip(LocalConnecting, p);
  }

  /** A string parses to `c` exactly when it is `c`'s `connect` line. */
  lemma ConnectMessageParsesExactly(s: string, c: Connection)
    ensures ParseConnectMessage(s) == Some(c) <==> s == c.ConnectMessage()
  {
    ConnectMessageRoundTrip(c);
  }

  const UsingCaption := "→ Using enum connection: "
  const DoneLine := "← Done.\n"

  /**
   * The lines `use_connection` prints: the description after a caption, the
   * `connect` line, then the closing line.
   */
  function UseConnection(c: Connection): (lines: seq<string>)
    ensures |lines| == 3 && UsingCaption <= lines[0]
    ensures ParseDescription(lines[0][|UsingCaption|..]) == Some(c)
    ensures ParseConnectMessage(lines[1]) == Some(c)
    ensures lines[2] == DoneLine
  {
    var first := UsingCaption + c.Describe();
    assert first[|UsingCaption|..] == c.Describe();
    DescribeRoundTrip(c);
    ConnectMessageRoundTrip(c);
    [first, c.ConnectMessage(), DoneLine]
  }
}
