/**
 * The clone-on-write builder of src/connection_builder_b.rs: each setter
 * clones the receiver and changes one field of the clone, so a builder is a
 * value and every setter a record update; `build` only reads its receiver.
 */
module ConnectionBuilderB {
  import opened Wrappers
  import opened Text

  datatype Protocol = Tcp | Udp

  datatype Connection = Connection(address: string, port: U16, protocol: Protocol, encryption: bool)

  /** The message `build` fails with when no port was set. */
  const PortRequired := "port is required"

  datatype ConnectionBuilder = ConnectionBuilder(
    address: string,
    port: Option<U16>,
    protocol: Protocol,
    encryption: bool)
  {
    /** `ConnectionBuilder::default()`: loopback address, no port, UDP, unencrypted. */
    static function Default(): (b: ConnectionBuilder)
      ensures b.address == "127.0.0.1" && b.port == None && b.protocol == Udp && !b.encryption
    {
      ConnectionBuilder("127.0.0.1", None, Udp, false)
    }

    function WithAddress(a: string): (b: ConnectionBuilder)
      ensures b.address == a
      ensures b.port == port && b.protocol == protocol && b.encryption == encryption
    {
      this.(address := a)
    }

    function WithProtocol(p: Protocol): (b: ConnectionBuilder)
      ensures b.protocol == p
      ensures b.address == address && b.port == port && b.encryption == encryption
    {
      this.(protocol := p)
    }

    function WithPort(p: U16): (b: ConnectionBuilder)
      ensures b.port == Some(p)
      ensures b.address == address && b.protocol == protocol && b.encryption == encryption
    {
      this.(port := Some(p))
    }

    function WithEncryption(e: bool): (b: ConnectionBuilder)
      ensures b.encryption == e
      ensures b.address == address && b.port == port && b.protocol == protocol
    {
      this.(encryption := e)
    }

    /**
     * Fails with "port is required" exactly when no port was set; otherwise
     * the connection copies address, protocol and encryption and unwraps the
     * port.
     */
    function Build(): (r: Result<Connection>)
      ensures r.Err? <==> port.None?
      ensures r.Err? ==> r.error == PortRequired
      ensures r.Ok? ==> r.value.address == address && r.value.protocol == protocol
      ensures r.Ok? ==> r.value.encryption == encryption && port == Some(r.value.port)
    {
      match port
      case None => Err(PortRequired)
      case Some(p) => Ok(Connection(address, p, protocol, encryption))
    }
  }

  /** `use_connection`: `format!("{}:{}", c.address, c.port)`. */
  function UseConnection(c: Connection): (s: string)
    ensures ParseEndpoint(s) == Some((c.address, c.port as nat))
  {
    EndpointRoundTrip(c.address, c.port);
    Endpoint(c.address, c.port)
  }

  /** Setters of different fields commute. */
  lemma SettersCommute(b: ConnectionBuilder, a: string, pr: Protocol, p: U16, e: bool)
    ensures b.WithAddress(a).WithProtocol(pr) == b.WithProtocol(pr).WithAddress(a)
    ensures b.WithAddress(a).WithPort(p) == b.WithPort(p).WithAddress(a)
    ensures b.WithAddress(a).WithEncryption(e) == b.WithEncryption(e).WithAddress(a)
    ensures b.WithProtocol(pr).WithPort(p) == b.WithPort(p).WithProtocol(pr)
    ensures b.WithProtocol(pr).WithEncryption(e) == b.WithEncryption(e).WithProtocol(pr)
    ensures b.WithPort(p).WithEncryption(e) == b.WithEncryption(e).WithPort(p)
  {
  }

  /** A second call of the same setter overrides the first: the last write wins. */
  lemma LastWriteWins(b: ConnectionBuilder, a1: string, a2: string, pr1: Protocol, pr2: Protocol,
                      p1: U16, p2: U16, e1: bool, e2: bool)
    ensures b.WithAddress(a1).WithAddress(a2) == b.WithAddress(a2)
    ensures b.WithProtocol(pr1).WithProtocol(pr2) == b.WithProtocol(pr2)
    ensures b.WithPort(p1).WithPort(p2) == b.WithPort(p2)
    ensures b.WithEncryption(e1).WithEncryption(e2) == b.WithEncryption(e2)
  {
  }

  /** Once a port is set, `build` succeeds, with that port, whatever else was set. */
  lemma BuildAfterPort(b: ConnectionBuilder, p: U16)
    ensures b.WithPort(p).Build() == Ok(Connection(b.address, p, b.protocol, b.encryption))
  {
  }
}
