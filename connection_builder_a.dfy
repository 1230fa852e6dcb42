/**
 * The mutating builder of src/connection_builder_a.rs: every setter takes the
 * builder by value, assigns one field and hands the builder back, and `build`
 * turns it into a `Connection` unless no port was ever set. Passing the
 * builder along by value is modelled as updating one object in place.
 */
module ConnectionBuilderA {
  import opened Wrappers
  import opened Text

  datatype Protocol = Tcp | Udp

  datatype Connection = Connection(address: string, port: U16, protocol: Protocol, encryption: bool)

  /** The message `build` fails with when no port was set. */
  const PortRequired := "port is required"

  class ConnectionBuilder {
    var address: string
    var port: Option<U16>
    var protocol: Protocol
    var encryption: bool

    /** `ConnectionBuilder::default()`: loopback address, no port, UDP, unencrypted. */
    constructor Default()
      ensures address == "127.0.0.1" && port == None && protocol == Udp && !encryption
    {
      address := "127.0.0.1";
      port := None;
      protocol := Udp;
      encryption := false;
    }

    method SetAddress(a: string)
      modifies this
      ensures address == a
      ensures port == old(port) && protocol == old(protocol) && encryption == old(encryption)
    {
      address := a;
    }

    method SetProtocol(p: Protocol)
      modifies this
      ensures protocol == p
      ensures address == old(address) && port == old(port) && encryption == old(encryption)
    {
      protocol := p;
    }

    /** Records `Some(p)` whatever was set before: the last port set wins. */
    method SetPort(p: U16)
      modifies this
      ensures port == Some(p)
      ensures address == old(address) && protocol == old(protocol) && encryption == old(encryption)
    {
      port := Some(p);
    }

    method SetEncryption(enabled: bool)
      modifies this
      ensures encryption == enabled
      ensures address == old(address) && port == old(port) && protocol == old(protocol)
    {
      encryption := enabled;
    }

    /**
     * Fails with "port is required" exactly when no port was set; otherwise
     * the connection carries the builder's fields, with the port unwrapped.
     */
    method Build() returns (r: Result<Connection>)
      ensures r.Err? <==> port.None?
      ensures r.Err? ==> r.error == PortRequired
      ensures r.Ok? ==> r.value.address == address && r.value.protocol == protocol
      ensures r.Ok? ==> r.value.encryption == encryption && port == Some(r.value.port)
    {
      match port
      case None =>
        r := Err(PortRequired);
      case Some(p) =>
        r := Ok(Connection(address, p, protocol, encryption));
    }
  }

  /** `connect!(addr, port)`: a default builder given an address and a port. */
  method Connect(addr: string, port: U16) returns (r: Result<Connection>)
    ensures r == Ok(Connection(addr, port, Udp, false))
  {
    var b := new ConnectionBuilder.Default();
    b.SetAddress(addr);
    b.SetPort(port);
    r := b.Build();
  }

  /** `connect!(addr, port, enc)`: as `Connect`, and the encryption flag set too. */
  method ConnectEncrypted(addr: string, port: U16, enc: bool) returns (r: Result<Connection>)
    ensures r == Ok(Connection(addr, port, Udp, enc))
  {
    var b := new ConnectionBuilder.Default();
    b.SetAddress(addr);
    b.SetPort(port);
    b.SetEncryption(enc);
    r := b.Build();
  }
}
