/**
 * The live `main` of src/main.rs: one base builder set to TCP, one
 * address-specific builder per group derived from it, and one connection per
 * port of the group's range, collected in order. The closing printout of the
 * list is left out; `BuildConnections` returns the list instead.
 */
module Demo {
  import opened Wrappers
  import opened Text
  import opened ConnectionBuilderB

  /** The address of group `g`. */
  function GroupAddress(g: nat): string
    requires g < 3
  {
    if g == 0 then "10.0.0.1" else if g == 1 then "10.0.0.2" else "127.0.0.1"
  }

  /** The connection `main` builds in position `i`: groups of ten, ports from 8080 on. */
  function ExpectedConnection(i: nat): (c: Connection)
    requires i < 30
    ensures c.port == 8080 + i && c.protocol == Tcp && !c.encryption
    ensures c.address == (if i < 10 then "10.0.0.1" else if i < 20 then "10.0.0.2" else "127.0.0.1")
  {
    Connection(GroupAddress(i / 10), 8080 + i, Tcp, false)
  }

  /**
   * The nested loop of `main`. `build()?` would return its error early; the
   * port is always set just before, so it never does and every group's ten
   * connections arrive in order.
   */
  method BuildConnections() returns (r: Result<seq<Connection>>)
    ensures r.Ok? && |r.value| == 30
    ensures forall i :: 0 <= i < 30 ==> r.value[i] == ExpectedConnection(i)
  {
    var baseBuilder := ConnectionBuilder.Default().WithProtocol(Tcp);
    var groups := [("10.0.0.1", 8080, 8090), ("10.0.0.2", 8090, 8100), ("127.0.0.1", 8100, 8110)];
    var connections: seq<Connection> := [];
    for g := 0 to |groups|
      invariant |connections| == 10 * g
      invariant forall i :: 0 <= i < |connections| ==> connections[i] == ExpectedConnection(i)
    {
      var (addr, lo, hi) := groups[g];
      assert addr == GroupAddress(g) && lo == 8080 + 10 * g && hi == lo + 10;
      var addrBuilder := baseBuilder.WithAddress(addr);
      for port := lo to hi
        invariant |connections| == 10 * g + (port - lo)
        invariant forall i :: 0 <= i < |connections| ==> connections[i] == ExpectedConnection(i)
      {
        match addrBuilder.WithPort(port).Build()
        case Err(e) =>
          return Err(e);
        case Ok(conn) =>
          assert (10 * g + (port - lo)) / 10 == g;
          connections := connections + [conn];
      }
    }
    return Ok(connections);
  }
}
