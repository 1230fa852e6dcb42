/**
 * The hybrid design of src/connection_hybrid.rs: an enum of three tags, each
 * holding a boxed `Connectable`. The enum-level `describe` and `connect` and
 * `as_dyn` all just hand the call to the payload, whatever the tag.
 *
 * The payload types and their formats are those of src/connection_traits.rs
 * (the hybrid file repeats them verbatim), so the payload is
 * `ConnectionTraits.Connectable`. Nothing ties the tag to the payload's kind.
 */
module ConnectionHybrid {
  import opened Wrappers
  import opened ConnectionTraits

  datatype Connection =
    | Tcp(Connectable)
    | Udp(Connectable)
    | Local(Connectable)
  {
    /** `as_dyn`: the boxed payload, whichever tag holds it. */
    function AsDyn(): (c: Connectable)
      ensures this == Tcp(c) || this == Udp(c) || this == Local(c)
    {
      match this
      case Tcp(c) => c
      case Udp(c) => c
      case Local(c) => c
    }

    /** Matching on the tag gives what calling through `as_dyn` gives. */
    function Describe(): (s: string)
      ensures s == AsDyn().Describe()
    {
      match this
      case Tcp(c) => c.Describe()
      case Udp(c) => c.Describe()
      case Local(c) => c.Describe()
    }

    /** Matching on the tag gives the `connect` line calling through `as_dyn` gives. */
    function ConnectMessage(): (s: string)
      ensures s == AsDyn().ConnectMessage()
    {
      match this
      case Tcp(c) => c.ConnectMessage()
      case Udp(c) => c.ConnectMessage()
      case Local(c) => c.ConnectMessage()
    }
  }

  /**
   * The description is decided by the payload alone: two connections
   * describe alike exactly when they hold the same payload, whatever their
   * tags. The "if" half is the delegation of `describe` to the payload; the
   * "only if" half rests on the payload being one of the three implementors,
   * whose descriptions are injective (`DescribeInjective`), and would not
   * survive an implementor added outside them.
   */
  lemma DescribeIdentifiesPayload(x: Connection, y: Connection)
    ensures x.Describe() == y.Describe() <==> x.AsDyn() == y.AsDyn()
  {
    DescribeInjective(x.AsDyn(), y.AsDyn());
  }

  /** The same payload under any tag describes and connects identically. */
  lemma TagIgnored(c: Connectable)
    ensures Tcp(c).Describe() == Udp(c).Describe() == Local(c).Describe() == c.Describe()
    ensures Tcp(c).ConnectMessage() == Udp(c).ConnectMessage() == Local(c).ConnectMessage() == c.ConnectMessage()
  {
  }

  const EnumCaption := "→ [enum] "
  const TraitCaption := "→ [trait] "
  const TcpTrailer := "   ↳ handled as TCP variant\n"
  const UdpTrailer := "   ↳ handled as UDP variant\n"
  const LocalTrailer := "   ↳ handled as Local variant\n"

  /**
   * The lines `use_enum_connection` prints: the description after its
   * caption, the `connect` line, and a trailer chosen by the tag alone.
   */
  function UseEnumConnection(conn: Connection): (lines: seq<string>)
    ensures |lines| == 3 && EnumCaption <= lines[0]
    ensures ParseDescription(lines[0][|EnumCaption|..]) == Some(conn.AsDyn())
    ensures ParseConnectMessage(lines[1]) == Some(conn.AsDyn())
    ensures lines[2] == TcpTrailer <==> conn.Tcp?
    ensures lines[2] == UdpTrailer <==> conn.Udp?
    ensures lines[2] == LocalTrailer <==> conn.Local?
  {
    var first := EnumCaption + conn.Describe();
    assert first[|EnumCaption|..] == conn.Describe();
    DescribeRoundTrip(conn.AsDyn());
    ConnectMessageRoundTrip(conn.AsDyn());
    var trailer := match conn
      case Tcp(_) => TcpTrailer
      case Udp(_) => UdpTrailer
      case Local(_) => LocalTrailer;
    [first, conn.ConnectMessage(), trailer]
  }

  /** The lines `use_connection_trait` prints for a `&dyn Connectable`. */
  function UseConnectionTrait(c: Connectable): (lines: seq<string>)
    ensures |lines| == 3 && TraitCaption <= lines[0]
    ensures ParseDescription(lines[0][|TraitCaption|..]) == Some(c)
    ensures ParseConnectMessage(lines[1]) == Some(c)
    ensures lines[2] == ""
  {
    var first := TraitCaption + c.Describe();
    assert first[|TraitCaption|..] == c.Describe();
    DescribeRoundTrip(c);
    ConnectMessageRoundTrip(c);
    [first, c.ConnectMessage(), ""]
  }

  /**
   * Both views of one connection print the same description and the same
   * `connect` line; only the caption and the last line differ.
   */
  lemma EnumAndTraitViewsAgree(conn: Connection)
    ensures UseEnumConnection(conn)[0][|EnumCaption|..]
         == UseConnectionTrait(conn.AsDyn())[0][|TraitCaption|..]
    ensures UseEnumConnection(conn)[1] == UseConnectionTrait(conn.AsDyn())[1]
  {
    var e, t := UseEnumConnection(conn), UseConnectionTrait(conn.AsDyn());
    assert e[0][|EnumCaption|..] == conn.Describe();
    assert t[0][|TraitCaption|..] == conn.AsDyn().Describe();
  }
}
