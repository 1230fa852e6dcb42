# Connection configuration variants, modelled in Dafny

The repository is a set of small variants of a "connection configuration"
value. This model covers all of them:

- a **mutating builder** (`src/connection_builder_a.rs`) and its two
  `connect!` macro arms;
- a **clone-on-write builder** (`src/connection_builder_b.rs`) and
  `use_connection`;
- a **plain sum type** (`src/connection_enum.rs`) with `describe`, `connect`
  and `use_connection`;
- a **trait with three implementors** (`src/connection_traits.rs`) and its
  generic and `dyn` entry points;
- a **hybrid** enum whose variants box a trait object
  (`src/connection_hybrid.rs`), with `describe`, `connect`, `as_dyn` and its
  two entry points;
- the live **`main`** (`src/main.rs`), which builds 30 connections with the
  clone-on-write builder in a nested loop.

Modules, one per source file, plus two helpers:

| file | module | form |
|---|---|---|
| `wrappers.dfy` | `Wrappers` | `Option`, and `Result` with a string error |
| `text.dfy` | `Text` | `u16`, decimal and `bool` rendering as `{}` prints them, `address:port`, and a parser beside each renderer with a round-trip lemma |
| `connection_builder_a.dfy` | `ConnectionBuilderA` | a class whose setters assign one field (`modifies this`) |
| `connection_builder_b.dfy` | `ConnectionBuilderB` | a datatype whose setters are record updates |
| `connection_enum.dfy` | `ConnectionEnum` | a datatype with `Describe` / `ConnectMessage` |
| `connection_traits.dfy` | `ConnectionTraits` | the three implementors as the constructors of one datatype |
| `connection_hybrid.dfy` | `ConnectionHybrid` | tags wrapping a `ConnectionTraits.Connectable` payload |
| `demo.dfy` | `Demo` | the nested loop of `main` as a method with invariants |

Every `println!` becomes a returned string: `connect` returns its line as
`ConnectMessage`, and each `use_*` helper returns the sequence of lines it
prints. Each element is the text of one `println!`, without the newline that
`println!` adds. The arrows and indentation are kept as the source prints
them.

Every output format has a parser beside it (`ParseDescription`,
`ParseConnectMessage`, `Text.ParseEndpoint`). A parser accepts only what the
format prints: numbers are read only in the form `{}` writes them, with no
leading zero. The round-trip lemmas prove both directions: a line parses to a
connection exactly when it is that connection's line. So each format loses
nothing, and a contract that says "this line parses to c" pins the line
exactly. The scheme or opening words name the variant. The address, port and
encryption flag read back exactly, even when the address itself contains a
colon, because the split is at the last colon and a port never contains one.

Properties of the code worth knowing:
- No constructor or setter checks the address or the port. Port 0 and empty
  addresses are accepted everywhere.
- The hybrid enum does not tie a tag to its payload's kind. `Tcp` may hold a
  `LocalHostConnection`, and then it describes itself as `local://…`
  (`ConnectionHybrid.TagIgnored`).
- The hybrid payloads print `[TCP] Connecting to …`. Only the plain enum says
  `Connecting via TCP to …`.
- The plain enum's description says `(encrypted: …)`. The trait and hybrid
  descriptions say `(encryption: …)`.

## Model

| member | source | states |
|---|---|---|
| `ConnectionBuilderA.ConnectionBuilder.Default` | src/connection_builder_a.rs:25-34 | the default builder has address "127.0.0.1", no port, protocol Udp, encryption off |
| `ConnectionBuilderA.ConnectionBuilder.SetAddress` | src/connection_builder_a.rs:38-41 | sets the address; port, protocol and encryption unchanged |
| `ConnectionBuilderA.ConnectionBuilder.SetProtocol` | src/connection_builder_a.rs:43-46 | sets the protocol; the other three fields unchanged |
| `ConnectionBuilderA.ConnectionBuilder.SetPort` | src/connection_builder_a.rs:48-51 | the port becomes `Some(p)` whatever it was, so the last port set wins; the other fields unchanged |
| `ConnectionBuilderA.ConnectionBuilder.SetEncryption` | src/connection_builder_a.rs:53-56 | sets the encryption flag; the other three fields unchanged |
| `ConnectionBuilderA.ConnectionBuilder.Build` | src/connection_builder_a.rs:61-68 | fails exactly when no port was set, and then with "port is required"; on success copies address, protocol, encryption and the port that was set |
| `ConnectionBuilderA.Connect` | src/connection_builder_a.rs:83-88 | `connect!(a, p)` always succeeds, with address a, port p, Udp, no encryption |
| `ConnectionBuilderA.ConnectEncrypted` | src/connection_builder_a.rs:90-96 | `connect!(a, p, e)` always succeeds and differs from the two-argument form only in encryption e |
| `ConnectionBuilderB.ConnectionBuilder.Default` | src/connection_builder_b.rs:27-36 | the default builder has address "127.0.0.1", no port, protocol Udp, encryption off |
| `ConnectionBuilderB.ConnectionBuilder.WithAddress` | src/connection_builder_b.rs:41-45 | a new builder with the address replaced and every other field as in the receiver |
| `ConnectionBuilderB.ConnectionBuilder.WithProtocol` | src/connection_builder_b.rs:48-52 | a new builder with the protocol replaced and every other field as in the receiver |
| `ConnectionBuilderB.ConnectionBuilder.WithPort` | src/connection_builder_b.rs:55-59 | a new builder whose port is `Some(p)`, every other field as in the receiver |
| `ConnectionBuilderB.ConnectionBuilder.WithEncryption` | src/connection_builder_b.rs:61-65 | a new builder with the encryption flag replaced and every other field as in the receiver |
| `ConnectionBuilderB.ConnectionBuilder.Build` | src/connection_builder_b.rs:68-75 | fails exactly when the port is unset, with "port is required"; on success copies address, protocol, encryption and unwraps the port; a function of the builder, so repeated builds agree |
| `ConnectionBuilderB.SettersCommute` | src/connection_builder_b.rs:41-65 | setters of different fields commute |
| `ConnectionBuilderB.LastWriteWins` | src/connection_builder_b.rs:41-65 | a second call of a setter overrides the first, so repeating a setter with one value is idempotent |
| `ConnectionBuilderB.BuildAfterPort` | src/connection_builder_b.rs:55-75 | once a port is set, build succeeds with that port and the builder's other fields |
| `ConnectionBuilderB.UseConnection` | src/connection_builder_b.rs:79-81 | the line is exactly the address, ":" and the port in decimal as `{}` prints it: the one string that splits at its last colon into them |
| `ConnectionEnum.Connection.Describe` | src/connection_enum.rs:53-68 | total over the variants; begins with "tcp://", "udp://" or "local://" exactly for Tcp, Udp, LocalHost |
| `ConnectionEnum.Connection.ConnectMessage` | src/connection_enum.rs:27-51 | the connect line begins with "Connecting via TCP to ", "Connecting via UDP to " or "Connecting to local service on port " exactly for Tcp, Udp, LocalHost |
| `ConnectionEnum.DescribeRoundTrip` | src/connection_enum.rs:53-68 | every description parses back to the connection it came from |
| `ConnectionEnum.TcpDescribeRoundTrip` | src/connection_enum.rs:55-62 | "tcp://a:p (encrypted: e)" parses back to Tcp(a, p, e) |
| `ConnectionEnum.UdpDescribeRoundTrip` | src/connection_enum.rs:63-65 | "udp://a:p" parses back to Udp(a, p) |
| `ConnectionEnum.LocalDescribeRoundTrip` | src/connection_enum.rs:66-66 | "local://p" parses back to LocalHost(p) |
| `ConnectionEnum.DescribeParsesExactly` | src/connection_enum.rs:53-68 | a string parses to c if and only if it is c's description |
| `ConnectionEnum.ConnectMessageRoundTrip` | src/connection_enum.rs:27-51 | every connect line parses back to the connection it came from |
| `ConnectionEnum.TcpConnectRoundTrip` | src/connection_enum.rs:34-37 | "Connecting via TCP to a:p (encryption: e)" parses back to Tcp(a, p, e) |
| `ConnectionEnum.UdpConnectRoundTrip` | src/connection_enum.rs:42-42 | "Connecting via UDP to a:p" parses back to Udp(a, p) |
| `ConnectionEnum.LocalConnectRoundTrip` | src/connection_enum.rs:47-47 | "Connecting to local service on port p" parses back to LocalHost(p) |
| `ConnectionEnum.ConnectMessageParsesExactly` | src/connection_enum.rs:27-51 | a string parses to c if and only if it is c's connect line |
| `ConnectionEnum.UseConnection` | src/connection_enum.rs:71-80 | exactly three lines: "→ Using enum connection: " then c's description, c's connect line, then "← Done.\n" |
| `ConnectionTraits.Connectable.Describe` | src/connection_traits.rs:22-62 | begins with "tcp://", "udp://" or "local://" exactly for the TCP, UDP and local implementor |
| `ConnectionTraits.Connectable.ConnectMessage` | src/connection_traits.rs:30-66 | begins with "[TCP] Connecting to ", "[UDP] Connecting to " or "[Local] Connecting to local port " exactly for the TCP, UDP and local implementor |
| `ConnectionTraits.DescribeRoundTrip` | src/connection_traits.rs:22-62 | every description parses back to the value it came from |
| `ConnectionTraits.TcpDescribeRoundTrip` | src/connection_traits.rs:23-28 | "tcp://a:p (encryption: e)" parses back to TcpConnection(a, p, e) |
| `ConnectionTraits.UdpDescribeRoundTrip` | src/connection_traits.rs:45-47 | "udp://a:p" parses back to UdpConnection(a, p) |
| `ConnectionTraits.LocalDescribeRoundTrip` | src/connection_traits.rs:60-62 | "local://p" parses back to LocalHostConnection(p) |
| `ConnectionTraits.DescribeInjective` | src/connection_traits.rs:22-62 | two values describe alike if and only if they are equal |
| `ConnectionTraits.DescribeParsesExactly` | src/connection_traits.rs:22-62 | a string parses to c if and only if it is c's description |
| `ConnectionTraits.ConnectMessageRoundTrip` | src/connection_traits.rs:30-66 | every connect line parses back to the value it came from |
| `ConnectionTraits.TcpConnectRoundTrip` | src/connection_traits.rs:30-35 | "[TCP] Connecting to a:p (encryption: e)" parses back to TcpConnection(a, p, e) |
| `ConnectionTraits.UdpConnectRoundTrip` | src/connection_traits.rs:49-51 | "[UDP] Connecting to a:p" parses back to UdpConnection(a, p) |
| `ConnectionTraits.LocalConnectRoundTrip` | src/connection_traits.rs:64-66 | "[Local] Connecting to local port p" parses back to LocalHostConnection(p) |
| `ConnectionTraits.ConnectMessageParsesExactly` | src/connection_traits.rs:30-66 | a string parses to c if and only if it is c's connect line |
| `ConnectionTraits.UseConnectionGeneric` | src/connection_traits.rs:75-79 | exactly three lines: "→ [generic] " then c's description, c's connect line, an empty line |
| `ConnectionTraits.UseConnectionDyn` | src/connection_traits.rs:82-86 | exactly three lines: "→ [dyn] " then c's description, c's connect line, an empty line |
| `ConnectionTraits.GenericMatchesDyn` | src/connection_traits.rs:75-86 | the generic and dyn entry points print the same lines except for the caption |
| `ConnectionHybrid.Connection.AsDyn` | src/connection_hybrid.rs:120-126 | the payload held by whichever tag |
| `ConnectionHybrid.Connection.Describe` | src/connection_hybrid.rs:98-104 | equals `as_dyn().describe()` for every tag |
| `ConnectionHybrid.Connection.ConnectMessage` | src/connection_hybrid.rs:107-113 | equals the connect line of `as_dyn()` for every tag |
| `ConnectionHybrid.DescribeIdentifiesPayload` | src/connection_hybrid.rs:90-104 | two connections describe alike if and only if they hold the same payload, whatever their tags; the "only if" half holds because the payload is one of the three implementors |
| `ConnectionHybrid.TagIgnored` | src/connection_hybrid.rs:90-113 | one payload under Tcp, Udp or Local describes and connects identically |
| `ConnectionHybrid.UseEnumConnection` | src/connection_hybrid.rs:134-142 | exactly three lines: "→ [enum] " then the payload's description, its connect line, then a trailer naming the tag (TCP, UDP, Local) exactly for that tag |
| `ConnectionHybrid.UseConnectionTrait` | src/connection_hybrid.rs:145-149 | exactly three lines: "→ [trait] " then c's description, c's connect line, an empty line |
| `ConnectionHybrid.EnumAndTraitViewsAgree` | src/connection_hybrid.rs:134-149 | the enum view and the `as_dyn` view print the same description and connect line |
| `Demo.ExpectedConnection` | src/main.rs:66-70 | entry i has port 8080 + i, protocol Tcp, no encryption, and address "10.0.0.1", "10.0.0.2" or "127.0.0.1" for i in 0–9, 10–19, 20–29 |
| `Demo.BuildConnections` | src/main.rs:61-89 | `build()?` never fails, so `main` reaches `Ok`; the list holds exactly 30 connections, entry i being `ExpectedConnection(i)` |

The payload types of `src/connection_hybrid.rs` (lines 22-74) repeat those of
`src/connection_traits.rs` character for character. The `ConnectionTraits`
members above therefore also state the hybrid payload formats.

## Left out

- Console output: `println!` is modelled by returning the printed lines; the
  `{:?}` Debug output is not modelled. This covers `use_connection` in
  `src/connection_builder_a.rs` and the listing at the end of `main`
  (`src/main.rs:84-87`).
- Ownership: builder A's setters take and return the builder by value. The
  model updates one object in place instead. Builder A's `build` consumes the
  builder, but the model's `Build` leaves it usable.
- Open polymorphism: `Connectable` is a trait that new types could implement.
  The model closes it to the three implementors of the source, because Dafny
  traits are not used here. `Box<dyn …>`, `as_ref` and lifetimes have no
  counterpart.
- Clone-on-write: that `base_builder` and each `addr_builder` in `main` stay
  unchanged holds by construction, because builders are immutable values.
  No separate statement of it exists.
- `main`'s conversion of the error into `Box<dyn Error>`: errors stay strings.
  `BuildConnections` returns the list that `main` prints, instead of `Ok(())`.
- The commented-out `main` functions and comment blocks, the macro's hygiene
  and arity matching beyond its two arms, and the socket calls mentioned in
  comments, which are never executed.
