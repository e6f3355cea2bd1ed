/** Tunnel datagrams: the wire format of captured UDP, with and without a lease identity, and its budget. */
module Tunnels {
  import opened Common
  import opened BigEndian

  const OUTER_HEADER := 13
  const INNER_HEADER := 43
  const AEAD_OVERHEAD := 16
  const FEC_PREFIX := 2
  const MIN_DATAGRAM := 1232
  const DEFAULT_DATAGRAM := 1352
  const MAX_DATAGRAM := 1452

  const MAGIC_V1: Bytes := [0x54, 0x47, 0x44, 0x01]
  const MAGIC_V2: Bytes := [0x54, 0x47, 0x44, 0x02]

  /** An address as the program holds it; an IPv6 address may carry a zone, which the wire does not. */
  datatype Addr = Invalid | V4(raw: Bytes) | V6(raw: Bytes, zone: string) {
    predicate WellFormed() {
      (V4? ==> |raw| == 4) && (V6? ==> |raw| == 16)
    }
  }

  datatype Identity = Identity(flow: Bytes, generation: nat, nonce: Bytes) {
    predicate WellFormed() {
      |flow| == 16 && |nonce| == 16 && generation < Pow256(8)
    }

    predicate IsZero() {
      Zero(flow) && generation == 0 && Zero(nonce)
    }

    predicate Complete() {
      !Zero(flow) && generation != 0 && !Zero(nonce)
    }
  }

  datatype Datagram = Datagram(identity: Identity, localIP: Addr, localPort: nat, remoteIP: Addr, remotePort: nat,
                               payload: Bytes)
  {
    predicate WellFormed() {
      && identity.WellFormed() && localIP.WellFormed() && remoteIP.WellFormed()
      && localPort < 65536 && remotePort < 65536
    }
  }

  predicate Zero(b: Bytes) {
    forall i :: 0 <= i < |b| ==> b[i] == 0
  }

  function NoIdentity(): (r: Identity)
    ensures r.WellFormed() && r.IsZero()
  {
    Identity(seq(16, _ => 0), 0, seq(16, _ => 0))
  }

  // ----- writing -----

  function EndpointWire(addr: Addr, port: nat): Bytes
    requires !addr.Invalid?
    requires addr.WellFormed()
  {
    [|addr.raw|] + addr.raw + Put(port, 2)
  }

  function IdentityWire(id: Identity): Bytes {
    id.flow + Put(id.generation, 8) + id.nonce
  }

  function Header(id: Identity): Bytes {
    if id.IsZero() then MAGIC_V1 else MAGIC_V2 + IdentityWire(id)
  }

  predicate Writable(d: Datagram) {
    !d.localIP.Invalid? && !d.remoteIP.Invalid? && (d.identity.IsZero() || d.identity.Complete())
  }

  ghost predicate Marked(b: Bytes) {
    exists i :: 0 <= i < |b| && b[i] > 0
  }

  /** A datagram can be written when it has both addresses, and all of an identity or nothing of it. */
  lemma WritableMeans(d: Datagram)
    ensures Writable(d) <==>
              && (d.localIP.V4? || d.localIP.V6?) && (d.remoteIP.V4? || d.remoteIP.V6?)
              && var id := d.identity;
                 || (Marked(id.flow) && id.generation > 0 && Marked(id.nonce))
                 || (!Marked(id.flow) && id.generation == 0 && !Marked(id.nonce))
  {
  }

  function Wire(d: Datagram): Bytes
    requires d.WellFormed() && Writable(d)
  {
    Header(d.identity) + (EndpointWire(d.localIP, d.localPort) + (EndpointWire(d.remoteIP, d.remotePort) + d.payload))
  }

  /** An address's length and bytes, and its port, high byte first. */
  ghost predicate IsEndpoint(wire: Bytes, raw: Bytes, port: nat) {
    && |wire| == 3 + |raw| && wire[0] == |raw| && wire[1..1 + |raw|] == raw
    && Get(wire[1 + |raw|..]) == port
  }

  /** The magic of the version; with an identity, then flow, generation and nonce. */
  ghost predicate IsHeader(wire: Bytes, id: Identity) {
    if id.IsZero() then wire == [0x54, 0x47, 0x44, 1]
    else
      && |wire| == 44 && wire[..4] == [0x54, 0x47, 0x44, 2] && wire[4..20] == id.flow
      && Get(wire[20..28]) == id.generation && wire[28..] == id.nonce
  }

  /** Where everything is: the header, the local and the remote endpoint, then the payload. */
  lemma WireLayout(d: Datagram)
    requires d.WellFormed() && Writable(d)
    ensures var data, local := Wire(d), if d.identity.IsZero() then 4 else 44;
            var remote := local + 3 + |d.localIP.raw|;
            var end := remote + 3 + |d.remoteIP.raw|;
            && |data| == end + |d.payload| && IsHeader(data[..local], d.identity)
            && IsEndpoint(data[local..remote], d.localIP.raw, d.localPort)
            && IsEndpoint(data[remote..end], d.remoteIP.raw, d.remotePort) && data[end..] == d.payload
  {
    HeaderLayout(d.identity);
    EndpointLayout(d.localIP, d.localPort);
    EndpointLayout(d.remoteIP, d.remotePort);
    Parts(Header(d.identity), EndpointWire(d.localIP, d.localPort), EndpointWire(d.remoteIP, d.remotePort), d.payload);
  }

  lemma Parts(a: Bytes, b: Bytes, c: Bytes, d: Bytes)
    ensures var whole, n, m := a + (b + (c + d)), |a| + |b|, |a| + |b| + |c|;
            whole[..|a|] == a && whole[|a|..n] == b && whole[n..m] == c && whole[m..] == d
  {
  }

  lemma HeaderLayout(id: Identity)
    requires id.WellFormed()
    ensures IsHeader(Header(id), id)
  {
    if !id.IsZero() {
      var head := Header(id);
      GetPut(id.generation, 8);
      assert head[..4] == MAGIC_V2 && head[4..20] == id.flow;
      assert head[20..28] == Put(id.generation, 8) && head[28..] == id.nonce;
    }
  }

  lemma EndpointLayout(addr: Addr, port: nat)
    requires !addr.Invalid? && addr.WellFormed() && port < 65536
    ensures IsEndpoint(EndpointWire(addr, port), addr.raw, port)
  {
    var wire, n := EndpointWire(addr, port), |addr.raw|;
    GetPut(port, 2);
    assert Pow256(2) == 65536;
    assert wire[1..1 + n] == addr.raw && wire[1 + n..] == Put(port, 2);
  }

  lemma Associates(a: Bytes, b: Bytes, c: Bytes, d: Bytes)
    ensures ((a + b) + c) + d == a + (b + (c + d))
  {
  }

  /** Appends the parts of a datagram to a buffer, in order. */
  method Marshal(d: Datagram) returns (r: Option<Bytes>)
    requires d.WellFormed()
    ensures r.Some? <==> Writable(d)
    ensures r.Some? ==> r.value == Wire(d)
  {
    if d.localIP.Invalid? || d.remoteIP.Invalid? {
      return None;
    }
    var out := MAGIC_V1;
    if !d.identity.IsZero() {
      if !d.identity.Complete() {
        return None;
      }
      out := MAGIC_V2;
      out := out + d.identity.flow;
      out := out + Put(d.identity.generation, 8);
      out := out + d.identity.nonce;
    }
    assert out == Header(d.identity);
    out := out + [|d.localIP.raw|] + d.localIP.raw + Put(d.localPort, 2);
    assert out == Header(d.identity) + EndpointWire(d.localIP, d.localPort);
    out := out + [|d.remoteIP.raw|] + d.remoteIP.raw + Put(d.remotePort, 2);
    assert out == Header(d.identity) + EndpointWire(d.localIP, d.localPort) + EndpointWire(d.remoteIP, d.remotePort);
    Associates(Header(d.identity), EndpointWire(d.localIP, d.localPort), EndpointWire(d.remoteIP, d.remotePort),
               d.payload);
    return Some(out + d.payload);
  }

  // ----- reading -----

  function AddrOf(raw: Bytes): Addr {
    if |raw| == 4 then V4(raw) else V6(raw, "")
  }

  /** An address and port at the front, and what follows them. */
  function ReadEndpoint(data: Bytes): Option<(Addr, nat, Bytes)> {
    if data == [] then None
    else
      var n: int := data[0];
      if n != 4 && n != 16 then None
      else if |data| < 1 + n + 2 then None
      else Some((AddrOf(data[1..1 + n]), Get(data[1 + n..3 + n]), data[3 + n..]))
  }

  function ReadIdentity(data: Bytes): Identity
    requires |data| == 40
  {
    Identity(data[..16], Get(data[16..24]), data[24..])
  }

  /** The version and identity at the front, and what follows them. */
  function ReadHeader(data: Bytes): Option<(Identity, Bytes)> {
    if |data| < 4 then None
    else if data[..4] == MAGIC_V1 then Some((NoIdentity(), data[4..]))
    else if data[..4] != MAGIC_V2 || |data| < 44 then None
    else
      var id := ReadIdentity(data[4..44]);
      if id.Complete() then Some((id, data[44..])) else None
  }

  function Parse(data: Bytes): Option<Datagram> {
    match ReadHeader(data)
    case None => None
    case Some((id, rest)) =>
      match ReadEndpoint(rest)
      case None => None
      case Some((localIP, localPort, rest')) =>
        match ReadEndpoint(rest')
        case None => None
        case Some((remoteIP, remotePort, payload)) =>
          Some(Datagram(id, localIP, localPort, remoteIP, remotePort, payload))
  }

  // ----- round trips -----

  predicate Zoneless(addr: Addr) {
    addr.V6? ==> addr.zone == ""
  }

  /** What the wire can carry of an address: everything but the zone. */
  function Bare(addr: Addr): Addr {
    if addr.V6? then V6(addr.raw, "") else addr
  }

  lemma EndpointRoundTrip(addr: Addr, port: nat, rest: Bytes)
    requires !addr.Invalid? && addr.WellFormed() && port < 65536
    ensures ReadEndpoint(EndpointWire(addr, port) + rest) == Some((Bare(addr), port, rest))
  {
    var n, data := |addr.raw|, EndpointWire(addr, port) + rest;
    GetPut(port, 2);
    assert data[1..1 + n] == addr.raw;
    assert data[1 + n..3 + n] == Put(port, 2);
    assert data[3 + n..] == rest;
  }

  lemma IdentityRoundTrip(id: Identity)
    requires id.WellFormed()
    ensures |IdentityWire(id)| == 40 && ReadIdentity(IdentityWire(id)) == id
  {
    var wire := IdentityWire(id);
    GetPut(id.generation, 8);
    assert wire[..16] == id.flow && wire[16..24] == Put(id.generation, 8) && wire[24..] == id.nonce;
  }

  lemma IdentityIsCanonical(data: Bytes)
    requires |data| == 40
    ensures ReadIdentity(data).WellFormed() && IdentityWire(ReadIdentity(data)) == data
  {
    PutGet(data[16..24]);
  }

  lemma HeaderRoundTrip(id: Identity, rest: Bytes)
    requires id.WellFormed() && (id.IsZero() || id.Complete())
    ensures ReadHeader(Header(id) + rest) == Some((id, rest))
  {
    var data := Header(id) + rest;
    if id.IsZero() {
      assert data[..4] == MAGIC_V1 && data[4..] == rest;
      assert id == NoIdentity();
    } else {
      IdentityRoundTrip(id);
      assert data[..4] == MAGIC_V2 && data[4..44] == IdentityWire(id) && data[44..] == rest;
    }
  }

  /** Reading what was written gives the datagram back, except for address zones. */
  lemma RoundTrip(d: Datagram)
    requires d.WellFormed() && Writable(d)
    ensures Parse(Wire(d)) == Some(d.(localIP := Bare(d.localIP), remoteIP := Bare(d.remoteIP)))
    ensures Parse(Wire(d)) == Some(d) <==> Zoneless(d.localIP) && Zoneless(d.remoteIP)
  {
    var remote := EndpointWire(d.remoteIP, d.remotePort) + d.payload;
    var local := EndpointWire(d.localIP, d.localPort) + remote;
    HeaderRoundTrip(d.identity, local);
    EndpointRoundTrip(d.localIP, d.localPort, remote);
    EndpointRoundTrip(d.remoteIP, d.remotePort, d.payload);
  }

  lemma EndpointIsCanonical(data: Bytes)
    requires ReadEndpoint(data).Some?
    ensures var (addr, port, rest) := ReadEndpoint(data).value;
            && addr.WellFormed() && !addr.Invalid? && Zoneless(addr) && port < 65536
            && EndpointWire(addr, port) + rest == data
  {
    var n: int := data[0];
    PutGet(data[1 + n..3 + n]);
    assert Pow256(2) == 65536;
    assert data == [data[0]] + data[1..1 + n] + data[1 + n..3 + n] + data[3 + n..];
  }

  lemma HeaderIsCanonical(data: Bytes)
    requires ReadHeader(data).Some?
    ensures var (id, rest) := ReadHeader(data).value;
            id.WellFormed() && (id.IsZero() || id.Complete()) && Header(id) + rest == data
  {
    if data[..4] != MAGIC_V1 {
      IdentityIsCanonical(data[4..44]);
      assert data == (data[..4] + data[4..44]) + data[44..];
    }
  }

  /** There is only one way to write a datagram: whatever parses is what writing it again gives. */
  lemma ParseIsCanonical(data: Bytes)
    requires Parse(data).Some?
    ensures Parse(data).value.WellFormed() && Writable(Parse(data).value) && Wire(Parse(data).value) == data
  {
    HeaderIsCanonical(data);
    var (id, rest) := ReadHeader(data).value;
    EndpointIsCanonical(rest);
    var (localIP, localPort, rest') := ReadEndpoint(rest).value;
    EndpointIsCanonical(rest');
  }
}
