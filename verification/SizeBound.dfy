/** The size of everything that goes on the wire, from the MTU of the TUN device to the sealed datagram. */
module SizeBounds {
  import opened Common
  import FecCodec
  import Packets
  import opened Tunnels

  const WORST_TUN_OVERHEAD := 68
  const V4_TUN_OVERHEAD := 64
  const DEFAULT_MTU := 1280
  const MIN_MTU := 576
  const FRAMED := OUTER_HEADER + INNER_HEADER + AEAD_OVERHEAD + FEC_PREFIX
  const V2_OVERHEAD_V4 := FRAMED + 4 + 16 + 8 + 16 + 1 + 4 + 2 + 1 + 4 + 2
  const V2_OVERHEAD_V6 := FRAMED + 4 + 16 + 8 + 16 + 1 + 16 + 2 + 1 + 16 + 2

  function Normalize(limit: int): Option<nat> {
    var l := if limit == 0 then DEFAULT_DATAGRAM else limit;
    if l < MIN_DATAGRAM || l > MAX_DATAGRAM then None else Some(l)
  }

  function SealedSize(payload: nat): nat {
    OUTER_HEADER + INNER_HEADER + payload + AEAD_OVERHEAD
  }

  /** Sealing succeeds: the length fits its field and the datagram the limit. */
  predicate Seals(payload: nat, limit: nat) {
    payload <= 0xffff && SealedSize(payload) <= limit
  }

  /** The configuration check of MTU against datagram size. */
  predicate Configured(mtu: int, limit: int) {
    var m := if mtu == 0 then DEFAULT_MTU else mtu;
    m >= MIN_MTU && m + WORST_TUN_OVERHEAD <= limit
  }

  /** An MTU from 576 to the limit less 68 is accepted; none stands for 1280. */
  lemma ConfiguredMeans(mtu: int, limit: int)
    ensures Configured(mtu, limit) <==> (mtu == 0 && 1348 <= limit) || 576 <= mtu <= limit - 68
  {
  }

  /** The datagram the client makes of a captured UDP packet. */
  function Tunnelled(flow: Packets.Flow, payload: Bytes): (d: Datagram)
    requires Packets.Usable(flow.local) && Packets.Usable(flow.remote)
    ensures d.WellFormed() && Writable(d)
  {
    Datagram(NoIdentity(), AddrOf(flow.local.addr), flow.local.port, AddrOf(flow.remote.addr), flow.remote.port,
             payload)
  }

  lemma WireSize(d: Datagram)
    requires d.WellFormed() && Writable(d)
    ensures |Wire(d)| == 4 + (if d.identity.IsZero() then 0 else 40) + 1 + |d.localIP.raw| + 2
                         + 1 + |d.remoteIP.raw| + 2 + |d.payload|
  {
  }

  /** From IP packet to framed shard: an IPv6 packet that is all payload gains exactly 68 bytes, an IPv4 one
      exactly 64, and no packet more. */
  lemma TunnelOverhead(packet: Bytes)
    requires Packets.Extract(packet).Ok?
    ensures var (flow, payload) := Packets.Extract(packet).value;
            && Packets.Usable(flow.local) && Packets.Usable(flow.remote)
            && var sealed := SealedSize(|Wire(Tunnelled(flow, payload))| + FEC_PREFIX);
               && sealed <= |packet| + WORST_TUN_OVERHEAD
               && (Packets.IsV4(flow.local) ==> sealed <= |packet| + V4_TUN_OVERHEAD)
               && (Packets.IsV6(flow.local) && |packet| == 48 + |payload| ==> sealed == |packet| + WORST_TUN_OVERHEAD)
               && (Packets.IsV4(flow.local) && |packet| == 28 + |payload| ==> sealed == |packet| + V4_TUN_OVERHEAD)
  {
    Packets.PayloadFits(packet);
    var (flow, payload) := Packets.Extract(packet).value;
    WireSize(Tunnelled(flow, payload));
  }

  /** Payloads that fit a limit when framed and sealed. */
  ghost predicate AllSeal(payloads: seq<Bytes>, limit: nat) {
    forall i :: 0 <= i < |payloads| ==> Seals(|payloads[i]| + FEC_PREFIX, limit)
  }

  /** A group of payloads that fit can be encoded, and then every data, padding and parity shard of it seals
      within the limit too. */
  lemma GroupSeals(c: FecCodec.Codec, payloads: seq<Bytes>, k: nat, m: nat, limit: nat)
    requires AllSeal(payloads, limit) && MIN_DATAGRAM <= limit <= MAX_DATAGRAM
    requires FecCodec.ValidParams(k, m) && |payloads| <= k && FecCodec.Lawful(c, k, m)
    ensures FecCodec.Encodable(payloads, k, m)
    ensures var word := FecCodec.GroupWord(c, payloads, k, m);
            |word| == k + m && forall i :: 0 <= i < |word| ==> Seals(|word[i]|, limit)
  {
    FecCodec.ShardSizeBounds(payloads);
    var data := FecCodec.DataShards(payloads, k);
    assert FecCodec.Uniform(data, FecCodec.ShardSize(payloads));
    assert FecCodec.Uniform(c.parity(data, m), FecCodec.ShardSize(payloads));
    assert Seals(FecCodec.ShardSize(payloads), limit);
  }

  /** The tunnelled datagrams of IP packets. */
  function TunnelAll(packets: seq<Bytes>): seq<Bytes>
    requires forall i :: 0 <= i < |packets| ==> Packets.Extract(packets[i]).Ok?
  {
    seq(|packets|, i requires 0 <= i < |packets| =>
      TunnelOverhead(packets[i]);
      Wire(Tunnelled(Packets.Extract(packets[i]).value.0, Packets.Extract(packets[i]).value.1)))
  }

  /** End to end: under a configuration that was accepted and a negotiated limit that is not below it, every
      packet no longer than the MTU, and every repair shard of a group of them, goes out in one datagram. */
  lemma EndToEnd(c: FecCodec.Codec, packets: seq<Bytes>, k: nat, m: nat, mtu: int, configured: int, negotiated: nat)
    requires Normalize(configured).Some? && Configured(mtu, Normalize(configured).value)
    requires Normalize(configured).value <= negotiated <= MAX_DATAGRAM
    requires forall i :: 0 <= i < |packets| ==>
               Packets.Extract(packets[i]).Ok? && |packets[i]| <= if mtu == 0 then DEFAULT_MTU else mtu
    requires FecCodec.ValidParams(k, m) && |packets| <= k && FecCodec.Lawful(c, k, m)
    ensures AllSeal(TunnelAll(packets), negotiated)
    ensures FecCodec.Encodable(TunnelAll(packets), k, m)
    ensures forall i :: 0 <= i < k + m ==> Seals(|FecCodec.GroupWord(c, TunnelAll(packets), k, m)[i]|, negotiated)
  {
    forall i | 0 <= i < |packets|
      ensures Seals(|TunnelAll(packets)[i]| + FEC_PREFIX, negotiated)
    {
      TunnelOverhead(packets[i]);
    }
    GroupSeals(c, TunnelAll(packets), k, m, negotiated);
  }

  // ----- captured UDP -----

  /** The largest payload of a lease-bound datagram between two addresses of one family. */
  function PayloadBudget(limit: int, localIP: Addr, remoteIP: Addr): Option<nat> {
    match Normalize(limit)
    case None => None
    case Some(l) =>
      if localIP.Invalid? || remoteIP.Invalid? || localIP.V4? != remoteIP.V4? then None
      else
        var overhead := if localIP.V4? then V2_OVERHEAD_V4 else V2_OVERHEAD_V6;
        if l <= overhead then None else Some(l - overhead)
  }

  /** The budget is exact: a lease-bound datagram seals within the limit if and only if its payload does not
      exceed it. */
  lemma BudgetIsExact(d: Datagram, limit: int)
    requires d.WellFormed() && Writable(d) && !d.identity.IsZero() && PayloadBudget(limit, d.localIP, d.remoteIP).Some?
    ensures |d.payload| <= PayloadBudget(limit, d.localIP, d.remoteIP).value
            <==> Seals(|Wire(d)| + FEC_PREFIX, Normalize(limit).value)
  {
    WireSize(d);
  }

  /** Limits from 1232 to 1452 are accepted, and none stands for 1352; every one of them leaves room in both families,
      132 bytes less for IPv4 and 156 for IPv6, and there is a budget in no other case. */
  lemma BudgetExists(limit: int, localIP: Addr, remoteIP: Addr)
    ensures Normalize(limit) == if limit == 0 then Some(1352) else if 1232 <= limit <= 1452 then Some(limit) else None
    ensures PayloadBudget(limit, localIP, remoteIP) ==
            if Normalize(limit).None? then None
            else if localIP.V4? && remoteIP.V4? then Some(Normalize(limit).value - 132)
            else if localIP.V6? && remoteIP.V6? then Some(Normalize(limit).value - 156)
            else None
    ensures PayloadBudget(limit, localIP, remoteIP).Some? ==> PayloadBudget(limit, localIP, remoteIP).value >= 1076
  {
  }

  predicate LeaseBound(d: Datagram, limit: int) {
    && d.WellFormed() && Writable(d) && !d.identity.IsZero()
    && PayloadBudget(limit, d.localIP, d.remoteIP).Some?
    && |d.payload| <= PayloadBudget(limit, d.localIP, d.remoteIP).value
  }

  function WireAll(datagrams: seq<Datagram>, limit: int): seq<Bytes>
    requires forall i :: 0 <= i < |datagrams| ==> LeaseBound(datagrams[i], limit)
  {
    seq(|datagrams|, i requires 0 <= i < |datagrams| =>
      assert LeaseBound(datagrams[i], limit);
      Wire(datagrams[i]))
  }

  /** The same end to end for captured payloads within their budget. */
  lemma CapturedEndToEnd(c: FecCodec.Codec, datagrams: seq<Datagram>, k: nat, m: nat, limit: int)
    requires Normalize(limit).Some? && forall i :: 0 <= i < |datagrams| ==> LeaseBound(datagrams[i], limit)
    requires FecCodec.ValidParams(k, m) && |datagrams| <= k && FecCodec.Lawful(c, k, m)
    ensures AllSeal(WireAll(datagrams, limit), Normalize(limit).value)
            && FecCodec.Encodable(WireAll(datagrams, limit), k, m)
    ensures forall i :: 0 <= i < k + m ==>
              Seals(|FecCodec.GroupWord(c, WireAll(datagrams, limit), k, m)[i]|, Normalize(limit).value)
  {
    forall i | 0 <= i < |datagrams|
      ensures Seals(|WireAll(datagrams, limit)[i]| + FEC_PREFIX, Normalize(limit).value)
    {
      BudgetIsExact(datagrams[i], limit);
    }
    GroupSeals(c, WireAll(datagrams, limit), k, m, Normalize(limit).value);
  }
}
