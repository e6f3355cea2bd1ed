/** The receiving side of forward error correction: groups under assembly, reconstruction, exactly-once
    delivery and the memory of completed groups. */
module FecReceivers {
  import opened Common
  import opened FecCodec
  import opened CompletedRings

  const MAX_GROUPS := 64
  const MAX_BUFFERED := 4194304
  const GROUP_LIFETIME := 30_000_000_000

  datatype Packet = Packet(group: nat, index: nat, total: nat, dataShards: nat, repair: bool, payload: Bytes)

  datatype Group = Group(dataShards: nat, shards: seq<Bytes>, delivered: seq<bool>, receivedAt: int)

  datatype FecError = InvalidParams | ShardTooLarge | ResourceLimit | ReconstructFailed

  /** Payloads handed to the stream, and how many of them were recovered rather than received. */
  datatype Delivery = Delivery(payloads: seq<Bytes>, recovered: nat)

  predicate GroupOk(g: Group) {
    && 1 <= g.dataShards < |g.shards| && |g.delivered| == g.dataShards
    && ValidParams(g.dataShards, |g.shards| - g.dataShards)
    && forall i :: 0 <= i < g.dataShards && g.delivered[i] ==> g.shards[i] != []
  }

  // ----- what the sender put on the wire -----

  /** A group as its sender closed it: the payloads in order, and once sealed its parameters are final. */
  datatype Sent = Sent(payloads: seq<Bytes>, k: nat, m: nat, sealed: bool) {
    ghost predicate Sealed(c: Codec) {
      sealed && Encodable(payloads, k, m) && |GroupWord(c, payloads, k, m)| == k + m
    }

    ghost predicate IsDataShard(i: nat, shard: Bytes) {
      i < |payloads| && i < k && FrameData(payloads[i], |payloads[i]| + LENGTH_PREFIX) == Some(shard)
    }

    ghost predicate IsWordShard(c: Codec, i: nat, shard: Bytes) {
      Sealed(c) && i < k + m && GroupWord(c, payloads, k, m)[i] == shard
    }
  }

  /** A packet the sender emitted for this group: a data shard framed to its own length, under whatever
      parity setting was current, or a padding or parity shard of the sealed group. */
  ghost predicate FromSender(c: Codec, s: Sent, p: Packet) {
    && p.dataShards == s.k < p.total && ValidParams(s.k, p.total - s.k)
    && if p.repair then p.total == s.k + s.m && |s.payloads| <= p.index && s.IsWordShard(c, p.index, p.payload)
       else s.IsDataShard(p.index, p.payload)
  }

  /** A group under assembly that holds only shards its sender emitted or that were rebuilt from them. */
  ghost predicate GroupFrom(c: Codec, s: Sent, g: Group) {
    && GroupOk(g) && g.dataShards == s.k
    && (forall i :: 0 <= i < |g.shards| && g.shards[i] != [] ==>
          s.IsDataShard(i, g.shards[i]) || (|g.shards| == s.k + s.m && s.IsWordShard(c, i, g.shards[i])))
    && (forall i :: 0 <= i < s.k && i < |s.payloads| ==> (g.shards[i] != [] <==> g.delivered[i]))
  }

  function AllDelivered(delivered: seq<bool>): bool {
    forall i :: 0 <= i < |delivered| ==> delivered[i]
  }

  /** What `Absorb` hands out is what was sent: index by index the original payload, each index new. */
  ghost predicate Faithful(s: Sent, indices: seq<nat>, payloads: seq<Bytes>) {
    |indices| == |payloads|
    && forall j :: 0 <= j < |indices| ==> indices[j] < s.k && payloads[j] == PayloadAt(s.payloads, indices[j])
  }

  /** Delivered flags moved forward by exactly the indices handed out. */
  ghost predicate Moved(g: Group, g': Group, indices: seq<nat>) {
    && |g'.shards| == |g.shards| && g'.dataShards == g.dataShards && g'.receivedAt == g.receivedAt
    && |g'.delivered| == |g.delivered|
    && Distinct(indices)
    && (forall j :: 0 <= j < |indices| ==>
          indices[j] < |g.delivered| && !g.delivered[indices[j]] && g'.delivered[indices[j]])
    && (forall i :: 0 <= i < |g.delivered| && g.delivered[i] ==> g'.delivered[i])
  }

  ghost predicate MovedOnly(g: Group, g': Group, indices: seq<nat>) {
    |g'.delivered| == |g.delivered|
    && forall i :: 0 <= i < |g.delivered| && g'.delivered[i] ==> g.delivered[i] || i in indices
  }

  /** Counting the shards that are there, and listing the data shards that are not. */
  method CountShards(shards: seq<Bytes>) returns (n: nat)
    ensures n == FecCodec.Present(shards)
  {
    n := 0;
    for i := 0 to |shards|
      invariant n == FecCodec.Present(shards[..i])
    {
      assert shards[..i + 1][..i] == shards[..i];
      if shards[i] != [] {
        n := n + 1;
      }
    }
    assert shards[..|shards|] == shards;
  }

  method MissingData(g: Group, shards: seq<Bytes>) returns (missing: seq<nat>)
    requires g.dataShards <= |shards|
    ensures Distinct(missing)
    ensures forall j :: 0 <= j < |missing| ==> missing[j] < g.dataShards && shards[missing[j]] == []
    ensures forall i :: 0 <= i < g.dataShards && shards[i] == [] ==> i in missing
  {
    missing := [];
    for i := 0 to g.dataShards
      invariant forall j :: 0 <= j < |missing| ==> missing[j] < i && shards[missing[j]] == []
      invariant Distinct(missing)
      invariant forall j :: 0 <= j < i && shards[j] == [] ==> j in missing
    {
      if shards[i] == [] {
        missing := missing + [i];
      }
    }
  }

  /** Decodes the rebuilt shards one by one; an undecodable one ends the loop with the flags set so far. */
  method DeliverMissing(delivered: seq<bool>, shards: seq<Bytes>, missing: seq<nat>)
    returns (delivered': seq<bool>, r: Option<seq<Bytes>>)
    requires |delivered| <= |shards|
    requires forall j :: 0 <= j < |missing| ==> missing[j] < |delivered|
    ensures |delivered'| == |delivered|
    ensures forall i :: 0 <= i < |delivered| && delivered[i] ==> delivered'[i]
    ensures forall i :: 0 <= i < |delivered| && delivered'[i] && !delivered[i] ==> shards[i] != []
    ensures r.Some? ==> |r.value| == |missing|
                        && (forall i :: 0 <= i < |delivered| ==> (delivered'[i] <==> delivered[i] || i in missing))
                        && forall j :: 0 <= j < |missing| ==> DecodeShard(shards[missing[j]]) == Some(r.value[j])
    ensures r.None? ==> exists j :: 0 <= j < |missing| && DecodeShard(shards[missing[j]]).None?
  {
    delivered' := delivered;
    var payloads: seq<Bytes> := [];
    for j := 0 to |missing|
      invariant |delivered'| == |delivered| && |payloads| == j
      invariant forall i :: 0 <= i < |delivered| && delivered'[i] && !delivered[i] ==> shards[i] != []
      invariant forall i :: 0 <= i < |delivered| ==> (delivered'[i] <==> delivered[i] || i in missing[..j])
      invariant forall n :: 0 <= n < j ==> DecodeShard(shards[missing[n]]) == Some(payloads[n])
    {
      var i := missing[j];
      var payload := DecodeShard(shards[i]);
      if payload.None? {
        return delivered', None;
      }
      delivered' := delivered'[i := true];
      payloads := payloads + [payload.value];
      assert missing[..j + 1] == missing[..j] + [i];
    }
    assert missing[..|missing|] == missing;
    r := Some(payloads);
  }

  /** No shard gets shorter. */
  ghost predicate Longer(shards: seq<Bytes>, shards': seq<Bytes>) {
    |shards'| == |shards| && forall i :: 0 <= i < |shards| ==> |shards[i]| <= |shards'[i]|
  }

  /** The arriving shard is kept with those that were there; in a full group that is not finished nothing else
      is. */
  ghost predicate Placed(s: Sent, g: Group, g': Group, index: nat) {
    && |g'.shards| == |g.shards|
    && (forall i :: 0 <= i < |g.shards| && (g.shards[i] != [] || i == index) ==> g'.shards[i] != [])
    && (|s.payloads| == s.k && !AllDelivered(g'.delivered) ==>
          forall i :: 0 <= i < |g.shards| && g'.shards[i] != [] ==> g.shards[i] != [] || i == index)
  }

  /** No shard of a codeword is empty or too large. */
  lemma WordShards(c: Codec, s: Sent, i: nat)
    requires Lawful(c, s.k, s.m) && s.Sealed(c) && i < s.k + s.m
    ensures 0 < |GroupWord(c, s.payloads, s.k, s.m)[i]| <= MAX_PAYLOAD
  {
    var data := DataShards(s.payloads, s.k);
    ShardSizeBounds(s.payloads);
    assert Uniform(data, ShardSize(s.payloads)) && Uniform(c.parity(data, s.m), ShardSize(s.payloads));
    var word := GroupWord(c, s.payloads, s.k, s.m);
    assert word[i] == if i < s.k then data[i] else c.parity(data, s.m)[i - s.k];
  }

  /** A shard of the sender is never empty. */
  lemma SentIsNotEmpty(c: Codec, s: Sent, g: Group, index: nat, repair: bool, payload: Bytes)
    requires Honest(c, s, g, index, repair, payload)
    ensures payload != []
  {
    if repair {
      WordShards(c, s, index);
    }
  }

  /** The arriving shard and the group it joins are the sender's. */
  ghost predicate Honest(c: Codec, s: Sent, g: Group, index: nat, repair: bool, payload: Bytes) {
    && GroupFrom(c, s, g) && Lawful(c, s.k, s.m)
    && if repair then |g.shards| == s.k + s.m && |s.payloads| <= index && s.IsWordShard(c, index, payload)
       else s.IsDataShard(index, payload)
  }

  /** A data shard is decoded and handed out at once. */
  method AbsorbData(c: Codec, g: Group, index: nat, payload: Bytes, ghost s: Sent)
    returns (g': Group, r: Result<Delivery, FecError>, ghost indices: seq<nat>)
    requires GroupOk(g) && index < g.dataShards && g.shards[index] == []
    ensures GroupOk(g') && Moved(g, g', indices)
    ensures if r.Ok? then |r.value.payloads| == |indices| && MovedOnly(g, g', indices) else indices == []
    ensures Honest(c, s, g, index, false, payload) ==>
              r.Ok? && GroupFrom(c, s, g') && Faithful(s, indices, r.value.payloads) && indices == [index]
    ensures Honest(c, s, g, index, false, payload) ==> Placed(s, g, g', index)
    ensures r.Ok? ==> r.value.recovered == 0
    ensures Longer(g.shards[index := payload], g'.shards)
  {
    if Honest(c, s, g, index, false, payload) {
      SentIsNotEmpty(c, s, g, index, false, payload);
    }
    g' := g.(shards := g.shards[index := payload]);
    indices := [];
    var decoded := DecodeShard(payload);
    if Honest(c, s, g, index, false, payload) {
      FrameRoundTrip(s.payloads[index], |s.payloads[index]| + LENGTH_PREFIX);
    }
    if decoded.None? {
      return g', Err(InvalidParams), [];
    }
    g' := g'.(delivered := g.delivered[index := true]);
    return g', Ok(Delivery([decoded.value], 0)), [index];
  }

  /** Any other shard may complete the quorum: then the missing data shards are rebuilt and handed out. */
  method AbsorbRepair(c: Codec, g: Group, index: nat, repair: bool, payload: Bytes, ghost s: Sent)
    returns (g': Group, r: Result<Delivery, FecError>, ghost indices: seq<nat>)
    requires GroupOk(g) && index < |g.shards| && g.shards[index] == [] && (repair || index >= g.dataShards)
    ensures GroupOk(g') && Moved(g, g', indices)
    ensures if r.Ok? then |r.value.payloads| == |indices| && MovedOnly(g, g', indices) else indices == []
    ensures Honest(c, s, g, index, repair, payload) ==>
              r.Ok? && GroupFrom(c, s, g') && Faithful(s, indices, r.value.payloads)
    ensures (Honest(c, s, g, index, repair, payload) && |s.payloads| == s.k
             && FecCodec.Present(g.shards[index := payload]) >= s.k) ==> AllDelivered(g'.delivered)
    ensures Honest(c, s, g, index, repair, payload) ==> Placed(s, g, g', index)
    ensures r.Ok? ==> r.value.recovered == |r.value.payloads|
    ensures Longer(g.shards[index := payload], g'.shards)
  {
    if Honest(c, s, g, index, repair, payload) {
      SentIsNotEmpty(c, s, g, index, repair, payload);
    }
    var shards := g.shards[index := payload];
    g' := g.(shards := shards);
    indices := [];
    var count := CountShards(shards);
    if count < g.dataShards {
      return g', Ok(Delivery([], 0)), [];
    }
    var missing := MissingData(g, shards);
    if missing == [] {
      return g', Ok(Delivery([], 0)), [];
    }
    ghost var honest := Honest(c, s, g, index, repair, payload);
    if honest {
      RepairRecovers(c, s, g, index, payload);
    }
    g', r, indices := Rebuild(c, g, shards, missing, s, honest);
    if honest {
      RebuiltIsFine(c, s, g, g', shards, index, payload, missing);
    }
  }

  /** The rebuilt group is the sender's codeword, and all of its payloads have been handed out. */
  lemma RebuiltIsFine(c: Codec, s: Sent, g: Group, g': Group, shards: seq<Bytes>, index: nat, payload: Bytes,
                      missing: seq<nat>)
    requires GroupFrom(c, s, g) && GroupOk(g') && Lawful(c, s.k, s.m) && s.Sealed(c) && |g.shards| == s.k + s.m
             && g'.dataShards == g.dataShards
    requires index < |g.shards| && |s.payloads| <= index && shards == g.shards[index := payload]
    requires g'.shards == GroupWord(c, s.payloads, s.k, s.m)
    requires forall i :: 0 <= i < s.k && shards[i] == [] ==> i in missing
    requires forall i :: 0 <= i < s.k ==> (g'.delivered[i] <==> g.delivered[i] || i in missing)
    ensures GroupFrom(c, s, g') && (|s.payloads| == s.k ==> AllDelivered(g'.delivered)) && Placed(s, g, g', index)
  {
    forall i | 0 <= i < |g'.shards|
      ensures s.IsWordShard(c, i, g'.shards[i]) && g'.shards[i] != []
    {
      WordShards(c, s, i);
    }
    forall i | 0 <= i < s.k && i < |s.payloads|
      ensures g'.delivered[i]
    {
      assert shards[i] == g.shards[i];
    }
  }

  method Rebuild(c: Codec, g: Group, shards: seq<Bytes>, missing: seq<nat>, ghost s: Sent, ghost honest: bool)
    returns (g': Group, r: Result<Delivery, FecError>, ghost indices: seq<nat>)
    requires GroupOk(g) && |shards| == |g.shards|
    requires forall i :: 0 <= i < |shards| && g.shards[i] != [] ==> shards[i] != []
    requires Distinct(missing)
    requires forall j :: 0 <= j < |missing| ==> missing[j] < g.dataShards && shards[missing[j]] == []
    requires honest ==> g.dataShards == s.k && |shards| == s.k + s.m && Recoverable(c, s, shards)
    ensures GroupOk(g') && Moved(g, g', indices)
    ensures if r.Ok? then |r.value.payloads| == |indices| && MovedOnly(g, g', indices) else indices == []
    ensures honest ==>
              && r.Ok? && indices == missing && Faithful(s, indices, r.value.payloads)
              && g'.shards == GroupWord(c, s.payloads, s.k, s.m)
              && forall i :: 0 <= i < s.k ==> (g'.delivered[i] <==> g.delivered[i] || i in missing)
    ensures r.Ok? ==> r.value.recovered == |r.value.payloads|
    ensures Longer(shards, g'.shards)
  {
    var ok, shards' := Complete(c, shards, g.dataShards, s, honest);
    g' := g.(shards := shards');
    if !ok {
      return g', Err(ReconstructFailed), [];
    }
    var delivered, payloads := DeliverMissing(g.delivered, shards', missing);
    g' := g'.(delivered := delivered);
    if payloads.None? {
      return g', Err(InvalidParams), [];
    }
    assert forall j :: 0 <= j < |missing| ==> missing[j] in missing;
    return g', Ok(Delivery(payloads.value, |payloads.value|)), missing;
  }

  /** Reconstruction loses no shard, and gives the sender's codeword if the shards determine it. */
  method Complete(c: Codec, shards: seq<Bytes>, k: nat, ghost s: Sent, ghost honest: bool)
    returns (ok: bool, shards': seq<Bytes>)
    requires k <= |shards| && (honest ==> k == s.k && |shards| == s.k + s.m && Recoverable(c, s, shards))
    ensures |shards'| == |shards| && forall i :: 0 <= i < |shards| && shards[i] != [] ==> shards'[i] != []
    ensures Longer(shards, shards')
    ensures honest ==> ok && shards' == GroupWord(c, s.payloads, s.k, s.m)
    ensures honest ==>
              forall i :: 0 <= i < s.k ==> DecodeShard(shards'[i]) == Some(PayloadAt(s.payloads, i)) && shards'[i] != []
  {
    ok, shards' := Reconstruct(c, shards, k, |shards| - k);
  }

  /** Reconstruction of these shards gives the sender's codeword, and every data shard of it decodes to
      the payload that was sent. */
  ghost predicate Recoverable(c: Codec, s: Sent, shards: seq<Bytes>) {
    && s.Sealed(c) && |shards| == s.k + s.m
    && var word := GroupWord(c, s.payloads, s.k, s.m);
       && c.rebuild(Normalized(shards), s.k, s.m) == Some(word)
       && Filled(Normalized(shards), word) == word
       && (forall i :: 0 <= i < |shards| ==> |shards[i]| <= MAX_PAYLOAD)
       && (forall i :: 0 <= i < s.k ==> DecodeShard(word[i]) == Some(PayloadAt(s.payloads, i)) && word[i] != [])
  }

  /** With an honest group and a quorum that includes a repair shard, reconstruction gives the codeword,
      every shard of which decodes to the payload that was sent. */
  lemma RepairRecovers(c: Codec, s: Sent, g: Group, index: nat, payload: Bytes)
    requires index < |g.shards| && Honest(c, s, g, index, true, payload)
    requires FecCodec.Present(g.shards[index := payload]) >= s.k
    ensures Recoverable(c, s, g.shards[index := payload])
  {
    var shards, word := g.shards[index := payload], GroupWord(c, s.payloads, s.k, s.m);
    var data := DataShards(s.payloads, s.k);
    ShardSizeBounds(s.payloads);
    assert Uniform(data, ShardSize(s.payloads)) && Uniform(c.parity(data, s.m), ShardSize(s.payloads));
    assert |shards[index]| == ShardSize(s.payloads);
    assert Arrived(c, s.payloads, s.k, s.m, shards);
    ReconstructionRecovers(c, s.payloads, s.k, s.m, shards);
    forall i | 0 <= i < s.k
      ensures DecodeShard(word[i]) == Some(PayloadAt(s.payloads, i)) && word[i] != []
    {
      FrameRoundTrip(PayloadAt(s.payloads, i), ShardSize(s.payloads));
    }
  }

  method Absorb(c: Codec, g: Group, index: nat, repair: bool, payload: Bytes, ghost s: Sent)
    returns (g': Group, r: Result<Delivery, FecError>, ghost indices: seq<nat>)
    requires GroupOk(g) && index < |g.shards| && g.shards[index] == []
    ensures GroupOk(g') && Moved(g, g', indices)
    ensures if r.Ok? then |r.value.payloads| == |indices| && MovedOnly(g, g', indices) else indices == []
    ensures Honest(c, s, g, index, repair, payload) ==>
              r.Ok? && GroupFrom(c, s, g') && Faithful(s, indices, r.value.payloads)
    ensures (Honest(c, s, g, index, repair, payload) && repair && |s.payloads| == s.k
             && FecCodec.Present(g.shards[index := payload]) >= s.k) ==> AllDelivered(g'.delivered)
    ensures Honest(c, s, g, index, repair, payload) && !repair && index < g.dataShards ==> indices == [index]
    ensures Honest(c, s, g, index, repair, payload) ==> Placed(s, g, g', index)
    ensures r.Ok? ==> r.value.recovered == if index < g.dataShards && !repair then 0 else |r.value.payloads|
    ensures Longer(g.shards[index := payload], g'.shards)
  {
    if index < g.dataShards && !repair {
      g', r, indices := AbsorbData(c, g, index, payload, s);
    } else {
      g', r, indices := AbsorbRepair(c, g, index, repair, payload, s);
    }
  }

  predicate Unprotected(p: Packet) {
    p.total == 0 || p.dataShards == 0
  }

  /** What the receiver checks of a packet before looking at its group. */
  function Malformed(p: Packet): Option<FecError> {
    if p.dataShards >= p.total then Some(InvalidParams)
    else if !ValidParams(p.dataShards, p.total - p.dataShards) then Some(InvalidParams)
    else if |p.payload| > MAX_PAYLOAD then Some(ShardTooLarge)
    else if p.index >= p.total then Some(InvalidParams)
    else None
  }

  /** Only of a packet that carries too many bytes, or has more than 32 data or 16 repair shards, none, or a shard that
      is not one of them. */
  lemma MalformedMeans(p: Packet)
    ensures Malformed(p).None? <==>
              1 <= p.dataShards <= 32 && p.dataShards + 1 <= p.total <= p.dataShards + 16
              && |p.payload| <= 1380 && p.index < p.total
  {
  }

  function EmptyGroup(p: Packet, now: int): Group {
    Group(p.dataShards, seq(p.total, _ => []), seq(p.dataShards, _ => false), now)
  }

  /** A packet of the sender passes every check made of a single packet. */
  lemma SenderIsWellFormed(c: Codec, s: Sent, p: Packet)
    requires Lawful(c, s.k, s.m) && FromSender(c, s, p)
    ensures Malformed(p).None?
  {
    if !p.repair {
      FrameRoundTrip(s.payloads[p.index], |s.payloads[p.index]| + LENGTH_PREFIX);
      return;
    }
    WordShards(c, s, p.index);
  }

  // ----- one group and the indices handed out from it -----

  /** What the receiver has done with a group since it learned of it: the indices handed out, in order, and
      the indices of the shards it accepted. */
  datatype Account = Account(handed: seq<nat>, arrived: set<nat>) {
    ghost function With(p: Packet, accepted: bool, indices: seq<nat>): Account {
      Account(handed + indices, arrived + if accepted then {p.index} else {})
    }
  }

  const NOTHING := Account([], {})

  /** The group holds every shard accepted and, while it is a full one, no other. */
  ghost predicate Holds(sent: Sent, g: Group, arrived: set<nat>) {
    && (forall i :: i in arrived ==> i < |g.shards| && g.shards[i] != [])
    && (|sent.payloads| == sent.k ==> forall i :: 0 <= i < |g.shards| && g.shards[i] != [] ==> i in arrived)
  }

  /** A live group's flags cover the indices handed out; and if every packet of it was the sender's, the
      flags are exactly that and the shards are the sender's. */
  ghost predicate LiveOk(codec: Codec, sent: Sent, honest: bool, g: Group, a: Account) {
    && Distinct(a.handed)
    && |g.delivered| == g.dataShards
    && (forall i :: i in a.handed ==> i < g.dataShards && g.delivered[i])
    && (honest ==>
          && GroupFrom(codec, sent, g) && Holds(sent, g, a.arrived)
          && forall i :: 0 <= i < g.dataShards && g.delivered[i] ==> i in a.handed)
  }

  /** A finished group: each index handed out at most once, and exactly once if every packet of it was
      the sender's. */
  ghost predicate DoneOk(sent: Sent, honest: bool, a: Account) {
    Distinct(a.handed) && (honest ==> forall i :: 0 <= i < sent.k ==> i in a.handed)
  }

  lemma OpeningIsFine(codec: Codec, sent: Sent, honest: bool, p: Packet, now: int)
    requires Malformed(p).None?
    ensures GroupOk(EmptyGroup(p, now)) && !AllDelivered(EmptyGroup(p, now).delivered)
    ensures (honest ==> FromSender(codec, sent, p)) ==> LiveOk(codec, sent, honest, EmptyGroup(p, now), NOTHING)
  {
    var g := EmptyGroup(p, now);
    assert !g.delivered[0];
  }

  /** One shard and the indices handed out by it join the account of the group. */
  lemma AbsorbingIsFine(codec: Codec, sent: Sent, honest: bool, g: Group, g': Group, prior: Account, p: Packet,
                        accepted: bool, indices: seq<nat>)
    requires LiveOk(codec, sent, honest, g, prior) && GroupOk(g') && Moved(g, g', indices)
    requires honest ==> && accepted && GroupFrom(codec, sent, g') && MovedOnly(g, g', indices)
                        && p.index < |g.shards| && Placed(sent, g, g', p.index)
    ensures AllDelivered(g'.delivered) ==> DoneOk(sent, honest, prior.With(p, accepted, indices))
    ensures !AllDelivered(g'.delivered) ==> LiveOk(codec, sent, honest, g', prior.With(p, accepted, indices))
  {
    assert forall i :: i in prior.handed + indices <==> i in prior.handed || i in indices;
  }

  /** An accepted shard of a group is the sender's, so one that is not there yet counts towards the quorum. */
  lemma ArrivalsCount(sent: Sent, g: Group, arrived: set<nat>, p: Packet)
    requires Holds(sent, g, arrived) && p.index < |g.shards| && p.payload != []
    ensures |arrived + {p.index}| <= FecCodec.Present(g.shards[p.index := p.payload])
  {
    SetIsPresent(g.shards[p.index := p.payload], arrived + {p.index});
  }

  lemma {:induction false} SetIsPresent(shards: seq<Bytes>, indices: set<nat>)
    requires forall i :: i in indices ==> i < |shards| && shards[i] != []
    ensures |indices| <= FecCodec.Present(shards)
  {
    if shards == [] {
      assert indices == {};
    } else {
      var last := |shards| - 1;
      SetIsPresent(shards[..last], indices - {last});
      assert indices <= (indices - {last}) + {last};
      SubsetSize(indices, (indices - {last}) + {last});
    }
  }

  // ----- the table of live groups -----

  ghost predicate TableOk(groups: map<nat, Group>) {
    forall id :: id in groups ==> GroupOk(groups[id]) && !AllDelivered(groups[id].delivered)
  }

  function Fresh(groups: map<nat, Group>, now: int): map<nat, Group> {
    map id | id in groups && now - groups[id].receivedAt < GROUP_LIFETIME :: groups[id]
  }

  /** The group a packet belongs to: the live one, or a new empty one. */
  function GroupOf(groups: map<nat, Group>, p: Packet, now: int): Group {
    if p.group in groups then groups[p.group] else EmptyGroup(p, now)
  }

  /** The arrival of a repair shard that gives a full group its quorum. */
  ghost predicate Completes(sent: Sent, g: Group, p: Packet) {
    && p.repair && |sent.payloads| == sent.k
    && |g.shards| == p.total && p.index < |g.shards| && g.shards[p.index] == []
    && FecCodec.Present(g.shards[p.index := p.payload]) >= sent.k
  }

  /** The first arrival of a data shard that fits its group. */
  ghost predicate NewData(g: Group, p: Packet) {
    && !p.repair && p.dataShards == g.dataShards
    && |g.shards| == p.total && p.index < |g.shards| && g.shards[p.index] == []
  }

  /** What an accepted shard achieves: a data shard's payload has been handed out; and a repair shard that is
      new, and with which a full group has its quorum, has had every payload handed out. */
  ghost predicate Progress(sent: Sent, before: Account, after: Account, p: Packet) {
    && (!p.repair ==> p.index in after.handed)
    && (p.repair && |sent.payloads| == sent.k && p.index !in before.arrived && |after.arrived| >= sent.k ==>
          forall x :: 0 <= x < sent.k ==> x in after.handed)
  }

  lemma AbsorbingProgresses(sent: Sent, g: Group, finished: bool, prior: Account, p: Packet, indices: seq<nat>)
    requires Holds(sent, g, prior.arrived) && p.index < |g.shards| && p.payload != []
    requires p.repair && |sent.payloads| == sent.k && FecCodec.Present(g.shards[p.index := p.payload]) >= sent.k ==>
             finished
    requires finished ==> DoneOk(sent, true, prior.With(p, true, indices))
    requires !p.repair ==> indices == [p.index]
    ensures Progress(sent, prior, prior.With(p, true, indices), p)
  {
    ArrivalsCount(sent, g, prior.arrived, p);
    assert !p.repair ==> (prior.handed + indices)[|prior.handed|] == p.index;
  }

  /** Why a shard of the sender can be turned away: it contradicts the live group, sent under another parity
      setting, or there is no room for its group or its bytes. There is always room for the bytes of 63 groups. */
  ghost predicate Refused(groups: map<nat, Group>, bufferedBytes: nat, maxGroups: nat, p: Packet, e: FecError) {
    || (e == InvalidParams && p.group in groups && |groups[p.group].shards| != p.total)
    || (e == ResourceLimit && p.group !in groups && |groups| >= maxGroups)
    || (e == ResourceLimit && bufferedBytes + |p.payload| > MAX_BUFFERED && |Others(groups, p.group)| >= MAX_GROUPS - 1)
  }

  ghost function Others(groups: map<nat, Group>, id: nat): set<nat> {
    groups.Keys - {id}
  }

  ghost predicate SameShape(g: Group, g': Group) {
    g'.receivedAt == g.receivedAt && |g'.shards| == |g.shards|
  }

  function Weight(shards: seq<Bytes>, n: nat): nat
    requires n <= |shards|
  {
    if n == 0 then 0 else Weight(shards, n - 1) + |shards[n - 1]|
  }

  // ----- what the live groups can have taken of the byte limit -----

  /** The bytes of the first n shards, with no shard counted for more than a packet carries. */
  ghost function Load(shards: seq<Bytes>, n: nat): nat
    requires n <= |shards|
  {
    if n == 0 then 0
    else Load(shards, n - 1) + if |shards[n - 1]| > MAX_PAYLOAD then MAX_PAYLOAD else |shards[n - 1]|
  }

  lemma {:induction false} LoadIsBounded(shards: seq<Bytes>, n: nat)
    requires n <= |shards|
    ensures Load(shards, n) <= Weight(shards, n) && Load(shards, n) <= 1380 * n
    ensures (exists i :: 0 <= i < n && shards[i] == []) ==> Load(shards, n) <= 1380 * (n - 1)
    ensures (forall i :: 0 <= i < n ==> shards[i] == []) ==> Load(shards, n) == 0
  {
    if n > 0 {
      LoadIsBounded(shards, n - 1);
    }
  }

  lemma {:induction false} LoadGrows(shards: seq<Bytes>, index: nat, payload: Bytes, shards': seq<Bytes>, n: nat)
    requires index < |shards| && shards[index] == [] && |payload| <= MAX_PAYLOAD && n <= |shards|
    requires Longer(shards[index := payload], shards')
    ensures Load(shards', n) >= Load(shards, n) + if index < n then |payload| else 0
  {
    if n > 0 {
      LoadGrows(shards, index, payload, shards', n - 1);
    }
  }

  ghost function LoadOf(g: Group): nat {
    Load(g.shards, |g.shards|)
  }

  ghost function Loads(groups: map<nat, Group>): nat {
    if groups == map[] then 0 else var id :| id in groups; LoadOf(groups[id]) + Loads(groups - {id})
  }

  lemma {:induction false} LoadsWithout(groups: map<nat, Group>, id: nat)
    requires id in groups
    ensures Loads(groups) == LoadOf(groups[id]) + Loads(groups - {id})
  {
    var first :| first in groups && Loads(groups) == LoadOf(groups[first]) + Loads(groups - {first});
    if first != id {
      LoadsWithout(groups - {first}, id);
      LoadsWithout(groups - {id}, first);
      assert groups - {first} - {id} == groups - {id} - {first};
    }
  }

  lemma LoadsWith(groups: map<nat, Group>, id: nat, g: Group)
    ensures Loads(groups[id := g]) == Loads(groups - {id}) + LoadOf(g)
  {
    LoadsWithout(groups[id := g], id);
    assert groups[id := g] - {id} == groups - {id};
  }

  /** The most n groups can hold: 48 shards of 1380 bytes each. */
  ghost function Most(n: nat): nat {
    66240 * n
  }

  lemma {:induction false} LoadsAreBounded(groups: map<nat, Group>)
    requires TableOk(groups)
    ensures Loads(groups) <= Most(|groups|)
  {
    if groups != map[] {
      var id :| id in groups;
      var rest := groups - {id};
      LoadsWithout(groups, id);
      LoadsAreBounded(rest);
      LoadIsBounded(groups[id].shards, |groups[id].shards|);
      MapSizes(groups, id, groups[id]);
    }
  }

  lemma OpeningKeepsLoads(groups: map<nat, Group>, p: Packet, now: int)
    requires p.group !in groups
    ensures Loads(groups[p.group := EmptyGroup(p, now)]) == Loads(groups)
  {
    LoadsWith(groups, p.group, EmptyGroup(p, now));
    LoadIsBounded(EmptyGroup(p, now).shards, p.total);
    assert groups - {p.group} == groups;
  }

  lemma OpeningKeepsTable(groups: map<nat, Group>, id: nat, g: Group)
    requires TableOk(groups) && id !in groups && GroupOk(g) && !AllDelivered(g.delivered)
    ensures var table := groups[id := g];
            TableOk(table) && OthersKept(groups, table, id) && |table| == |groups| + 1
  {
    MapSizes(groups, id, g);
  }

  /** The byte limit bites only when all 64 groups there can be are live. */
  lemma BytesNeedGroups(groups: map<nat, Group>, bufferedBytes: nat, p: Packet)
    requires TableOk(groups) && p.group in groups && bufferedBytes <= Loads(groups) && |p.payload| <= MAX_PAYLOAD
    requires p.index < |groups[p.group].shards| && groups[p.group].shards[p.index] == []
    requires bufferedBytes + |p.payload| > MAX_BUFFERED
    ensures |Others(groups, p.group)| >= MAX_GROUPS - 1
  {
    var shards, rest := groups[p.group].shards, groups - {p.group};
    LoadsWithout(groups, p.group);
    LoadIsBounded(shards, |shards|);
    LoadsAreBounded(rest);
    assert rest.Keys == Others(groups, p.group) && |rest| == |rest.Keys|;
  }

  /** A shard has joined its group. */
  lemma JoiningKeepsLoads(groups: map<nat, Group>, p: Packet, g': Group)
    requires p.group in groups && Heavier(groups[p.group], g', |p.payload|)
    ensures Loads(groups) + |p.payload| <= Loads(groups[p.group := g'])
  {
    LoadsWithout(groups, p.group);
    LoadsWith(groups, p.group, g');
  }

  ghost predicate Heavier(g: Group, g': Group, bytes: nat) {
    LoadOf(g') >= LoadOf(g) + bytes
  }

  /** Gives back the bytes of a group's shards; the counter never goes below zero. */
  method Released(bufferedBytes: nat, g: Group) returns (left: nat)
    ensures left <= bufferedBytes && left == Max(0, bufferedBytes - Weight(g.shards, |g.shards|))
  {
    var n: int := bufferedBytes;
    for i := 0 to |g.shards|
      invariant n == bufferedBytes - Weight(g.shards, i)
    {
      n := n - |g.shards[i]|;
    }
    left := if n < 0 then 0 else n;
  }

  /** A group leaves the table and its bytes are given back. */
  method Drop(groups: map<nat, Group>, bufferedBytes: nat, id: nat)
    returns (groups': map<nat, Group>, bufferedBytes': nat)
    requires id in groups && bufferedBytes <= Loads(groups)
    ensures groups' == groups - {id} && bufferedBytes' <= bufferedBytes && bufferedBytes' <= Loads(groups')
  {
    LoadsWithout(groups, id);
    LoadIsBounded(groups[id].shards, |groups[id].shards|);
    bufferedBytes' := Released(bufferedBytes, groups[id]);
    groups' := groups - {id};
  }

  /** The loop over the live groups at a purge. */
  method DropExpired(groups: map<nat, Group>, bufferedBytes: nat, now: int)
    returns (groups': map<nat, Group>, bufferedBytes': nat)
    requires bufferedBytes <= Loads(groups)
    ensures bufferedBytes' <= bufferedBytes && |groups'| <= |groups| && bufferedBytes' <= Loads(groups')
    ensures groups' == Fresh(groups, now)
  {
    groups', bufferedBytes' := groups, bufferedBytes;
    var todo := groups.Keys;
    while todo != {}
      invariant todo <= groups'.Keys && bufferedBytes' <= bufferedBytes && bufferedBytes' <= Loads(groups')
      invariant groups'.Keys <= groups.Keys
      invariant forall id :: id in groups' ==> groups'[id] == groups[id]
      invariant forall id :: id in groups ==>
                  (id in groups' <==> id in todo || now - groups[id].receivedAt < GROUP_LIFETIME)
      decreases todo
    {
      var id :| id in todo;
      todo := todo - {id};
      if now - groups'[id].receivedAt >= GROUP_LIFETIME {
        groups', bufferedBytes' := Drop(groups', bufferedBytes', id);
      }
    }
    SubsetSize(groups'.Keys, groups.Keys);
    assert |groups'| == |groups'.Keys| && |groups| == |groups.Keys|;
  }

  ghost predicate OthersKept(groups: map<nat, Group>, groups': map<nat, Group>, id: nat) {
    forall other :: other != id ==>
      (other in groups' <==> other in groups) && (other in groups ==> groups'[other] == groups[other])
  }

  /** A shard that fits joins its group. */
  method AbsorbPacket(codec: Codec, g: Group, p: Packet, ghost sent: Sent, ghost honest: bool, ghost prior: Account)
    returns (g': Group, finished: bool, r: Result<Delivery, FecError>, ghost indices: seq<nat>)
    requires GroupOk(g) && Lawful(codec, sent.k, sent.m) && LiveOk(codec, sent, honest, g, prior)
    requires p.index < |g.shards| == p.total && g.shards[p.index] == [] && |p.payload| <= MAX_PAYLOAD
    requires honest ==> FromSender(codec, sent, p)
    ensures GroupOk(g') && SameShape(g, g') && finished == AllDelivered(g'.delivered)
    ensures Heavier(g, g', |p.payload|)
    ensures if r.Ok? then |r.value.payloads| == |indices| else indices == []
    ensures if finished then DoneOk(sent, honest, prior.With(p, r.Ok?, indices))
            else LiveOk(codec, sent, honest, g', prior.With(p, r.Ok?, indices))
    ensures honest ==> r.Ok? && Faithful(sent, indices, r.value.payloads)
    ensures honest && Completes(sent, g, p) ==> finished
    ensures honest && !p.repair ==> indices == [p.index]
    ensures honest ==> Progress(sent, prior, prior.With(p, true, indices), p)
    ensures r.Ok? ==> r.value.recovered == if !p.repair && p.index < g.dataShards then 0 else |indices|
  {
    g', r, indices := Absorb(codec, g, p.index, p.repair, p.payload, sent);
    AbsorbingIsFine(codec, sent, honest, g, g', prior, p, r.Ok?, indices);
    LoadGrows(g.shards, p.index, p.payload, g'.shards, |g.shards|);
    finished := AllDelivered(g'.delivered);
    if honest {
      SentIsNotEmpty(codec, sent, g, p.index, p.repair, p.payload);
      AbsorbingProgresses(sent, g, finished, prior, p, indices);
    }
  }

  /** The table and the byte counter after a shard has joined its group. */
  method Put(groups: map<nat, Group>, bufferedBytes: nat, p: Packet, g: Group)
    returns (groups': map<nat, Group>, bufferedBytes': nat)
    requires TableOk(groups) && p.group in groups && GroupOk(g) && Heavier(groups[p.group], g, |p.payload|)
    requires bufferedBytes <= Loads(groups) + |p.payload|
    ensures TableOk(groups') && |groups'| <= |groups|
    ensures groups' == if AllDelivered(g.delivered) then groups - {p.group} else groups[p.group := g]
    ensures bufferedBytes' <= bufferedBytes && bufferedBytes' <= Loads(groups')
  {
    groups', bufferedBytes' := groups[p.group := g], bufferedBytes;
    MapSizes(groups, p.group, g);
    JoiningKeepsLoads(groups, p, g);
    if AllDelivered(g.delivered) {
      assert groups[p.group := g] - {p.group} == groups - {p.group};
      groups', bufferedBytes' := Drop(groups', bufferedBytes', p.group);
    }
  }

  /** Its group is kept, or dropped from the table once all is delivered. */
  method Place(codec: Codec, groups: map<nat, Group>, bufferedBytes: nat, p: Packet,
               ghost sent: Sent, ghost honest: bool, ghost prior: Account)
    returns (groups': map<nat, Group>, bufferedBytes': nat, finished: bool,
             r: Result<Delivery, FecError>, ghost indices: seq<nat>)
    requires TableOk(groups) && p.group in groups && bufferedBytes <= MAX_BUFFERED
    requires bufferedBytes <= Loads(groups) + |p.payload| && |p.payload| <= MAX_PAYLOAD
    requires Lawful(codec, sent.k, sent.m) && LiveOk(codec, sent, honest, groups[p.group], prior)
    requires var shards := groups[p.group].shards;
             p.index < |shards| && shards[p.index] == [] && |shards| == p.total
    requires honest ==> FromSender(codec, sent, p)
    ensures TableOk(groups') && bufferedBytes' <= bufferedBytes && |groups'| <= |groups|
    ensures bufferedBytes' <= Loads(groups')
    ensures OthersKept(groups, groups', p.group)
    ensures if r.Ok? then |r.value.payloads| == |indices| else indices == []
    ensures finished ==> p.group !in groups' && DoneOk(sent, honest, prior.With(p, r.Ok?, indices))
    ensures !finished ==>
              p.group in groups'
              && LiveOk(codec, sent, honest, groups'[p.group], prior.With(p, r.Ok?, indices))
    ensures honest && r.Ok? ==> Faithful(sent, indices, r.value.payloads)
    ensures honest && Completes(sent, groups[p.group], p) ==> finished
    ensures honest && !p.repair ==> indices == [p.index]
    ensures honest ==> r.Ok? && Progress(sent, prior, prior.With(p, true, indices), p)
    ensures p.group in groups' ==> SameShape(groups[p.group], groups'[p.group])
    ensures r.Ok? ==> r.value.recovered == if !p.repair && p.index < groups[p.group].dataShards then 0 else |indices|
  {
    var g';
    g', finished, r, indices := AbsorbPacket(codec, groups[p.group], p, sent, honest, prior);
    groups', bufferedBytes' := Put(groups, bufferedBytes, p, g');
  }

  /** A packet of a live group: turned away if it contradicts the group, is a duplicate or does not fit. */
  method Offer(codec: Codec, groups: map<nat, Group>, bufferedBytes: nat, p: Packet,
               ghost sent: Sent, ghost honest: bool, ghost prior: Account)
    returns (groups': map<nat, Group>, bufferedBytes': nat, finished: bool,
             r: Result<Delivery, FecError>, ghost indices: seq<nat>)
    requires TableOk(groups) && p.group in groups && bufferedBytes <= MAX_BUFFERED
    requires bufferedBytes <= Loads(groups) && |p.payload| <= MAX_PAYLOAD
    requires Lawful(codec, sent.k, sent.m) && LiveOk(codec, sent, honest, groups[p.group], prior)
    requires p.index < p.total && (honest ==> FromSender(codec, sent, p))
    ensures TableOk(groups') && bufferedBytes' <= MAX_BUFFERED && bufferedBytes' <= Loads(groups')
            && |groups'| <= |groups|
    ensures OthersKept(groups, groups', p.group)
    ensures if r.Ok? then |r.value.payloads| == |indices| else indices == []
    ensures finished ==> p.group !in groups' && DoneOk(sent, honest, prior.With(p, r.Ok?, indices))
    ensures !finished ==>
              p.group in groups'
              && LiveOk(codec, sent, honest, groups'[p.group], prior.With(p, r.Ok?, indices))
    ensures honest && r.Ok? ==> Faithful(sent, indices, r.value.payloads)
    ensures honest && r != Err(ResourceLimit) && Completes(sent, groups[p.group], p) ==> finished
    ensures honest && r != Err(ResourceLimit) && NewData(groups[p.group], p) ==> indices == [p.index]
    ensures honest && r.Ok? ==> Progress(sent, prior, prior.With(p, true, indices), p)
    ensures honest && r.Err? ==> Refused(groups, bufferedBytes, |groups|, p, r.error)
    ensures p.group in groups' ==> SameShape(groups[p.group], groups'[p.group])
    ensures r.Ok? ==> r.value.recovered == if !p.repair && p.index < p.dataShards then 0 else |indices|
  {
    var g := groups[p.group];
    groups', bufferedBytes', finished, indices := groups, bufferedBytes, false, [];
    assert prior.With(p, false, []) == prior;
    if g.dataShards != p.dataShards || |g.shards| != p.total {
      r := Err(InvalidParams);
    } else if g.shards[p.index] != [] {
      r := Ok(Delivery([], 0));
    } else if bufferedBytes + |p.payload| > MAX_BUFFERED {
      BytesNeedGroups(groups, bufferedBytes, p);
      r := Err(ResourceLimit);
    } else {
      groups', bufferedBytes', finished, r, indices :=
        Place(codec, groups, bufferedBytes + |p.payload|, p, sent, honest, prior);
    }
  }

  method Open(ghost codec: Codec, maxGroups: nat, groups: map<nat, Group>, p: Packet, now: int,
              ghost sent: Sent, ghost honest: bool, ghost prior: Account)
    returns (groups': map<nat, Group>)
    requires TableOk(groups) && |groups| <= maxGroups && Malformed(p).None?
    requires p.group in groups || |groups| < maxGroups
    requires honest ==> FromSender(codec, sent, p)
    requires if p.group in groups then LiveOk(codec, sent, honest, groups[p.group], prior) else prior == NOTHING
    ensures TableOk(groups') && |groups'| <= maxGroups
            && OthersKept(groups, groups', p.group)
    ensures p.group in groups' && groups'[p.group] == GroupOf(groups, p, now)
    ensures LiveOk(codec, sent, honest, groups'[p.group], prior) && Loads(groups') == Loads(groups)
  {
    if p.group in groups {
      return groups;
    }
    var g := EmptyGroup(p, now);
    OpeningIsFine(codec, sent, honest, p, now);
    OpeningKeepsTable(groups, p.group, g);
    OpeningKeepsLoads(groups, p, now);
    groups' := groups[p.group := g];
  }

  /** A well-formed packet joins its group, opened if it is new and there is room. */
  method Join(codec: Codec, maxGroups: nat, groups: map<nat, Group>, bufferedBytes: nat, p: Packet, now: int,
              ghost sent: Sent, ghost honest: bool, ghost prior: Account)
    returns (groups': map<nat, Group>, bufferedBytes': nat, finished: bool,
             r: Result<Delivery, FecError>, ghost indices: seq<nat>)
    requires TableOk(groups) && bufferedBytes <= MAX_BUFFERED && |groups| <= maxGroups && bufferedBytes <= Loads(groups)
    requires Malformed(p).None? && Lawful(codec, sent.k, sent.m)
    requires honest ==> FromSender(codec, sent, p)
    requires if p.group in groups then LiveOk(codec, sent, honest, groups[p.group], prior) else prior == NOTHING
    ensures TableOk(groups') && bufferedBytes' <= MAX_BUFFERED && |groups'| <= maxGroups
    ensures bufferedBytes' <= Loads(groups')
    ensures OthersKept(groups, groups', p.group)
    ensures if r.Ok? then |r.value.payloads| == |indices| else indices == []
    ensures finished ==> p.group !in groups' && DoneOk(sent, honest, prior.With(p, r.Ok?, indices))
    ensures !finished ==>
            if p.group in groups' then LiveOk(codec, sent, honest, groups'[p.group], prior.With(p, r.Ok?, indices))
                          else prior.With(p, r.Ok?, indices) == NOTHING
    ensures honest && r.Ok? ==> Faithful(sent, indices, r.value.payloads)
    ensures honest && r != Err(ResourceLimit) && Completes(sent, GroupOf(groups, p, now), p) ==> finished
    ensures honest && r != Err(ResourceLimit) && NewData(GroupOf(groups, p, now), p) ==> indices == [p.index]
    ensures honest && r.Ok? ==> Progress(sent, prior, prior.With(p, true, indices), p)
    ensures honest && r.Err? ==> Refused(groups, bufferedBytes, maxGroups, p, r.error)
    ensures p.group in groups' ==> SameShape(GroupOf(groups, p, now), groups'[p.group])
    ensures r.Ok? ==> r.value.recovered == if !p.repair && p.index < p.dataShards then 0 else |indices|
  {
    if p.group !in groups && |groups| >= maxGroups {
      return groups, bufferedBytes, false, Err(ResourceLimit), [];
    }
    var table := Open(codec, maxGroups, groups, p, now, sent, honest, prior);
    assert Others(table, p.group) == Others(groups, p.group);
    groups', bufferedBytes', finished, r, indices := Offer(codec, table, bufferedBytes, p, sent, honest, prior);
  }

  /** The receive buffer. The specification watches one group, chosen arbitrarily: whatever is proved of
      the watched group holds of every group. */
  class FecReceiver {
    const codec: Codec
    const maxGroups: nat
    const ring: CompletedRing
    /** The watched group and what its sender sent. */
    ghost const watch: nat
    ghost const sent: Sent

    var groups: map<nat, Group>
    var bufferedBytes: nat
    /** What was done with the watched group since it was last forgotten, and how often it was. */
    ghost var account: Account
    ghost var life: nat
    /** Every packet of the watched group so far was one its sender emitted. */
    ghost var honest: bool

    ghost predicate Valid()
      reads this, ring
    {
      && ring.Valid() && Bounded() && groups.Keys !! ring.times.Keys
      && Lawful(codec, sent.k, sent.m)
      && Watched(codec, sent, honest, watch, groups, ring.times.Keys, account)
    }

    ghost predicate Bounded()
      reads this
    {
      && 1 <= maxGroups <= MAX_GROUPS && |groups| <= maxGroups && TableOk(groups)
      && bufferedBytes <= MAX_BUFFERED && bufferedBytes <= Loads(groups)
    }

    constructor (codec: Codec, maxGroups: int, ghost watch: nat, ghost sent: Sent)
      requires Lawful(codec, sent.k, sent.m)
      ensures Valid() && fresh(ring) && this.codec == codec && this.watch == watch && this.sent == sent
      ensures groups == map[] && ring.times == map[] && account == NOTHING && life == 0 && honest && bufferedBytes == 0
      ensures this.maxGroups == if 1 <= maxGroups <= MAX_GROUPS then maxGroups else MAX_GROUPS
    {
      this.codec, this.watch, this.sent := codec, watch, sent;
      this.maxGroups := if maxGroups <= 0 || maxGroups > MAX_GROUPS then MAX_GROUPS else maxGroups;
      ring := new CompletedRing();
      groups, bufferedBytes, account, life, honest := map[], 0, NOTHING, 0, true;
    }

    /** The watched group is under assembly or remembered. */
    ghost predicate Known()
      reads `groups, ring
    {
      watch in groups || watch in ring.times
    }

    method PurgeGroups(now: int)
      requires Bounded()
      modifies `groups, `bufferedBytes
      ensures Bounded() && groups == Fresh(old(groups), now) && bufferedBytes <= old(bufferedBytes)
    {
      groups, bufferedBytes := DropExpired(groups, bufferedBytes, now);
    }

    /** Drops expired groups and forgets expired completions. */
    method PurgeExpired(now: int)
      requires Valid()
      modifies this, ring
      ensures Valid() && honest == old(honest)
      ensures groups == Fresh(old(groups), now) && bufferedBytes <= old(bufferedBytes)
      ensures forall id :: id in groups <==> id in old(groups) && now < old(groups)[id].receivedAt + 30_000_000_000
      ensures Within(ring.times, old(ring.times))
      ensures InStep(old(ring.queue), now) ==> InStep(ring.queue, now) && Current(ring.times, now)
      ensures if life == old(life) then account == old(account)
              else life == old(life) + 1 && account == NOTHING && old(Known()) && !Known()
                   && !Held(old(groups), old(ring.times), now)
    {
      ghost var known := Known();
      PurgeGroups(now);
      PurgeRing(now);
      if known && !Known() {
        account, life := NOTHING, life + 1;
      }
    }

    method PurgeRing(now: int)
      requires ring.Valid()
      modifies ring
      ensures ring.Valid() && ring.times.Keys <= old(ring.times.Keys) && Within(ring.times, old(ring.times))
      ensures forall id :: id in old(ring.times) && id !in ring.times ==> now - old(ring.times)[id] >= LIFETIME
      ensures InStep(old(ring.queue), now) ==> InStep(ring.queue, now) && Current(ring.times, now)
    {
      ring.Purge(now);
      if InStep(old(ring.queue), now) {
        PurgingKeepsStep(old(ring.queue), ring.queue, ring.times, now);
      }
    }

    /** The watched group is live or remembered, and not yet expired. */
    ghost predicate Held(live: map<nat, Group>, done: map<nat, int>, now: int) {
      || (watch in live && now - live[watch].receivedAt < GROUP_LIFETIME)
      || (watch in done && now - done[watch] < LIFETIME)
    }

    method RememberInRing(id: nat, now: int)
      requires ring.Valid()
      modifies ring
      ensures ring.Valid() && id in ring.times && ring.times.Keys <= old(ring.times.Keys) + {id}
      ensures |old(ring.times)| < MAX_COMPLETED ==> ring.times.Keys == old(ring.times.Keys) + {id}
      ensures InStep(old(ring.queue), now) ==> InStep(ring.queue, now)
      ensures forall x :: x in ring.times ==>
                (x in old(ring.times) && ring.times[x] == old(ring.times)[x]) || (x == id && ring.times[x] == now)
    {
      if InStep(ring.queue, now) {
        AfterEventInOrder(ring.queue, Completion(id, now));
      }
      ring.Remember(id, now);
    }

    /** A finished group has left the table and moves to the ring, which may displace the oldest remembered
        one. */
    method Retire(table: map<nat, Group>, bytes: nat, now: int, p: Packet, ghost accepted: bool,
                  ghost indices: seq<nat>)
      requires ring.Valid() && groups.Keys !! ring.times.Keys && p.group !in ring.times && p.group !in table
      requires Watched(codec, sent, honest, watch, groups, ring.times.Keys, account)
      requires OthersKept(groups, table, p.group)
      requires p.group == watch ==> DoneOk(sent, honest, account.With(p, accepted, indices))
      modifies `groups, `bufferedBytes, `account, `life, ring
      ensures ring.Valid() && groups == table && bufferedBytes == bytes && groups.Keys !! ring.times.Keys
      ensures Watched(codec, sent, honest, watch, groups, ring.times.Keys, account)
      ensures p.group == watch ==>
                account == old(account).With(p, accepted, indices) && life == old(life)
                && watch in ring.times
      ensures p.group != watch ==>
                if life == old(life) then account == old(account)
                else life == old(life) + 1 && account == NOTHING && old(Known()) && !Known()
                     && |old(ring.times)| >= MAX_COMPLETED
      ensures forall id :: id in ring.times ==>
                || (id in old(ring.times) && ring.times[id] == old(ring.times)[id])
                || (id == p.group && ring.times[id] == now)
      ensures InStep(old(ring.queue), now) ==> InStep(ring.queue, now)
    {
      ghost var known := Known();
      RememberInRing(p.group, now);
      RetiringIsFine(codec, sent, honest, watch, groups, table, old(ring.times.Keys), ring.times.Keys, account, p,
                     accepted, indices);
      groups, bufferedBytes := table, bytes;
      account := After(watch, table, ring.times.Keys, account, p, accepted, indices);
      if known && !Known() {
        life := life + 1;
      }
    }

    /** The table after a packet that finished no group becomes current. */
    method Update(table: map<nat, Group>, bytes: nat, p: Packet, ghost accepted: bool, ghost indices: seq<nat>)
      requires Valid() && p.group !in ring.times
      requires TableOk(table) && |table| <= maxGroups && bytes <= MAX_BUFFERED && bytes <= Loads(table)
      requires OthersKept(groups, table, p.group)
      requires p.group == watch ==> Watched(codec, sent, honest, watch, table, {}, account.With(p, accepted, indices))
      modifies `groups, `bufferedBytes, `account
      ensures Valid() && honest == old(honest) && groups == table && bufferedBytes == bytes
      ensures account == if p.group == watch then old(account).With(p, accepted, indices) else old(account)
    {
      groups, bufferedBytes := table, bytes;
      if p.group == watch {
        account := account.With(p, accepted, indices);
      }
    }

    /** The table after a packet becomes current, and the packet's group is retired if it finished. */
    method Settle(table: map<nat, Group>, bytes: nat, finished: bool, now: int, p: Packet, ghost accepted: bool,
                  ghost indices: seq<nat>)
      requires Valid() && p.group !in ring.times && (finished ==> p.group !in table)
      requires TableOk(table) && |table| <= maxGroups && bytes <= MAX_BUFFERED && bytes <= Loads(table)
      requires OthersKept(groups, table, p.group)
      requires p.group == watch ==>
                 if finished then DoneOk(sent, honest, account.With(p, accepted, indices))
                 else Watched(codec, sent, honest, watch, table, {}, account.With(p, accepted, indices))
      requires Malformed(p).None? && (p.group in table ==> SameShape(GroupOf(groups, p, now), table[p.group]))
      modifies `groups, `bufferedBytes, `account, `life, ring
      ensures Valid() && groups == table && bufferedBytes == bytes
      ensures p.group == watch ==> account == old(account).With(p, accepted, indices) && life == old(life)
                                   && (finished ==> watch in ring.times)
      ensures p.group != watch ==>
                if life == old(life) then account == old(account)
                else life == old(life) + 1 && account == NOTHING && old(Known()) && !Known()
                     && |old(ring.times)| >= MAX_COMPLETED
      ensures Dated(old(groups), groups, old(ring.times), ring.times, p, now)
      ensures InStep(old(ring.queue), now) ==> InStep(ring.queue, now)
    {
      if finished {
        Retire(table, bytes, now, p, accepted, indices);
      } else {
        Update(table, bytes, p, accepted, indices);
      }
    }

    /** A well-formed packet of a group that is not remembered. */
    method Admit(p: Packet, now: int) returns (r: Result<Delivery, FecError>, ghost indices: seq<nat>)
      requires Valid() && Malformed(p).None? && p.group !in ring.times
      requires honest && p.group == watch ==> FromSender(codec, sent, p)
      modifies this, ring
      ensures Valid() && honest == old(honest)
      ensures if r.Ok? then |r.value.payloads| == |indices| else indices == []
      ensures p.group == watch ==> account == old(account).With(p, r.Ok?, indices) && life == old(life)
      ensures p.group != watch ==>
                if life == old(life) then account == old(account)
                else life == old(life) + 1 && account == NOTHING && old(Known()) && !Known()
                     && |old(ring.times)| >= MAX_COMPLETED
      ensures honest && p.group == watch && r.Ok? ==> Faithful(sent, indices, r.value.payloads)
      ensures honest && p.group == watch && r.Ok? ==> Progress(sent, old(account), account, p)
      ensures honest && p.group == watch && r.Err? ==> Refused(old(groups), old(bufferedBytes), maxGroups, p, r.error)
      ensures (honest && p.group == watch && r != Err(ResourceLimit)
               && Completes(sent, GroupOf(old(groups), p, now), p)) ==> watch in ring.times
      ensures (honest && p.group == watch && r != Err(ResourceLimit)
               && NewData(GroupOf(old(groups), p, now), p)) ==> indices == [p.index]
      ensures r.Ok? ==> r.value.recovered == if !p.repair && p.index < p.dataShards then 0 else |indices|
      ensures Dated(old(groups), groups, old(ring.times), ring.times, p, now)
      ensures InStep(old(ring.queue), now) ==> InStep(ring.queue, now)
    {
      ghost var mine, prior := honest && p.group == watch, if p.group == watch then account else NOTHING;
      var table, bytes, finished;
      table, bytes, finished, r, indices :=
        Join(codec, maxGroups, groups, bufferedBytes, p, now, sent, mine, prior);
      assert mine && r.Ok? ==> Progress(sent, prior, prior.With(p, true, indices), p);
      Settle(table, bytes, finished, now, p, r.Ok?, indices);
      assert mine ==> account == prior.With(p, r.Ok?, indices);
    }

    /** What has become of the watched group's account with a packet: the group is forgotten only if it had
        expired or the ring was full, and then the account starts again. */
    ghost predicate Extended(life': nat, account': Account, life: nat, account: Account, live: map<nat, Group>,
                             done: map<nat, int>, steady: bool, p: Packet, ok: bool, indices: seq<nat>, now: int)
    {
      var prior := if life' == life then account else NOTHING;
      && account' == (if p.group == watch && !Unprotected(p) then prior.With(p, ok, indices) else prior)
      && (life' == life || (life' == life + 1 && (watch in live || watch in done)
                            && (!Held(live, done, now) || Crowded(done, steady, now))))
    }

    /** A well-formed packet, after the expired groups are gone; one of a remembered group is ignored. */
    method Deliver(p: Packet, now: int) returns (r: Result<Delivery, FecError>, ghost indices: seq<nat>)
      requires Valid() && Malformed(p).None? && (honest && p.group == watch ==> FromSender(codec, sent, p))
      modifies this, ring
      ensures Valid() && honest == old(honest)
      ensures if r.Ok? then |r.value.payloads| == |indices| else indices == []
      ensures p.group == watch ==> account == old(account).With(p, r.Ok?, indices) && life == old(life)
      ensures p.group != watch ==>
                if life == old(life) then account == old(account)
                else life == old(life) + 1 && account == NOTHING && old(Known()) && !Known()
                     && |old(ring.times)| >= MAX_COMPLETED
      ensures honest && p.group == watch && r.Ok? ==> Faithful(sent, indices, r.value.payloads)
      ensures honest && p.group == watch && r.Ok? ==> Progress(sent, old(account), account, p)
      ensures honest && p.group == watch && r.Err? ==> Refused(old(groups), old(bufferedBytes), maxGroups, p, r.error)
      ensures (honest && p.group == watch && r != Err(ResourceLimit) && watch !in old(ring.times)
               && Completes(sent, GroupOf(old(groups), p, now), p)) ==> watch in ring.times
      ensures (honest && p.group == watch && r != Err(ResourceLimit) && watch !in old(ring.times)
               && NewData(GroupOf(old(groups), p, now), p)) ==> indices == [p.index]
      ensures r.Ok? ==> r.value.recovered == if !p.repair && p.index < p.dataShards then 0 else |indices|
      ensures Dated(old(groups), groups, old(ring.times), ring.times, p, now)
      ensures InStep(old(ring.queue), now) ==> InStep(ring.queue, now)
    {
      if p.group in ring.times {
        Ignore(p);
        return Ok(Delivery([], 0)), [];
      }
      r, indices := Admit(p, now);
    }

    /** The group of the packet is finished; only the account notes the shard. */
    ghost method Ignore(p: Packet)
      requires Valid() && p.group in ring.times && (honest && p.group == watch ==> FromSender(codec, sent, p))
      modifies `account
      ensures Valid() && account == if p.group == watch then old(account).With(p, true, []) else old(account)
      ensures honest && p.group == watch ==> Progress(sent, old(account), account, p)
    {
      if p.group == watch {
        account := account.With(p, true, []);
        assert account.handed == old(account).handed;
      }
    }

    /** A well-formed packet. */
    method DeliverFresh(p: Packet, now: int) returns (r: Result<Delivery, FecError>, ghost indices: seq<nat>)
      requires Valid() && !Unprotected(p) && Malformed(p).None?
      requires honest && p.group == watch ==> FromSender(codec, sent, p)
      modifies this, ring
      ensures Valid() && honest == old(honest)
      ensures if r.Ok? then |r.value.payloads| == |indices| else indices == []
      ensures Extended(life, account, old(life), old(account), old(groups), old(ring.times),
                       old(InStep(ring.queue, now)), p, r.Ok?, indices, now)
      ensures honest && p.group == watch && r.Ok? ==> Faithful(sent, indices, r.value.payloads)
      ensures honest && p.group == watch && r.Ok? ==>
                Progress(sent, if life == old(life) then old(account) else NOTHING, account, p)
      ensures honest && p.group == watch && r.Err? ==>
                Refused(Fresh(old(groups), now), old(bufferedBytes), maxGroups, p, r.error)
      ensures (honest && p.group == watch && r != Err(ResourceLimit) && watch !in old(ring.times)
               && Completes(sent, GroupOf(Fresh(old(groups), now), p, now), p)) ==> watch in ring.times
      ensures (honest && p.group == watch && r != Err(ResourceLimit) && watch !in old(ring.times)
               && NewData(GroupOf(Fresh(old(groups), now), p, now), p)) ==> indices == [p.index]
      ensures r.Ok? ==> r.value.recovered == if !p.repair && p.index < p.dataShards then 0 else |indices|
      ensures Dated(if life == old(life) then old(groups) else old(groups) - {watch}, groups,
                    if life == old(life) then old(ring.times) else old(ring.times) - {watch}, ring.times, p, now)
      ensures InStep(old(ring.queue), now) ==> InStep(ring.queue, now)
    {
      PurgeExpired(now);
      ghost var live, done, known, purged := groups, ring.times, Known(), life;
      r, indices := Deliver(p, now);
      assert life != purged ==> known && purged == old(life);
      if life != old(life) && purged == old(life) {
        FullIsCrowded(old(ring.times), done, old(InStep(ring.queue, now)), now);
      }
      DatedSincePurge(watch, life == old(life), old(groups), live, groups, old(ring.times), done, ring.times, p, now);
    }

    method AddProtected(p: Packet, now: int) returns (r: Result<Delivery, FecError>, ghost indices: seq<nat>)
      requires Valid() && !Unprotected(p) && (honest && p.group == watch ==> FromSender(codec, sent, p))
      modifies this, ring
      ensures Valid() && honest == old(honest)
      ensures if r.Ok? then |r.value.payloads| == |indices| else indices == []
      ensures Extended(life, account, old(life), old(account), old(groups), old(ring.times),
                       old(InStep(ring.queue, now)), p, r.Ok?, indices, now)
      ensures honest && p.group == watch && r.Ok? ==> Faithful(sent, indices, r.value.payloads)
      ensures honest && p.group == watch && r.Ok? ==>
                Progress(sent, if life == old(life) then old(account) else NOTHING, account, p)
      ensures honest && p.group == watch && r.Err? ==>
                Refused(Fresh(old(groups), now), old(bufferedBytes), maxGroups, p, r.error)
      ensures (honest && p.group == watch && r != Err(ResourceLimit) && watch !in old(ring.times)
               && Completes(sent, GroupOf(Fresh(old(groups), now), p, now), p)) ==> watch in ring.times
      ensures Malformed(p).Some? ==> r == Err(Malformed(p).value) && groups == old(groups)
      ensures (honest && p.group == watch && Malformed(p).None? && r != Err(ResourceLimit) && watch !in old(ring.times)
               && NewData(GroupOf(Fresh(old(groups), now), p, now), p)) ==> indices == [p.index]
      ensures r.Ok? ==> r.value.recovered == if !p.repair && p.index < p.dataShards then 0 else |indices|
      ensures Dated(if life == old(life) then old(groups) else old(groups) - {watch}, groups,
                    if life == old(life) then old(ring.times) else old(ring.times) - {watch}, ring.times, p, now)
      ensures InStep(old(ring.queue), now) ==> InStep(ring.queue, now)
    {
      if honest && p.group == watch {
        SenderIsWellFormed(codec, sent, p);
      }
      var bad := Malformed(p);
      if bad.Some? {
        assert account.With(p, false, []) == account;
        return Err(bad.value), [];
      }
      r, indices := DeliverFresh(p, now);
    }

    /** One packet from the wire. For the watched group, whatever was lost, reordered or duplicated: each
        payload handed out is the one sent at that index, no index is handed out twice while the group is
        live or remembered, a new repair shard that gives a full group its quorum completes the group, and a
        shard is refused only for another parity setting or for lack of room. */
    method AddPacket(p: Packet, now: int) returns (r: Result<Delivery, FecError>, ghost indices: seq<nat>)
      requires Valid()
      modifies this, ring
      ensures Valid()
      ensures honest == (old(honest) && (p.group == watch && !Unprotected(p) ==> FromSender(codec, sent, p)))
      ensures p.total == 0 || p.dataShards == 0 ==>
                indices == [] && r == if |p.payload| <= 1380 then Ok(Delivery([p.payload], 0)) else Err(ShardTooLarge)
      ensures !Unprotected(p) ==> if r.Ok? then |r.value.payloads| == |indices| else indices == []
      ensures Extended(life, account, old(life), old(account), old(groups), old(ring.times),
                       old(InStep(ring.queue, now)), p, r.Ok?, indices, now)
      ensures honest && p.group == watch && !Unprotected(p) && r.Ok? ==> Faithful(sent, indices, r.value.payloads)
      ensures honest && p.group == watch && !Unprotected(p) && r.Ok? ==>
                Progress(sent, if life == old(life) then old(account) else NOTHING, account, p)
      ensures honest && p.group == watch && !Unprotected(p) && r.Err? ==>
                Refused(Fresh(old(groups), now), old(bufferedBytes), maxGroups, p, r.error)
      ensures (honest && p.group == watch && !Unprotected(p) && r != Err(ResourceLimit)
               && watch !in old(ring.times) && Completes(sent, GroupOf(Fresh(old(groups), now), p, now), p)) ==>
                watch in ring.times && forall i :: 0 <= i < sent.k ==> i in account.handed
      ensures !Unprotected(p) && Malformed(p).Some? ==> r == Err(Malformed(p).value) && groups == old(groups)
      ensures (honest && p.group == watch && !Unprotected(p) && Malformed(p).None? && r != Err(ResourceLimit)
               && watch !in old(ring.times) && NewData(GroupOf(Fresh(old(groups), now), p, now), p)) ==>
                   indices == [p.index]
      ensures !Unprotected(p) && r.Ok? ==>
                r.value.recovered == if !p.repair && p.index < p.dataShards then 0 else |indices|
      ensures Dated(if life == old(life) then old(groups) else old(groups) - {watch}, groups,
                    if life == old(life) then old(ring.times) else old(ring.times) - {watch}, ring.times, p, now)
      ensures InStep(old(ring.queue), now) ==> InStep(ring.queue, now)
    {
      indices := [];
      if Unprotected(p) {
        if |p.payload| > MAX_PAYLOAD {
          return Err(ShardTooLarge), [];
        }
        return Ok(Delivery([p.payload], 0)), [];
      }
      if p.group == watch {
        honest := honest && FromSender(codec, sent, p);
      }
      r, indices := AddProtected(p, now);
    }
  }

  /** The times at which groups were opened or finished change only with their own packets. */
  ghost predicate Dated(live: map<nat, Group>, live': map<nat, Group>, done: map<nat, int>, done': map<nat, int>,
                        p: Packet, now: int)
  {
    && (forall id :: id in live' ==>
          || (id in live && SameShape(live[id], live'[id]))
          || (id == p.group && !Unprotected(p) && live'[id].receivedAt == now && |live'[id].shards| == p.total))
    && (forall id :: id in done' ==>
          (id in done && done'[id] == done[id]) || (id == p.group && !Unprotected(p) && done'[id] == now))
  }

  ghost predicate Within<T>(part: map<nat, T>, whole: map<nat, T>) {
    forall id :: id in part ==> id in whole && part[id] == whole[id]
  }

  /** The completion times are in order, and none lies in the future. */
  ghost predicate InStep(queue: seq<Completed>, now: int) {
    Ordered(queue) && Before(queue, now)
  }

  ghost predicate Current(done: map<nat, int>, now: int) {
    forall id :: id in done ==> now - done[id] < LIFETIME
  }

  /** The memory of finished groups is full, with the clock going forward of groups finished within the last
      lifetime. */
  ghost predicate Crowded(done: map<nat, int>, steady: bool, now: int) {
    |done| >= MAX_COMPLETED && (steady ==> |Lately(done, now)| >= MAX_COMPLETED)
  }

  ghost function Lately(done: map<nat, int>, now: int): map<nat, int> {
    map id | id in done && now - done[id] < LIFETIME :: done[id]
  }

  lemma PurgingKeepsStep(before: seq<Completed>, queue: seq<Completed>, done: map<nat, int>, now: int)
    requires InStep(before, now) && queue == Unexpired(before, now) && Mirrors(done, queue)
    ensures InStep(queue, now) && Current(done, now)
  {
    AfterEventInOrder(before, Purged(now));
    UnexpiredIsFilter(before, now);
    forall id | id in done ensures now - done[id] < LIFETIME {
      var i :| 0 <= i < |queue| && queue[i].id == id;
      assert queue[i] in queue;
    }
  }

  /** A memory that is full after a purge is crowded. */
  lemma FullIsCrowded(done: map<nat, int>, purged: map<nat, int>, steady: bool, now: int)
    requires Within(purged, done) && |purged| >= MAX_COMPLETED && (steady ==> Current(purged, now))
    ensures Crowded(done, steady, now)
  {
    SubsetSize(purged.Keys, done.Keys);
    assert |purged.Keys| == |purged| && |done.Keys| == |done|;
    if steady {
      SubsetSize(purged.Keys, Lately(done, now).Keys);
      assert |Lately(done, now).Keys| == |Lately(done, now)|;
    }
  }

  /** If the watched group was forgotten, it is gone by the purge or by what came after it. */
  lemma DatedSincePurge(watch: nat, kept: bool, live: map<nat, Group>, left: map<nat, Group>, live': map<nat, Group>,
                        done: map<nat, int>, purged: map<nat, int>, done': map<nat, int>, p: Packet, now: int)
    requires Within(left, live) && Within(purged, done) && Dated(left, live', purged, done', p, now)
    requires kept || (watch !in left && watch !in purged) || (watch !in live' && watch !in done')
    ensures Dated(if kept then live else live - {watch}, live', if kept then done else done - {watch}, done', p, now)
  {
  }

  /** The watched group is live with its flags accounted for, or remembered as finished, or unknown. */
  ghost predicate Watched(codec: Codec, sent: Sent, honest: bool, watch: nat, groups: map<nat, Group>,
                          done: set<nat>, a: Account)
  {
    if watch in groups then LiveOk(codec, sent, honest, groups[watch], a)
    else if watch in done then DoneOk(sent, honest, a)
    else a == NOTHING
  }

  /** What is left of the watched group's account once the packet's group is retired with these indices. */
  ghost function After(watch: nat, table: map<nat, Group>, done: set<nat>, a: Account, p: Packet, accepted: bool,
                       indices: seq<nat>): Account
  {
    if p.group == watch then a.With(p, accepted, indices) else if watch in table || watch in done then a else NOTHING
  }

  lemma RetiringIsFine(codec: Codec, sent: Sent, honest: bool, watch: nat, groups: map<nat, Group>,
                       table: map<nat, Group>, done: set<nat>, done': set<nat>, a: Account, p: Packet,
                       accepted: bool, indices: seq<nat>)
    requires Watched(codec, sent, honest, watch, groups, done, a) && OthersKept(groups, table, p.group)
    requires p.group !in table && p.group in done' && done' <= done + {p.group} && groups.Keys !! done
    requires p.group == watch ==> DoneOk(sent, honest, a.With(p, accepted, indices))
    ensures table.Keys !! done'
    ensures Watched(codec, sent, honest, watch, table, done', After(watch, table, done', a, p, accepted, indices))
  {
    forall other | other in table
      ensures other !in done'
    {
      assert other != p.group && other in groups;
    }
  }
}
