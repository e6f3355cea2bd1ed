/** The sending side of forward error correction. */
module FecSenders {
  import opened Common
  import opened FecCodec
  import opened FecReceivers

  datatype SendGroup = SendGroup(id: nat, createdAt: int, payloads: seq<Bytes>)

  /** What a sent group may become: more payloads, then sealed for good. */
  ghost predicate Grows(s: Sent, s': Sent) {
    s' == s || (!s.sealed && s'.k == s.k && s.payloads <= s'.payloads)
  }

  ghost predicate AllFrom(c: Codec, s: Sent, log: seq<Packet>) {
    forall i :: 0 <= i < |log| ==> FromSender(c, s, log[i])
  }

  predicate Fits(payload: Bytes) {
    |payload| + LENGTH_PREFIX <= MAX_PAYLOAD
  }

  predicate AllFit(payloads: seq<Bytes>) {
    forall i :: 0 <= i < |payloads| ==> Fits(payloads[i])
  }

  lemma AllFitMeansShort(payloads: seq<Bytes>)
    ensures AllFit(payloads) <==> forall i :: 0 <= i < |payloads| ==> |payloads[i]| <= 1378
  {
    assert forall i :: 0 <= i < |payloads| ==> (Fits(payloads[i]) <==> |payloads[i]| <= 1378);
  }

  lemma AllFitAppend(payloads: seq<Bytes>, payload: Bytes)
    ensures AllFit(payloads + [payload]) <==> AllFit(payloads) && Fits(payload)
  {
    var all := payloads + [payload];
    assert all[|payloads|] == payload && forall i :: 0 <= i < |payloads| ==> all[i] == payloads[i];
  }

  /** The repair packets of an encoded group: one for each shard that carries no payload of its own. */
  function Repairs(id: nat, word: seq<Bytes>, first: nat, k: nat): seq<Packet> {
    if first > |word| then []
    else
      seq(|word| - first, j requires 0 <= j < |word| - first =>
        Packet(id, first + j, |word|, k, true, word[first + j]))
  }

  method RepairPackets(id: nat, word: seq<Bytes>, first: nat, k: nat) returns (packets: seq<Packet>)
    requires first <= |word|
    ensures packets == Repairs(id, word, first, k)
  {
    packets := [];
    for index := first to |word|
      invariant |packets| == index - first
      invariant forall j :: 0 <= j < |packets| ==> packets[j] == Packet(id, first + j, |word|, k, true, word[first + j])
    {
      packets := packets + [Packet(id, index, |word|, k, true, word[index])];
    }
  }

  /** They are packets of the sealed group. */
  lemma RepairsAreSent(c: Codec, id: nat, payloads: seq<Bytes>, k: nat, m: nat)
    requires Encodable(payloads, k, m) && |GroupWord(c, payloads, k, m)| == k + m
    ensures AllFrom(c, Sent(payloads, k, m, true), Repairs(id, GroupWord(c, payloads, k, m), |payloads|, k))
  {
  }

  /** The packets of a group of which nothing was refused are numbered as they come: one for each payload while
      the group is open, and one for each shard of the codeword once it is sealed. */
  ghost predicate Numbered(log: seq<Packet>, s: Sent) {
    (forall i :: 0 <= i < |s.payloads| ==> |s.payloads[i]| + 2 <= 1380) ==>
      && |log| == (if s.sealed then s.k + s.m else |s.payloads|)
      && forall i :: 0 <= i < |log| ==> log[i].index == i
  }

  /** A payload joins the group; its packet follows, and those of all parity shards if the group is full. */
  lemma SendingKeepsNumbered(before: seq<Packet>, s: Sent, payload: Bytes, packets: seq<Packet>, s': Sent)
    requires Numbered(before, s) && !s.sealed && s'.payloads == s.payloads + [payload] && s'.k == s.k
    requires packets == [] ==> !AllFit(s'.payloads)
    requires packets != [] ==> packets[0].index == |s.payloads|
    requires packets != [] ==> |packets| == if s'.sealed then 1 + s'.m else 1
    requires s'.sealed ==> |s'.payloads| == s'.k && forall j :: 0 < j < |packets| ==> packets[j].index == s'.k + j - 1
    ensures Numbered(before + packets, s')
  {
    if forall i :: 0 <= i < |s'.payloads| ==> |s'.payloads[i]| + 2 <= 1380 {
      assert forall i :: 0 <= i < |s.payloads| ==> s.payloads[i] == s'.payloads[i];
    }
  }

  /** The group is sealed before it is full; packets of its padding and parity shards follow. */
  lemma SealingKeepsNumbered(before: seq<Packet>, s: Sent, packets: seq<Packet>, s': Sent)
    requires Numbered(before, s) && !s.sealed && s' == Sent(s.payloads, s.k, s'.m, true) && |s.payloads| <= s.k
    requires |packets| == s.k + s'.m - |s.payloads|
    requires forall j :: 0 <= j < |packets| ==> packets[j].index == |s.payloads| + j
    ensures Numbered(before + packets, s')
  {
  }

  /** The watched group, open on at most one stream, where its record is what that stream holds. */
  ghost predicate Tracks(k: nat, watch: nat, counter: nat, table: map<nat, SendGroup>, home: Option<nat>,
                         record: Sent)
  {
    && record.k == k
    && (forall st :: st in table ==>
          && table[st].id <= counter && |table[st].payloads| <= k
          && (table[st].id == watch ==> home == Some(st)))
    && (home.Some? ==>
          && home.value in table && table[home.value].id == watch
          && record.payloads == table[home.value].payloads && !record.sealed)
    && (watch > counter ==> record.payloads == [] && !record.sealed && home == None)
  }

  /** The groups under construction, one a stream. As on the receiving side one arbitrary group is watched:
      `record` is what has been sent of it and `log` the packets emitted for it. */
  class FecSender {
    const codec: Codec
    const k: nat
    const timeout: int
    ghost const watch: nat

    var parity: int
    var counter: nat
    var table: map<nat, SendGroup>
    ghost var home: Option<nat>
    ghost var record: Sent
    ghost var log: seq<Packet>

    ghost predicate Valid()
      reads this
    {
      && Tracks(k, watch, counter, table, home, record)
      && AllFrom(codec, record, log)
    }

    /** The codec is lawful for whatever parity the session may settle on. */
    ghost predicate LawfulCodec() {
      forall m: nat :: ValidParams(k, m) ==> Lawful(codec, k, m)
    }

    constructor (codec: Codec, k: nat, parity: int, timeout: int, ghost watch: nat)
      ensures Valid() && this.codec == codec && this.k == k && this.parity == parity && this.watch == watch
      ensures log == [] && (watch > 0 ==> record.payloads == []) && Numbered(log, record)
    {
      this.codec, this.k, this.timeout, this.watch := codec, k, timeout, watch;
      this.parity, counter, table, home := parity, 0, map[], None;
      record, log := Sent([], k, 1, false), [];
    }

    /** The adaptive controller may change the parity at any time, also in the middle of a group. */
    method AdaptParity(m: int)
      requires Valid()
      modifies `parity
      ensures Valid() && parity == m
    {
      parity := m;
    }

    /** Makes sure the stream has a group with room, numbering a new one if not. */
    method Begin(stream: nat, now: int)
      requires Valid() && k >= 1
      modifies `counter, `table, `home
      ensures Valid() && stream in table && |table[stream].payloads| < k
      ensures if stream in old(table) && |old(table)[stream].payloads| < k
              then table == old(table) && counter == old(counter)
              else counter == old(counter) + 1 && table == old(table)[stream := SendGroup(counter, now, [])]
    {
      if stream in table && |table[stream].payloads| < k {
        return;
      }
      counter := counter + 1;
      table := table[stream := SendGroup(counter, now, [])];
      if counter == watch {
        home := Some(stream);
      } else if home == Some(stream) {
        home := None;
      }
    }

    /** The payload joins the group before anything can fail. */
    method Append(stream: nat, payload: Bytes)
      requires Valid() && stream in table && |table[stream].payloads| < k
      modifies `table, `record
      ensures Valid() && home == old(home)
      ensures table == old(table)[stream := old(table)[stream].(payloads := old(table)[stream].payloads + [payload])]
      ensures Grows(old(record), record)
      ensures record == if home == Some(stream) then old(record).(payloads := old(record).payloads + [payload])
                        else old(record)
    {
      table := table[stream := table[stream].(payloads := table[stream].payloads + [payload])];
      if home == Some(stream) {
        record := record.(payloads := record.payloads + [payload]);
      }
    }

    /** Records packets just emitted for a group. */
    ghost method Emit(id: nat, packets: seq<Packet>)
      requires Valid() && (id == watch ==> AllFrom(codec, record, packets))
      modifies `log
      ensures Valid() && log == old(log) + if id == watch then packets else []
    {
      log := log + if id == watch then packets else [];
    }

    /** The payload joins the stream's group, or a new one, before anything can fail. */
    method Enqueue(stream: nat, payload: Bytes, now: int) returns (group: SendGroup)
      requires Valid() && k >= 1
      modifies `counter, `table, `home, `record
      ensures Valid() && table == old(table)[stream := group]
              && group.payloads == Prior(old(table), stream, k) + [payload]
      ensures group.id == if stream in old(table) && |old(table)[stream].payloads| < k
                          then old(table)[stream].id else old(counter) + 1
      ensures Grows(old(record), record) && (group.id == watch <==> home == Some(stream))
      ensures group.id == watch ==> !old(record).sealed && old(record).payloads == Prior(old(table), stream, k)
      ensures record == if group.id == watch then old(record).(payloads := group.payloads) else old(record)
    {
      Begin(stream, now);
      Append(stream, payload);
      group := table[stream];
    }

    /** Encodes the group of a stream, seals it and closes it; a group that cannot be encoded stays. */
    method SealGroup(stream: nat) returns (r: Option<seq<Packet>>)
      requires Valid() && LawfulCodec() && stream in table
      modifies `table, `home, `record
      ensures Valid() && Grows(old(record), record)
      ensures r.Some? <==> ValidParams(k, parity) && AllFit(old(table)[stream].payloads)
      ensures if r.Some? then table == old(table) - {stream} else table == old(table)
      ensures r.Some? ==> var group := old(table)[stream];
                          && r.value == Repairs(group.id, GroupWord(codec, group.payloads, k, parity),
                                                |group.payloads|, k)
                          && |r.value| == k + parity - |group.payloads|
                          && (forall j :: 0 <= j < |r.value| ==>
                                var i := |group.payloads| + j;
                                r.value[j] == Packet(group.id, i, k + parity, k, true,
                                                     GroupWord(codec, group.payloads, k, parity)[i]))
                          && (group.id == watch ==> AllFrom(codec, record, r.value))
                          && (group.id == watch ==> record == Sent(group.payloads, k, parity, true))
      ensures r.None? || old(table)[stream].id != watch ==> record == old(record)
    {
      var group := table[stream];
      var word := Encode(codec, group.payloads, k, parity);
      if word.None? {
        return None;
      }
      var m: nat := parity;
      assert |word.value| == k + m by {
        ShardSizeBounds(group.payloads);
        assert Lawful(codec, k, m);
        assert Uniform(DataShards(group.payloads, k), ShardSize(group.payloads));
      }
      var packets := RepairPackets(group.id, word.value, |group.payloads|, k);
      RepairsAreSent(codec, group.id, group.payloads, k, m);
      table := table - {stream};
      if home == Some(stream) {
        home, record := None, Sent(group.payloads, k, m, true);
      }
      r := Some(packets);
    }

    /** A data packet goes out, followed by the parity packets when the group is full. */
    method Dispatch(stream: nat, packet: Packet) returns (r: Option<seq<Packet>>)
      requires Valid() && LawfulCodec() && ValidParams(k, parity) && stream in table
      requires !packet.repair && packet.group == table[stream].id
      requires packet.group == watch ==> FromSender(codec, record, packet)
      modifies `table, `home, `record, `log
      ensures Valid() && Grows(old(record), record)
      ensures r.Some? <==> (|old(table)[stream].payloads| == k ==> AllFit(old(table)[stream].payloads))
      ensures r.Some? ==> var group := old(table)[stream];
                          r.value == [packet] +
                            if |group.payloads| < k then []
                            else Repairs(group.id, GroupWord(codec, group.payloads, k, parity), k, k)
      ensures if r.Some? && |old(table)[stream].payloads| == k
              then table == old(table) - {stream} && |r.value| == 1 + parity
              else table == old(table)
      ensures log == old(log) + if r.Some? && packet.group == watch then r.value else []
      ensures record == if r.Some? && |old(table)[stream].payloads| == k && packet.group == watch
                        then Sent(old(table)[stream].payloads, k, parity, true)
                        else old(record)
    {
      var packets := [packet];
      if |table[stream].payloads| == k {
        var repair := SealGroup(stream);
        if repair.None? {
          return None;
        }
        packets := packets + repair.value;
      }
      Emit(packet.group, packets);
      r := Some(packets);
    }

    /** The payload that joined its group last goes out. */
    method SendNewest(stream: nat, group: SendGroup) returns (r: Result<seq<Packet>, FecError>)
      requires Valid() && LawfulCodec() && ValidParams(k, parity) && stream in table && table[stream] == group
      requires group.payloads != [] && (group.id == watch <==> home == Some(stream))
      modifies `table, `home, `record, `log
      ensures Valid() && Grows(old(record), record)
      ensures r.Ok? <==> && Fits(group.payloads[|group.payloads| - 1])
                         && (|group.payloads| == k ==> AllFit(group.payloads))
      ensures r.Err? ==> r.error == ShardTooLarge && table == old(table)
      ensures r.Ok? ==> var payload := group.payloads[|group.payloads| - 1];
                        && r.value != []
                        && r.value[0] == Packet(group.id, |group.payloads| - 1, k + parity, k, false,
                                                [|payload| / 256, |payload| % 256] + payload)
                        && DecodeShard(r.value[0].payload) == Some(payload)
      ensures r.Ok? ==> |r.value| == if |group.payloads| < k then 1 else 1 + parity
      ensures r.Ok? ==> forall j :: 0 < j < |r.value| ==>
                r.value[j] == Packet(group.id, k + j - 1, k + parity, k, true,
                                     GroupWord(codec, group.payloads, k, parity)[k + j - 1])
      ensures r.Ok? ==> table == if |group.payloads| == k then old(table) - {stream} else old(table)
      ensures log == old(log) + if r.Ok? && group.id == watch then r.value else []
      ensures record == if r.Ok? && |group.payloads| == k && group.id == watch
                        then Sent(group.payloads, k, parity, true)
                        else old(record)
    {
      var index := |group.payloads| - 1;
      var payload := group.payloads[index];
      var shard := FrameData(payload, |payload| + LENGTH_PREFIX);
      if shard.None? {
        return Err(ShardTooLarge);
      }
      FrameRoundTrip(payload, |payload| + LENGTH_PREFIX);
      var packets := Dispatch(stream, Packet(group.id, index, k + parity, k, false, shard.value));
      r := if packets.None? then Err(ShardTooLarge) else Ok(packets.value);
    }

    /** A payload sent on a stream, under a valid parity setting. */
    method SendOn(stream: nat, payload: Bytes, now: int)
      returns (r: Result<seq<Packet>, FecError>, ghost group: SendGroup)
      requires Valid() && LawfulCodec() && ValidParams(k, parity)
      modifies `counter, `table, `home, `record, `log
      ensures Valid() && Grows(old(record), record)
      ensures group.payloads == Prior(old(table), stream, k) + [payload]
      ensures group.id == if stream in old(table) && |old(table)[stream].payloads| < k then old(table)[stream].id
                          else old(counter) + 1
      ensures r.Ok? <==> && Fits(payload) && (|group.payloads| == k ==> AllFit(group.payloads))
      ensures r.Err? ==> r.error == ShardTooLarge
      ensures r.Ok? ==> && r.value != [] && DecodeShard(r.value[0].payload) == Some(payload)
                        && r.value[0] == Packet(group.id, |group.payloads| - 1, k + parity, k, false,
                                                [|payload| / 256, |payload| % 256] + payload)
      ensures r.Ok? ==> |r.value| == if |group.payloads| < k then 1 else 1 + parity
      ensures r.Ok? ==> forall j :: 0 < j < |r.value| ==>
                r.value[j] == Packet(group.id, k + j - 1, k + parity, k, true,
                                     GroupWord(codec, group.payloads, k, parity)[k + j - 1])
      ensures if r.Ok? && |group.payloads| == k then stream !in table
              else stream in table && table[stream].payloads == group.payloads && table[stream].id == group.id
      ensures log == old(log) + if r.Ok? && group.id == watch then r.value else []
      ensures group.id == watch ==> !old(record).sealed && old(record).payloads == Prior(old(table), stream, k)
      ensures record == if group.id != watch then old(record)
                        else if r.Ok? && |group.payloads| == k then Sent(group.payloads, k, parity, true)
                        else old(record).(payloads := group.payloads)
    {
      var entered := Enqueue(stream, payload, now);
      group := entered;
      r := SendNewest(stream, entered);
    }

    /** What a payload has to be to be taken, number by number: small enough and, if it fills its group, after small
        ones only. */
    ghost predicate Takes(stream: nat, payload: Bytes)
      reads `parity, `table
    {
      && 1 <= k <= 32 && 1 <= parity <= 16 && k + parity <= 48 && |payload| <= 1378
      && (stream in table && |table[stream].payloads| + 1 == k ==>
            forall i :: 0 <= i < k - 1 ==> |table[stream].payloads[i]| <= 1378)
    }

    lemma TakesMeans(stream: nat, payload: Bytes)
      ensures Takes(stream, payload) <==>
                && ValidParams(k, parity) && Fits(payload)
                && (|Prior(table, stream, k)| + 1 == k ==> AllFit(Prior(table, stream, k)))
    {
      AllFitMeansShort(Prior(table, stream, k));
    }

    /** One payload sent on a stream: its own data packet at once, and the parity packets when it fills the
        group. It is refused when it is too large, and also, as the payload that fills the group, when an
        earlier refused payload of the group was. */
    method Send(stream: nat, payload: Bytes, now: int) returns (r: Result<seq<Packet>, FecError>)
      requires Valid() && LawfulCodec()
      modifies this
      ensures Valid() && parity == old(parity) && Grows(old(record), record)
      ensures r.Ok? <==> old(Takes(stream, payload))
      ensures r.Ok? ==> && ValidParams(k, parity) && Fits(payload)
                        && (|Prior(old(table), stream, k)| + 1 == k ==> AllFit(Prior(old(table), stream, k)))
      ensures r.Err? && ValidParams(k, parity) ==> r.error == ShardTooLarge
      ensures ValidParams(k, parity) && stream in table ==>
                table[stream].id == if stream in old(table) && |old(table)[stream].payloads| < k
                                    then old(table)[stream].id else old(counter) + 1
      ensures r.Ok? ==> && r.value != [] && DecodeShard(r.value[0].payload) == Some(payload)
                        && r.value[0] == Packet(r.value[0].group, |Prior(old(table), stream, k)|, k + parity, k, false,
                                                [|payload| / 256, |payload| % 256] + payload)
      ensures r.Ok? ==> r.value[0].group == if stream in old(table) && |old(table)[stream].payloads| < k
                                            then old(table)[stream].id else old(counter) + 1
      ensures r.Ok? ==> |r.value| == if |Prior(old(table), stream, k)| + 1 < k then 1 else 1 + parity
      ensures r.Ok? ==> var payloads := Prior(old(table), stream, k) + [payload];
                        forall j :: 0 < j < |r.value| ==>
                          r.value[j] == Packet(r.value[0].group, k + j - 1, k + parity, k, true,
                                               GroupWord(codec, payloads, k, parity)[k + j - 1])
      ensures ValidParams(k, parity) ==>
                if stream in table then table[stream].payloads == Prior(old(table), stream, k) + [payload]
                else r.Ok? && |r.value| == 1 + parity
      ensures log == old(log) + if r.Ok? && r.value[0].group == watch then r.value else []
      ensures Numbered(old(log), old(record)) ==> Numbered(log, record)
    {
      TakesMeans(stream, payload);
      if !ValidParams(k, parity) {
        return Err(InvalidParams);
      }
      AllFitAppend(Prior(table, stream, k), payload);
      ghost var before, sent := log, record;
      ghost var group;
      r, group := SendOn(stream, payload, now);
      if group.id == watch && Numbered(before, sent) {
        SendingKeepsNumbered(before, sent, payload, if r.Ok? then r.value else [], record);
      }
    }

    /** A group the timer seals: begun but not full, old enough, and without an oversized payload. */
    predicate Due(group: SendGroup, now: int)
      reads `parity
    {
      && 0 < |group.payloads| < k && now - group.createdAt >= timeout
      && ValidParams(k, parity) && AllFit(group.payloads)
    }

    /** A group that is due, number by number. */
    ghost predicate Waited(group: SendGroup, now: int)
      reads `parity
    {
      && 1 <= |group.payloads| < k <= 32 && 1 <= parity <= 16 && k + parity <= 48 && now >= group.createdAt + timeout
      && forall i :: 0 <= i < |group.payloads| ==> |group.payloads[i]| <= 1378
    }

    lemma DueMeansWaited(group: SendGroup, now: int)
      ensures Due(group, now) <==> Waited(group, now)
    {
      AllFitMeansShort(group.payloads);
    }

    /** What the timer sends of a group: its padding and parity packets, if it is due. */
    function Out(group: SendGroup, now: int): seq<Packet>
      reads `parity
    {
      if Due(group, now)
      then Repairs(group.id, GroupWord(codec, group.payloads, k, parity), |group.payloads|, k)
      else []
    }

    /** A group that has waited long enough is sealed. */
    method FlushGroup(stream: nat, now: int) returns (packets: seq<Packet>)
      requires Valid() && LawfulCodec() && stream in table
      modifies `table, `home, `record, `log
      ensures Valid() && Grows(old(record), record) && packets == old(Out(table[stream], now))
      ensures table == if Due(old(table)[stream], now) then old(table) - {stream} else old(table)
      ensures log == old(log) + if old(table)[stream].id == watch then packets else []
      ensures Numbered(old(log), old(record)) ==> Numbered(log, record)
    {
      var group := table[stream];
      ghost var before, sent := log, record;
      if |group.payloads| == 0 || |group.payloads| >= k || now - group.createdAt < timeout {
        return [];
      }
      var repair := SealGroup(stream);
      packets := if repair.None? then [] else repair.value;
      Emit(group.id, packets);
      if group.id == watch && repair.Some? && Numbered(before, sent) {
        SealingKeepsNumbered(before, sent, packets, record);
      }
    }

    ghost function Undue(groups: map<nat, SendGroup>, now: int): map<nat, SendGroup>
      reads `parity
    {
      map st | st in groups && !Due(groups[st], now) :: groups[st]
    }

    method FlushAll(now: int)
      requires Valid() && LawfulCodec()
      modifies this
      ensures Valid() && parity == old(parity) && Grows(old(record), record)
      ensures table == if timeout > 0 then Undue(old(table), now) else old(table)
      ensures log == old(log) + if timeout > 0 && old(home).Some? then old(Out(table[home.value], now)) else []
      ensures Numbered(old(log), old(record)) ==> Numbered(log, record)
    {
      if !ValidParams(k, parity) || timeout <= 0 {
        return;
      }
      var todo := table.Keys;
      while todo != {}
        invariant Valid() && parity == old(parity) && todo <= table.Keys
        invariant Grows(old(record), record) && (Numbered(old(log), old(record)) ==> Numbered(log, record))
        invariant forall st :: st in table ==> st in old(table) && table[st] == old(table)[st]
        invariant forall st :: st in old(table) ==> (st in table <==> st in todo || !Due(old(table)[st], now))
        invariant log == old(log) +
                         if old(home).Some? && old(home).value !in todo then old(Out(table[home.value], now)) else []
        decreases todo
      {
        var stream :| stream in todo;
        todo := todo - {stream};
        var _ := FlushGroup(stream, now);
      }
    }

    /** The timer: every group that has waited long enough and can be encoded is sealed, and its padding and
        parity packets go out. */
    method Flush(now: int)
      requires Valid() && LawfulCodec()
      modifies this
      ensures Valid() && parity == old(parity) && Grows(old(record), record)
      ensures table == if timeout > 0 then Undue(old(table), now) else old(table)
      ensures log == old(log) + if timeout > 0 && old(home).Some? then old(Out(table[home.value], now)) else []
      ensures forall st :: st in old(table) ==> (st !in table <==> timeout > 0 && old(Waited(table[st], now)))
      ensures old(home).Some? && timeout > 0 && old(Waited(table[home.value], now)) ==>
                var group := old(table[home.value]);
                && |log| == |old(log)| + k + parity - |group.payloads|
                && forall i :: |group.payloads| <= i < k + parity ==>
                     log[|old(log)| + i - |group.payloads|]
                     == Packet(group.id, i, k + parity, k, true, GroupWord(codec, group.payloads, k, parity)[i])
      ensures Numbered(old(log), old(record)) ==> Numbered(log, record)
    {
      forall st | st in table ensures Due(table[st], now) <==> Waited(table[st], now) {
        DueMeansWaited(table[st], now);
      }
      FlushAll(now);
    }

    /** Nothing is ever repaired in a group that took in an oversized payload, however it goes on. */
    lemma NothingRepaired()
      requires Valid() && !AllFit(record.payloads)
      ensures forall i :: 0 <= i < |log| ==> !log[i].repair
    {
      forall i | 0 <= i < |log|
        ensures !log[i].repair
      {
        assert FromSender(codec, record, log[i]);
      }
    }
  }

  /** A group that took in an oversized payload keeps it. */
  lemma OversizedStays(s: Sent, s': Sent)
    requires Grows(s, s') && !AllFit(s.payloads)
    ensures !AllFit(s'.payloads)
  {
    var i :| 0 <= i < |s.payloads| && !Fits(s.payloads[i]);
    assert s' != s ==> s'.payloads[i] == s.payloads[i];
  }

  /** One oversized payload spoils its group: it is refused, yet joins the group, so that the payload that
      fills the group is refused although it fits, and no repair packet of the group ever goes out. */
  method Spoil(sender: FecSender, stream: nat, big: Bytes, others: seq<Bytes>, now: int)
    returns (answers: seq<Result<seq<Packet>, FecError>>)
    requires sender.Valid() && sender.LawfulCodec() && ValidParams(sender.k, sender.parity)
    requires Prior(sender.table, stream, sender.k) == [] && sender.watch == sender.counter + 1
    requires stream in sender.table ==> |sender.table[stream].payloads| >= sender.k
    requires !Fits(big) && AllFit(others) && |others| == sender.k - 1 > 0
    modifies sender
    ensures sender.Valid() && sender.record.payloads == [big] + others && |answers| == sender.k
    ensures answers[0] == Err(ShardTooLarge) && answers[|others|] == Err(ShardTooLarge)
    ensures forall i :: 1 <= i < |others| ==> answers[i].Ok? && |answers[i].value| == 1
    ensures forall i :: 0 <= i < |sender.log| ==> !sender.log[i].repair
    ensures stream in sender.table && sender.table[stream].payloads == [big] + others
  {
    var r := sender.Send(stream, big, now);
    answers := [r];
    for i := 0 to |others|
      invariant sender.Valid() && sender.parity == old(sender.parity) && |answers| == i + 1
      invariant stream in sender.table && sender.table[stream].id == sender.watch
      invariant sender.table[stream].payloads == [big] + others[..i]
      invariant answers[0] == Err(ShardTooLarge)
      invariant forall j :: 1 <= j <= i ==>
                  if j == |others| then answers[j] == Err(ShardTooLarge) else answers[j].Ok? && |answers[j].value| == 1
    {
      assert ([big] + others[..i])[0] == big;
      assert [big] + others[..i + 1] == [big] + others[..i] + [others[i]];
      r := sender.Send(stream, others[i], now);
      answers := answers + [r];
    }
    assert others[..|others|] == others && ([big] + others)[0] == big;
    sender.NothingRepaired();
  }

  /** The payloads a new one joins: those of the stream's group, or none when a new group is due. */
  function Prior(table: map<nat, SendGroup>, stream: nat, k: nat): seq<Bytes> {
    if stream in table && |table[stream].payloads| < k then table[stream].payloads else []
  }
}
