/** The captured-UDP registry: one verified transport, one controller, generations of policy, flow leases
    under the active generation, and the rates and buffers its traffic may use. Every method runs under one
    mutex. Flow times are in nanoseconds, bucket times in seconds. */
module Registries {
  import opened Common
  import opened TokenBuckets
  import opened BufferPools
  import opened Tunnels
  import SizeBounds

  datatype Error =
    | Closed | Mismatch | Stale | NotVerified | TransportActive | ControllerActive | Authentication | Revoked
    | Random | RateLimit | InvalidGeneration | TransactionActive | StaleGeneration | UnknownTransaction
    | GenerationNotActive | InvalidFlow | DuplicateFlow | FlowLimit | UnknownFlow | TooLargeDatagram
    | SequenceReplay | MissingIdentity | PoolRefused(reason: PoolError)

  datatype FlowSpec = FlowSpec(id: nat, generation: nat, family: nat, localIP: Addr, localPort: nat,
                               remoteIP: Addr, remotePort: nat)

  /** The program's check of a flow's endpoints; a mapped address is an IPv6 address that holds an IPv4 one. */
  predicate ValidSpec(spec: FlowSpec) {
    && spec.id != 0 && spec.generation != 0
    && !spec.localIP.Invalid? && !spec.remoteIP.Invalid? && spec.localPort != 0 && spec.remotePort != 0
    && spec.localIP.V4? == spec.remoteIP.V4?
    && if spec.family == 4 then spec.localIP.V4?
       else spec.family == 6 && spec.localIP.V6? && !Mapped(spec.localIP)
  }

  predicate Mapped(addr: Addr) {
    && addr.V6? && |addr.raw| == 16 && addr.raw[10] == 255 && addr.raw[11] == 255
    && forall i :: 0 <= i < 10 ==> addr.raw[i] == 0
  }

  /** What the check comes to: ports and names, and two IPv4 addresses, or two IPv6 ones of which the local one does
      not begin with ten zeros and two bytes of ones. */
  ghost predicate Sound(spec: FlowSpec) {
    && spec.id > 0 && spec.generation > 0 && spec.localPort > 0 && spec.remotePort > 0
    && (|| (spec.family == 4 && spec.localIP.V4? && spec.remoteIP.V4?)
        || (&& spec.family == 6 && spec.localIP.V6? && spec.remoteIP.V6?
            && !(|spec.localIP.raw| == 16 && spec.localIP.raw[..12] == [0, 0, 0, 0, 0, 0, 0, 0, 0, 0, 255, 255])))
  }

  lemma SpecMeans(spec: FlowSpec)
    ensures ValidSpec(spec) <==> Sound(spec)
  {
    if spec.localIP.V6? && |spec.localIP.raw| == 16 {
      var head, marks := spec.localIP.raw[..12], [0, 0, 0, 0, 0, 0, 0, 0, 0, 0, 255, 255];
      assert Mapped(spec.localIP) ==> forall i :: 0 <= i < 12 ==> head[i] == marks[i];
      assert head == marks ==> forall i :: 0 <= i < 12 ==> spec.localIP.raw[i] == marks[i];
    }
  }

  datatype Flow = Flow(spec: FlowSpec, nonce: nat, sequence: Option<nat>, lastActivity: int)

  function Touched(f: Flow, sequence: Option<nat>, now: int): Flow {
    f.(sequence := if sequence.Some? then sequence else f.sequence, lastActivity := now)
  }

  datatype Prepared = Prepared(id: nat, generation: nat)

  /** How many flows were opened, and where those that are gone went. */
  datatype FlowStats = FlowStats(started: nat, closed: nat, evicted: nat, expired: nat)

  // ----- generations and flows as values -----

  ghost predicate Increasing(s: seq<nat>) {
    forall i, j :: 0 <= i < j < |s| ==> s[i] < s[j]
  }

  ghost function Last(s: seq<nat>): nat {
    if s == [] then 0 else s[|s| - 1]
  }

  /** Committed generations increase; the active one is none or the last; a prepared one is later still; and
      nothing is active or prepared without a controller. */
  ghost predicate GenerationsOk(alive: bool, prepared: Option<Prepared>, active: nat, last: nat, commits: seq<nat>) {
    && Increasing(commits) && last == Last(commits) && (commits != [] ==> commits[0] > 0)
    && (active == 0 || active == last) && (active != 0 ==> alive)
    && (prepared.Some? ==> alive && prepared.value.generation > last)
  }

  /** Every open flow belongs to the active generation, and every flow ever opened is accounted for. */
  ghost predicate FlowsOk(flows: map<nat, Flow>, active: nat, maxFlows: nat, stats: FlowStats) {
    && (forall id :: id in flows ==> flows[id].spec.generation == active && active != 0)
    && |flows| <= maxFlows
    && stats.started == |flows| + stats.closed + stats.evicted + stats.expired
  }

  ghost function Unexpired(flows: map<nat, Flow>, ttl: int, now: int): map<nat, Flow> {
    map id | id in flows && now - flows[id].lastActivity < ttl :: flows[id]
  }

  /** The loop that expires idle flows, counting them. */
  method Expire(flows: map<nat, Flow>, ttl: int, now: int) returns (kept: map<nat, Flow>, expired: nat)
    ensures kept == Unexpired(flows, ttl, now) && |kept| + expired == |flows|
    ensures forall id :: id in kept <==> id in flows && now < flows[id].lastActivity + ttl
    ensures forall id :: id in kept ==> kept[id] == flows[id]
  {
    kept, expired := flows, 0;
    var todo := flows.Keys;
    while todo != {}
      invariant todo <= kept.Keys <= flows.Keys && |kept| + expired == |flows|
      invariant forall id :: id in kept ==> kept[id] == flows[id]
      invariant forall id :: id in flows ==> (id in kept <==> id in todo || now - flows[id].lastActivity < ttl)
      decreases todo
    {
      var id :| id in todo;
      todo := todo - {id};
      if now - kept[id].lastActivity >= ttl {
        MapSizes(kept, id, kept[id]);
        kept, expired := kept - {id}, expired + 1;
      }
    }
  }

  // ----- the registry -----

  datatype Limits = Limits(maxFlows: nat, maxTGP: nat, maxDatagram: nat, maxBuffered: nat, flowTTL: int,
                           packetRate: real, packetBurst: real, byteRate: real, byteBurst: real,
                           controlRate: real, controlBurst: real)
  {
    predicate Valid() {
      && packetRate >= 0.0 && packetBurst >= 0.0 && byteRate >= 0.0 && byteBurst >= 0.0
      && controlRate >= 0.0 && controlBurst >= 0.0
    }
  }

  /** What a controller has asked for since it authenticated, bucket by bucket, and whether any ever did. */
  datatype Charges = Charges(used: bool, start: real, packets: seq<Call>, bytes: seq<Call>, control: seq<Call>) {
    /** A control operation costs one token. */
    function Control(now: real, ok: bool): Charges {
      this.(control := control + [Call(now, 1.0, ok)])
    }

    /** A datagram costs one packet and its bytes, one byte if it is empty. */
    function Data(now: real, size: nat, ok: bool): Charges {
      this.(packets := packets + [Call(now, 1.0, ok)], bytes := bytes + [Call(now, Max(size, 1) as real, ok)])
    }
  }

  const UNCHARGED := Charges(false, 0.0, [], [], [])

  datatype AttachmentState = New | Attached | Detached | Ended

  class Attachment {
    const registry: Registry
    var id: nat
    var verified: bool
    var state: AttachmentState

    constructor (registry: Registry, id: nat, verified: bool)
      ensures this.registry == registry && this.id == id && this.verified == verified && state == New
    {
      this.registry, this.id, this.verified, state := registry, id, verified, New;
    }

    method Destroy(to: AttachmentState)
      modifies this
      ensures id == 0 && !verified && state == to
    {
      id, verified, state := 0, false, to;
    }
  }

  /** A bucket that has answered these calls; before any controller has authenticated it is empty. */
  ghost predicate Metered(b: Bucket, rate: real, burst: real, used: bool, start: real, calls: seq<Call>) {
    var rate, burst := if used then rate else 0.0, if used then burst else 0.0;
    b == Replay(rate, burst, start, calls) && Covered(rate, burst, start, calls)
  }

  /** One more call of a metered bucket. */
  lemma MeteredMore(b: Bucket, rate: real, burst: real, used: bool, start: real, calls: seq<Call>, call: Call)
    requires Metered(b, rate, burst, used, start, calls) && rate >= 0.0 && burst >= 0.0 && call.cost >= 0.0
    requires call.granted ==> b.Refill(call.now).Covers(call.cost)
    ensures var f := b.Refill(call.now);
            Metered(if call.granted then f.Spend(call.cost) else f, rate, burst, used, start, calls + [call])
  {
    var rate, burst := if used then rate else 0.0, if used then burst else 0.0;
    ReplayMore(rate, burst, start, calls, call);
  }

  function Empty(): Bucket {
    Bucket(0.0, 0.0, 0.0, 0.0)
  }

  /** The buckets and what was asked of them. */
  datatype Account = Account(packet: Bucket, byte: Bucket, control: Bucket, charges: Charges) {
    function PaysControl(now: int): bool {
      control.Refill(Seconds(now)).Covers(1.0)
    }

    function PaysData(now: int, size: nat): bool {
      packet.Refill(Seconds(now)).Covers(1.0) && byte.Refill(Seconds(now)).Covers(Max(size, 1) as real)
    }

    /** A control operation costs one token. */
    function Control(now: int): Account {
      this.(control := Take(control, Seconds(now), 1.0).0, charges := charges.Control(Seconds(now), PaysControl(now)))
    }

    /** A datagram costs one packet and its bytes, or neither. */
    function Data(now: int, size: nat): Account {
      var p, q := packet.Refill(Seconds(now)), byte.Refill(Seconds(now));
      this.(packet := if PaysData(now, size) then p.Spend(1.0) else p,
            byte := if PaysData(now, size) then q.Spend(Max(size, 1) as real) else q,
            charges := charges.Data(Seconds(now), size, PaysData(now, size)))
    }

    /** The buckets are what the calls leave of them. */
    ghost predicate Kept(limits: Limits) {
      && Metered(packet, limits.packetRate, limits.packetBurst, charges.used, charges.start, charges.packets)
      && Metered(byte, limits.byteRate, limits.byteBurst, charges.used, charges.start, charges.bytes)
      && Metered(control, limits.controlRate, limits.controlBurst, charges.used, charges.start, charges.control)
    }
  }

  /** The buckets of a controller that has just authenticated, at a clock reading. */
  function NewAccount(limits: Limits, now: real): Account {
    Account(Full(limits.packetRate, limits.packetBurst, now), Full(limits.byteRate, limits.byteBurst, now),
            Full(limits.controlRate, limits.controlBurst, now), Charges(true, now, [], [], []))
  }

  lemma NewIsKept(limits: Limits, now: real)
    ensures NewAccount(limits, now).Kept(limits)
  {
  }

  lemma ControlIsKept(a: Account, limits: Limits, now: int)
    requires a.Kept(limits) && limits.Valid()
    ensures a.Control(now).Kept(limits)
  {
    MeteredMore(a.control, limits.controlRate, limits.controlBurst, a.charges.used, a.charges.start, a.charges.control,
                Call(Seconds(now), 1.0, a.PaysControl(now)));
  }

  lemma DataIsKept(a: Account, limits: Limits, now: int, size: nat)
    requires a.Kept(limits) && limits.Valid()
    ensures a.Data(now, size).Kept(limits)
  {
    MeteredMore(a.packet, limits.packetRate, limits.packetBurst, a.charges.used, a.charges.start, a.charges.packets,
                Call(Seconds(now), 1.0, a.PaysData(now, size)));
    MeteredMore(a.byte, limits.byteRate, limits.byteBurst, a.charges.used, a.charges.start, a.charges.bytes,
                Call(Seconds(now), Max(size, 1) as real, a.PaysData(now, size)));
  }

  /** There is room for one control operation more. */
  ghost predicate AffordsControl(limits: Limits, c: Charges, now: int) {
    Affords(limits.controlRate, limits.controlBurst, c.start, c.control, Seconds(now), 1.0)
  }

  /** A control operation is paid for exactly when, since the authentication and since every reading since, what was
      paid and the operation are within burst and rate. */
  lemma ControlIsFair(a: Account, limits: Limits, now: int)
    requires a.Kept(limits) && limits.Valid() && a.charges.used
    ensures a.PaysControl(now) <==> AffordsControl(limits, a.charges, now)
  {
    ReplayIsFair(limits.controlRate, limits.controlBurst, a.charges.start, a.charges.control, Seconds(now), 1.0);
  }

  /** There is room for one packet more and its bytes, one at least. */
  ghost predicate AffordsData(limits: Limits, c: Charges, size: nat, now: int) {
    && Affords(limits.packetRate, limits.packetBurst, c.start, c.packets, Seconds(now), 1.0)
    && Affords(limits.byteRate, limits.byteBurst, c.start, c.bytes, Seconds(now), Max(size, 1) as real)
  }

  /** A datagram exactly when that is true of packets and of bytes. */
  lemma DataIsFair(a: Account, limits: Limits, now: int, size: nat)
    requires a.Kept(limits) && limits.Valid() && a.charges.used
    ensures a.PaysData(now, size) <==> AffordsData(limits, a.charges, size, now)
  {
    ReplayIsFair(limits.packetRate, limits.packetBurst, a.charges.start, a.charges.packets, Seconds(now), 1.0);
    ReplayIsFair(limits.byteRate, limits.byteBurst, a.charges.start, a.charges.bytes, Seconds(now),
                 Max(size, 1) as real);
  }

  /** What a controller was charged never exceeds burst plus rate times the time to the latest reading. */
  lemma RateBound(a: Account, limits: Limits)
    requires a.Kept(limits) && limits.Valid() && a.charges.used
    ensures var c := a.charges;
            && Cost(c.packets) <= Allowance(limits.packetRate, limits.packetBurst, c.start, Latest(c.start, c.packets))
            && Cost(c.bytes) <= Allowance(limits.byteRate, limits.byteBurst, c.start, Latest(c.start, c.bytes))
            && Cost(c.control)
               <= Allowance(limits.controlRate, limits.controlBurst, c.start, Latest(c.start, c.control))
  {
    var c := a.charges;
    ReplayIsFair(limits.packetRate, limits.packetBurst, c.start, c.packets, 0.0, 0.0);
    ReplayIsFair(limits.byteRate, limits.byteBurst, c.start, c.bytes, 0.0, 0.0);
    ReplayIsFair(limits.controlRate, limits.controlBurst, c.start, c.control, 0.0, 0.0);
  }

  class Registry {
    const limits: Limits
    const pool: Pool

    var closed: bool
    var attachment: Attachment?
    var token: nat
    var tokenIssued: bool
    var controller: nat
    var alive: bool

    var packetBucket: Bucket
    var byteBucket: Bucket
    var controlBucket: Bucket
    ghost var charges: Charges

    var prepared: Option<Prepared>
    var active: nat
    var last: nat
    var flows: map<nat, Flow>
    var stats: FlowStats
    ghost var commits: seq<nat>

    /** A controller exists only on an attached transport whose peer is verified; a closed registry has
        neither. */
    ghost predicate Linked()
      reads `closed, `attachment, `alive, `tokenIssued, attachment
    {
      && (attachment != null ==> attachment.state == Attached && attachment.verified && attachment.id != 0)
      && (alive || tokenIssued ==> attachment != null)
      && (closed ==> attachment == null)
    }

    ghost predicate Generations()
      reads `alive, `prepared, `active, `last, `commits
    {
      GenerationsOk(alive, prepared, active, last, commits)
    }

    ghost predicate Flows()
      reads `active, `flows, `stats
    {
      FlowsOk(flows, active, limits.maxFlows, stats)
    }

    ghost function Books(): Account
      reads `packetBucket, `byteBucket, `controlBucket, `charges
    {
      Account(packetBucket, byteBucket, controlBucket, charges)
    }

    ghost predicate Rates()
      reads `packetBucket, `byteBucket, `controlBucket, `charges
    {
      limits.Valid() && Books().Kept(limits)
    }

    ghost predicate Valid()
      reads this, attachment, pool, pool.issued
    {
      Linked() && Generations() && Flows() && Rates() && pool.Valid()
    }

    constructor (limits: Limits)
      requires limits.Valid()
      ensures Valid() && fresh(pool) && pool.issued == {} && this.limits == limits
      ensures !closed && attachment == null && !alive && commits == [] && flows == map[]
      ensures stats == FlowStats(0, 0, 0, 0)
      ensures Books() == Account(Empty(), Empty(), Empty(), UNCHARGED)
    {
      this.limits := limits;
      pool := new Pool(limits.maxBuffered);
      closed, attachment, token, tokenIssued, controller, alive := false, null, 0, false, 0, false;
      packetBucket, byteBucket, controlBucket, charges := Empty(), Empty(), Empty(), UNCHARGED;
      prepared, active, last, flows, stats := None, 0, 0, map[], FlowStats(0, 0, 0, 0);
      commits := [];
    }

    // --- rates ---

    method ConsumeControl(now: int) returns (ok: bool)
      modifies `controlBucket, `charges
      ensures ok == old(Books()).PaysControl(now) && Books() == old(Books()).Control(now)
    {
      var taken := Take(controlBucket, Seconds(now), 1.0);
      controlBucket, ok := taken.0, taken.1;
      charges := charges.Control(Seconds(now), ok);
    }

    /** A data operation is charged to both of its buckets or to neither. */
    method ConsumeData(now: int, size: nat) returns (ok: bool)
      modifies `packetBucket, `byteBucket, `charges
      ensures ok == old(Books()).PaysData(now, size) && Books() == old(Books()).Data(now, size)
    {
      var cost := Max(size, 1) as real;
      packetBucket := packetBucket.Refill(Seconds(now));
      byteBucket := byteBucket.Refill(Seconds(now));
      ok := packetBucket.Covers(1.0) && byteBucket.Covers(cost);
      charges := charges.Data(Seconds(now), size, ok);
      if ok {
        packetBucket := packetBucket.Spend(1.0);
        byteBucket := byteBucket.Spend(cost);
      }
    }

    // --- transport and controller ---

    function RequireController(id: nat): Option<Error>
      reads `closed, `alive, `controller
    {
      if closed then Some(Closed) else if !alive || controller != id then Some(Revoked) else None
    }

    /** What a control operation is refused for before it is looked at. */
    function ControlError(id: nat, now: int): Option<Error>
      reads `closed, `alive, `controller, `controlBucket
    {
      if RequireController(id).Some? then RequireController(id)
      else if controlBucket.Refill(Seconds(now)).Covers(1.0) then None else Some(RateLimit)
    }

    /** What a data operation is refused for before it is looked at. */
    function DataError(id: nat, size: nat, now: int): Option<Error>
      reads `closed, `alive, `controller, `packetBucket, `byteBucket
    {
      if RequireController(id).Some? then RequireController(id)
      else if size > limits.maxDatagram then Some(TooLargeDatagram)
      else if packetBucket.Refill(Seconds(now)).Covers(1.0)
          && byteBucket.Refill(Seconds(now)).Covers(Max(size, 1) as real)
      then None else Some(RateLimit)
    }

    /** What is let through: the current controller of an open registry, with a datagram that is not too large,
        when burst and rate leave room for it. */
    lemma AdmissionMeans(id: nat, size: nat, now: int)
      requires Rates() && (alive ==> charges.used)
      ensures var current, c := !closed && alive && controller == id, charges;
              && (ControlError(id, now) == None <==> current && AffordsControl(limits, c, now))
              && (ControlError(id, now) == Some(RateLimit) <==> current && !AffordsControl(limits, c, now))
      ensures var current, c := !closed && alive && controller == id && size <= limits.maxDatagram, charges;
              && (DataError(id, size, now) == None <==> current && AffordsData(limits, c, size, now))
              && (DataError(id, size, now) == Some(RateLimit) <==> current && !AffordsData(limits, c, size, now))
    {
      if alive {
        ControlIsFair(Books(), limits, now);
        DataIsFair(Books(), limits, now, size);
      }
    }

    /** The buckets after somebody asked for a control operation, granted or not: the current controller pays one
        token, if it is there; nobody else pays anything. */
    ghost function ControlBooks(id: nat, now: int): Account
      reads `closed, `alive, `controller, `packetBucket, `byteBucket, `controlBucket, `charges
    {
      if RequireController(id).Some? then Books() else Books().Control(now)
    }

    /** The same for a datagram, in either direction: a packet and its bytes, if both are there. */
    ghost function DataBooks(id: nat, size: nat, now: int): Account
      reads `closed, `alive, `controller, `packetBucket, `byteBucket, `controlBucket, `charges
    {
      if RequireController(id).Some? || size > limits.maxDatagram then Books() else Books().Data(now, size)
    }

    /** A verified attachment gets a one-use token. */
    method Attach(a: Attachment, random: Option<nat>) returns (r: Result<nat, Error>)
      requires Linked()
      modifies `attachment, `token, `tokenIssued, a
      ensures Linked()
      ensures r.Err? ==> attachment == old(attachment) && token == old(token) && tokenIssued == old(tokenIssued)
      ensures r.Ok? <==> && !closed && a.registry == this && old(a.state) == New && old(a.id) != 0 && old(a.verified)
                         && old(attachment) == null && random.Some?
      ensures r.Ok? ==> attachment == a && tokenIssued && token == r.value && random == Some(r.value)
    {
      if closed {
        if a.registry == this && a.state == New {
          a.Destroy(Ended);
        }
        return Err(Closed);
      }
      if a.registry != this {
        return Err(Mismatch);
      }
      if a.state != New || a.id == 0 {
        return Err(Stale);
      }
      if !a.verified {
        return Err(NotVerified);
      }
      if attachment != null || alive {
        return Err(TransportActive);
      }
      if random.None? {
        return Err(Random);
      }
      a.state := Attached;
      attachment, token, tokenIssued := a, random.value, true;
      return Ok(random.value);
    }

    /** Revocation drops controller, generation and flows together. */
    method Revoke()
      requires Generations() && Flows()
      modifies `token, `tokenIssued, `controller, `alive, `prepared, `active, `flows, `stats
      ensures Generations() && Flows() && !alive && !tokenIssued && prepared == None && active == 0 && flows == map[]
      ensures stats == old(stats).(evicted := old(stats).evicted + |old(flows)|)
    {
      token, tokenIssued, controller, alive := 0, false, 0, false;
      prepared, active := None, 0;
      EvictFlows();
    }

    method EvictFlows()
      modifies `flows, `stats
      ensures flows == map[] && stats == old(stats).(evicted := old(stats).evicted + |old(flows)|)
    {
      stats := stats.(evicted := stats.evicted + |flows|);
      flows := map[];
    }

    /** The transport goes away, and the controller with it. */
    method Detach(a: Attachment) returns (e: Option<Error>)
      requires Linked() && Generations() && Flows()
      modifies `attachment, `token, `tokenIssued, `controller, `alive, `prepared, `active, `flows, `stats, a
      ensures Linked() && Generations() && Flows()
      ensures e.None? <==> a.registry == this && !closed && old(attachment) == a
      ensures e.None? ==> && attachment == null && !alive && flows == map[] && active == 0 && prepared == None
                          && stats == old(stats).(evicted := old(stats).evicted + |old(flows)|)
      ensures e.Some? ==> && attachment == old(attachment) && alive == old(alive) && controller == old(controller)
                          && tokenIssued == old(tokenIssued) && active == old(active) && prepared == old(prepared)
                          && flows == old(flows) && stats == old(stats)
    {
      if a.registry != this {
        return Some(Mismatch);
      }
      if closed {
        if a.state == New {
          a.Destroy(Ended);
        }
        return Some(Closed);
      }
      if a.state == New {
        return Some(Mismatch);
      }
      if a.state != Attached || a.id == 0 {
        return Some(Stale);
      }
      if attachment != a {
        return Some(Mismatch);
      }
      Revoke();
      attachment := null;
      a.Destroy(Detached);
      return None;
    }

    /** The token is spent on the one controller of the attachment, with full buckets. */
    method Authenticate(a: Attachment, presented: nat, random: Option<nat>, now: int) returns (r: Result<nat, Error>)
      requires Linked() && Generations()
      modifies `token, `tokenIssued, `controller, `alive, `packetBucket, `byteBucket, `controlBucket, `charges
      ensures Linked() && Generations()
      ensures r.Ok? <==> && !closed && a.registry == this && attachment == a && !old(alive) && old(tokenIssued)
                         && presented == old(token) && random.Some?
      ensures r.Ok? ==> && alive && random == Some(r.value) && controller == r.value && !tokenIssued
                        && Books() == NewAccount(limits, Seconds(now))
      ensures r.Err? ==> && alive == old(alive) && controller == old(controller) && tokenIssued == old(tokenIssued)
                         && Books() == old(Books())
    {
      if closed {
        return Err(Closed);
      }
      if a.registry != this || attachment != a {
        return Err(Mismatch);
      }
      if a.state != Attached || a.id == 0 {
        return Err(Stale);
      }
      if !a.verified {
        return Err(NotVerified);
      }
      if alive {
        return Err(ControllerActive);
      }
      if !tokenIssued || token != presented {
        return Err(Authentication);
      }
      if random.None? {
        return Err(Random);
      }
      token, tokenIssued, controller, alive := 0, false, random.value, true;
      FillBuckets(Seconds(now));
      return Ok(random.value);
    }

    method FillBuckets(now: real)
      modifies `packetBucket, `byteBucket, `controlBucket, `charges
      ensures Books() == NewAccount(limits, now)
    {
      packetBucket := Full(limits.packetRate, limits.packetBurst, now);
      byteBucket := Full(limits.byteRate, limits.byteBurst, now);
      controlBucket := Full(limits.controlRate, limits.controlBurst, now);
      charges := Charges(true, now, [], [], []);
    }

    method Disconnect(id: nat, a: Attachment) returns (e: Option<Error>)
      requires Linked() && Generations() && Flows()
      modifies `attachment, `token, `tokenIssued, `controller, `alive, `prepared, `active, `flows, `stats, a
      ensures Linked() && Generations() && Flows()
      ensures e.None? <==> !closed && old(alive) && old(controller) == id && old(attachment) == a
      ensures e.None? ==> && attachment == null && !alive && flows == map[] && active == 0 && prepared == None
                          && stats == old(stats).(evicted := old(stats).evicted + |old(flows)|)
      ensures e.Some? ==> && attachment == old(attachment) && alive == old(alive) && controller == old(controller)
                          && tokenIssued == old(tokenIssued) && active == old(active) && prepared == old(prepared)
                          && flows == old(flows) && stats == old(stats)
    {
      if closed {
        return Some(Closed);
      }
      if !alive || controller != id || attachment != a || a.state != Attached || a.id == 0 {
        return Some(Revoked);
      }
      Revoke();
      attachment := null;
      a.Destroy(Detached);
      return None;
    }

    /** Shutdown. Leases of buffers stay valid and can still be released. */
    method Close()
      requires Linked() && Generations() && Flows()
      modifies `closed, `attachment, `token, `tokenIssued, `controller, `alive, `prepared, `active, `flows, `stats,
               attachment
      ensures Linked() && Generations() && Flows() && closed && attachment == null && !alive && flows == map[]
      ensures stats == old(stats).(evicted := old(stats).evicted + |old(flows)|)
    {
      if closed {
        return;
      }
      closed := true;
      Revoke();
      if attachment != null {
        attachment.Destroy(Ended);
      }
      attachment := null;
    }

    // --- generations ---

    /** Every control operation first checks the controller and pays one token. */
    method Admit(id: nat, now: int) returns (e: Option<Error>)
      modifies `controlBucket, `charges
      ensures e == old(ControlError(id, now)) && Books() == old(ControlBooks(id, now))
    {
      e := RequireController(id);
      if e.Some? {
        return e;
      }
      var ok := ConsumeControl(now);
      e := if ok then None else Some(RateLimit);
    }

    /** Prepares a generation later than every committed one; one at a time. */
    method Prepare(id: nat, generation: nat, random: Option<nat>, now: int) returns (r: Result<Prepared, Error>)
      requires Generations()
      modifies `controlBucket, `charges, `prepared
      ensures Generations()
      ensures Books() == old(ControlBooks(id, now))
      ensures r == Err(RateLimit) <==> old(ControlError(id, now)) == Some(RateLimit)
      ensures r.Ok? <==>
                && old(ControlError(id, now)).None? && generation != 0 && old(prepared).None?
                && generation > last
                && random.Some?
      ensures r.Ok? ==> prepared == Some(r.value) && r.value == Prepared(random.value, generation)
      ensures r.Err? ==> prepared == old(prepared)
    {
      var e := Admit(id, now);
      if e.Some? {
        return Err(e.value);
      }
      if generation == 0 {
        return Err(InvalidGeneration);
      }
      if prepared.Some? {
        return Err(TransactionActive);
      }
      if generation <= last || generation == active {
        return Err(StaleGeneration);
      }
      if random.None? {
        return Err(Random);
      }
      r := Ok(Prepared(random.value, generation));
      prepared := Some(r.value);
    }

    /** Commits the prepared generation: the flows of the one before go, and it is the latest ever. */
    method Commit(id: nat, transaction: Prepared, now: int) returns (e: Option<Error>)
      requires Generations() && Flows()
      modifies `controlBucket, `charges, `prepared, `active, `last, `flows, `stats, `commits
      ensures Generations() && Flows()
      ensures Books() == old(ControlBooks(id, now))
      ensures e == Some(RateLimit) <==> old(ControlError(id, now)) == Some(RateLimit)
      ensures e.None? <==> old(ControlError(id, now)).None? && old(prepared) == Some(transaction)
      ensures e.None? ==> && prepared.None? && active == last == transaction.generation && flows == map[]
                          && commits == old(commits) + [transaction.generation]
      ensures e.Some? ==> && prepared == old(prepared) && active == old(active) && last == old(last)
                          && flows == old(flows) && commits == old(commits)
      ensures stats == if e.None? then old(stats).(evicted := old(stats).evicted + |old(flows)|) else old(stats)
    {
      e := Admit(id, now);
      if e.Some? {
        return;
      }
      if prepared != Some(transaction) {
        return Some(UnknownTransaction);
      }
      Activate(transaction.generation);
    }

    method Activate(generation: nat)
      requires Generations() && Flows() && alive && prepared.Some? && prepared.value.generation == generation
      modifies `prepared, `active, `last, `flows, `stats, `commits
      ensures Generations() && Flows() && prepared.None? && active == last == generation && flows == map[]
      ensures commits == old(commits) + [generation]
      ensures stats == old(stats).(evicted := old(stats).evicted + |old(flows)|)
    {
      EvictFlows();
      active, last, prepared := generation, generation, None;
      assert commits != [] ==> forall i :: 0 <= i < |commits| ==> commits[i] <= Last(commits);
      commits := commits + [generation];
    }

    method Abort(id: nat, transaction: Prepared, now: int) returns (e: Option<Error>)
      requires Generations()
      modifies `controlBucket, `charges, `prepared
      ensures Generations()
      ensures Books() == old(ControlBooks(id, now))
      ensures e == Some(RateLimit) <==> old(ControlError(id, now)) == Some(RateLimit)
      ensures e.None? <==> old(ControlError(id, now)).None? && old(prepared) == Some(transaction)
      ensures prepared == if e.None? then None else old(prepared)
    {
      e := Admit(id, now);
      if e.Some? {
        return;
      }
      if prepared != Some(transaction) {
        return Some(UnknownTransaction);
      }
      prepared := None;
    }

    method Disable(id: nat, generation: nat, now: int) returns (e: Option<Error>)
      requires Generations() && Flows()
      modifies `controlBucket, `charges, `prepared, `active, `flows, `stats
      ensures Generations() && Flows()
      ensures Books() == old(ControlBooks(id, now))
      ensures e == Some(RateLimit) <==> old(ControlError(id, now)) == Some(RateLimit)
      ensures e.None? <==> old(ControlError(id, now)).None? && generation != 0 && generation == old(active)
      ensures e.None? ==> active == 0 && prepared.None? && flows == map[]
      ensures e.Some? ==> prepared == old(prepared) && active == old(active) && flows == old(flows)
      ensures stats == if e.None? then old(stats).(evicted := old(stats).evicted + |old(flows)|) else old(stats)
    {
      e := Admit(id, now);
      if e.Some? {
        return;
      }
      if generation == 0 || generation != active {
        return Some(GenerationNotActive);
      }
      prepared := None;
      EvictFlows();
      active := 0;
    }

    // --- flows ---

    /** Idle flows expire. */
    method ExpireFlows(now: int)
      requires Flows()
      modifies `flows, `stats
      ensures Flows() && flows == Unexpired(old(flows), limits.flowTTL, now)
      ensures stats == old(stats).(expired := stats.expired)
      ensures stats.expired + |flows| == old(stats).expired + |old(flows)|
    {
      var kept, expired := Expire(flows, limits.flowTTL, now);
      stats := stats.(expired := stats.expired + expired);
      flows := kept;
    }

    /** Opens a flow under the active generation. */
    method OpenFlow(id: nat, spec: FlowSpec, nonce: Option<nat>, now: int) returns (r: Result<nat, Error>)
      requires Flows()
      modifies `controlBucket, `charges, `flows, `stats
      ensures Flows()
      ensures Books() == old(ControlBooks(id, now))
      ensures r == Err(RateLimit) <==> old(ControlError(id, now)) == Some(RateLimit)
      ensures r.Ok? <==> && old(ControlError(id, now)).None? && Sound(spec) && spec.generation == active
                         && spec.id !in Unexpired(old(flows), limits.flowTTL, now)
                         && |Unexpired(old(flows), limits.flowTTL, now)| < limits.maxFlows && nonce.Some?
      ensures r.Ok? ==> && nonce == Some(r.value) && stats.started == old(stats).started + 1
                        && flows == Unexpired(old(flows), limits.flowTTL, now)[
                                      spec.id := Flow(spec, r.value, None, now)]
      ensures r.Err? ==> flows == if old(ControlError(id, now)).None? && Sound(spec)
                                  then Unexpired(old(flows), limits.flowTTL, now) else old(flows)
      ensures stats.closed == old(stats).closed && stats.evicted == old(stats).evicted
      ensures r.Err? ==> stats.started == old(stats).started
    {
      var e := Admit(id, now);
      if e.Some? {
        return Err(e.value);
      }
      SpecMeans(spec);
      if !ValidSpec(spec) {
        return Err(InvalidFlow);
      }
      ExpireFlows(now);
      if spec.generation != active || active == 0 {
        return Err(GenerationNotActive);
      }
      if spec.id in flows {
        return Err(DuplicateFlow);
      }
      if |flows| >= limits.maxFlows {
        return Err(FlowLimit);
      }
      if nonce.None? {
        return Err(Random);
      }
      InsertFlow(Flow(spec, nonce.value, None, now));
      return Ok(nonce.value);
    }

    method InsertFlow(f: Flow)
      requires Flows() && f.spec.generation == active != 0 && f.spec.id !in flows && |flows| < limits.maxFlows
      requires f.sequence.None?
      modifies `flows, `stats
      ensures Flows() && flows == old(flows)[f.spec.id := f] && stats == old(stats).(started := old(stats).started + 1)
    {
      MapSizes(flows, f.spec.id, f);
      flows := flows[f.spec.id := f];
      stats := stats.(started := stats.started + 1);
    }

    /** A flow ends, closed by the controller or found expired. */
    method EndFlow(id: nat, expired: bool)
      requires Flows() && id in flows
      modifies `flows, `stats
      ensures Flows() && flows == old(flows) - {id}
      ensures stats == if expired then old(stats).(expired := old(stats).expired + 1)
                       else old(stats).(closed := old(stats).closed + 1)
    {
      MapSizes(flows, id, flows[id]);
      flows := flows - {id};
      stats := if expired then stats.(expired := stats.expired + 1) else stats.(closed := stats.closed + 1);
    }

    method CloseFlow(id: nat, generation: nat, flow: nat, nonce: nat, now: int) returns (e: Option<Error>)
      requires Flows()
      modifies `controlBucket, `charges, `flows, `stats
      ensures Flows()
      ensures Books() == old(ControlBooks(id, now))
      ensures e == Some(RateLimit) <==> old(ControlError(id, now)) == Some(RateLimit)
      ensures e.None? <==> && old(ControlError(id, now)).None? && generation == active
                           && flow in old(flows) && old(flows)[flow].nonce == nonce
      ensures e.None? ==> && flows == old(flows) - {flow} && stats == old(stats).(closed := old(stats).closed + 1)
      ensures e.Some? ==> flows == old(flows) && stats == old(stats)
    {
      e := Admit(id, now);
      if e.Some? {
        return;
      }
      if generation != active || flow !in flows || flows[flow].spec.generation != generation
          || flows[flow].nonce != nonce {
        return Some(UnknownFlow);
      }
      EndFlow(flow, false);
    }

    /** The identity names a live flow of the active generation. */
    predicate Answers(flow: nat, generation: nat, nonce: nat, now: int)
      reads `flows, `active
    {
      && flow in flows && now - flows[flow].lastActivity < limits.flowTTL
      && generation == active && flows[flow].nonce == nonce
    }

    /** The live flow an identity names; one found idle for too long is expired on the spot. */
    method FindFlow(flow: nat, generation: nat, nonce: nat, now: int) returns (r: Option<Flow>)
      requires Flows()
      modifies `flows, `stats
      ensures Flows() && stats.started == old(stats).started
      ensures r.Some? <==> old(Answers(flow, generation, nonce, now))
      ensures r.Some? ==> && flows == old(flows) && stats == old(stats) && flow in flows
                          && flows[flow] == r.value && r.value.nonce == nonce && generation == active
                          && now - r.value.lastActivity < limits.flowTTL
      ensures flows == if flow in old(flows) && now >= old(flows)[flow].lastActivity + limits.flowTTL
                       then old(flows) - {flow} else old(flows)
      ensures stats.closed == old(stats).closed
    {
      if flow !in flows {
        return None;
      }
      var f := flows[flow];
      if now - f.lastActivity >= limits.flowTTL {
        EndFlow(flow, true);
        return None;
      }
      if generation != active || f.spec.generation != generation || f.nonce != nonce {
        return None;
      }
      return Some(f);
    }

    /** Activity on a flow; a datagram from the controller also moves its sequence number up. */
    method Touch(flow: nat, sequence: Option<nat>, now: int)
      requires Flows() && flow in flows
      modifies `flows
      ensures Flows() && flows == old(flows)[flow := Touched(old(flows)[flow], sequence, now)]
    {
      MapSizes(flows, flow, flows[flow]);
      flows := flows[flow := Touched(flows[flow], sequence, now)];
    }

    // --- datagrams ---

    /** Within the budget of the flow's addresses, and later than the last datagram accepted on the lease. */
    predicate Later(f: Flow, sequence: nat, size: nat) {
      var budget := SizeBounds.PayloadBudget(limits.maxTGP, f.spec.localIP, f.spec.remoteIP);
      budget.Some? && size <= budget.value && (f.sequence.Some? ==> f.sequence.value < sequence)
    }

    /** A datagram from the controller: charged, matched to its live flow, within the payload budget of its
        addresses, later than every datagram accepted on the lease before, and given a buffer. */
    method AcceptDatagram(id: nat, flow: nat, generation: nat, nonce: nat, sequence: nat, size: nat, now: int)
      returns (r: Result<BufferLease, Error>)
      requires Flows() && pool.Valid()
      modifies `packetBucket, `byteBucket, `charges, `flows, `stats, pool
      ensures Flows() && pool.Valid()
      ensures Books() == old(DataBooks(id, size, now))
      ensures r == Err(RateLimit) <==> old(DataError(id, size, now)) == Some(RateLimit)
      ensures r.Ok? <==> && old(DataError(id, size, now)).None? && old(Answers(flow, generation, nonce, now))
                         && Later(old(flows)[flow], sequence, size)
                         && old(pool.Refusal(Accepted, size, limits.maxDatagram)).None?
      ensures r.Ok? ==>
                fresh(r.value) && pool.live == old(pool.live) + {r.value}
                && pool.issued == old(pool.issued) + {r.value}
      ensures r.Err? ==> pool.issued == old(pool.issued) && pool.live == old(pool.live)
      ensures r.Ok? ==>
                flows == old(flows)[flow := old(flows)[flow].(sequence := Some(sequence), lastActivity := now)]
      ensures r.Err? ==> flows == old(flows) || flows == old(flows) - {flow}
      ensures flow in old(flows) && now < old(flows)[flow].lastActivity + limits.flowTTL ==> flow in flows
      ensures stats.started == old(stats).started && stats.closed == old(stats).closed
    {
      var e := MatchDatagram(id, flow, generation, nonce, size, now);
      if e.Some? {
        return Err(e.value);
      }
      r := AcceptOn(flow, sequence, size, now);
    }

    method MatchDatagram(id: nat, flow: nat, generation: nat, nonce: nat, size: nat, now: int)
      returns (e: Option<Error>)
      requires Flows()
      modifies `packetBucket, `byteBucket, `charges, `flows, `stats
      ensures Flows()
      ensures Books() == old(DataBooks(id, size, now))
      ensures e == Some(RateLimit) <==> old(DataError(id, size, now)) == Some(RateLimit)
      ensures e.None? <==> old(DataError(id, size, now)).None? && old(Answers(flow, generation, nonce, now))
      ensures e.None? ==> flow in flows && flows == old(flows)
      ensures e.Some? ==> flows == old(flows) || flows == old(flows) - {flow}
      ensures flow in old(flows) && now < old(flows)[flow].lastActivity + limits.flowTTL ==> flow in flows
      ensures stats.started == old(stats).started && stats.closed == old(stats).closed
    {
      e := ChargeData(id, size, now);
      if e.None? {
        var found := FindFlow(flow, generation, nonce, now);
        e := if found.None? then Some(UnknownFlow) else None;
      }
    }

    method AcceptOn(flow: nat, sequence: nat, size: nat, now: int) returns (r: Result<BufferLease, Error>)
      requires Flows() && pool.Valid() && flow in flows
      modifies `flows, pool
      ensures r != Err(RateLimit)
      ensures Flows() && pool.Valid()
      ensures flows == if r.Ok? then old(flows)[flow := Touched(old(flows)[flow], Some(sequence), now)] else old(flows)
      ensures r.Ok? <==> && Later(old(flows)[flow], sequence, size)
                         && old(pool.Refusal(Accepted, size, limits.maxDatagram)).None?
      ensures r.Ok? ==>
                fresh(r.value) && pool.live == old(pool.live) + {r.value}
                && pool.issued == old(pool.issued) + {r.value}
      ensures r.Err? ==> pool.issued == old(pool.issued) && pool.live == old(pool.live)
    {
      var f := flows[flow];
      var budget := SizeBounds.PayloadBudget(limits.maxTGP, f.spec.localIP, f.spec.remoteIP);
      if budget.None? || size > budget.value {
        return Err(TooLargeDatagram);
      }
      if f.sequence.Some? && sequence <= f.sequence.value {
        return Err(SequenceReplay);
      }
      r := ReserveBuffer(Accepted, size);
      if r.Ok? {
        Touch(flow, Some(sequence), now);
      }
    }

    /** The endpoints are those of the flow, and the payload within their budget. */
    predicate Between(spec: FlowSpec, localIP: Addr, localPort: nat, remoteIP: Addr, remotePort: nat, size: nat) {
      var budget := SizeBounds.PayloadBudget(limits.maxTGP, localIP, remoteIP);
      && budget.Some? && size <= budget.value && spec.localIP == localIP && spec.remoteIP == remoteIP
      && spec.localPort == localPort && spec.remotePort == remotePort
    }

    ghost predicate Affordable(budget: Option<nat>, size: nat) {
      exists n: nat :: budget == Some(n) && size <= n
    }

    /** What a datagram needs beside room in the buckets and a buffer, whichever way it goes: a flow of that name under
        the active generation, with that nonce, last active less than the flows' lifetime ago, and a payload within the
        budget of its addresses. To the tunnel it has to be later than the one accepted before; from the tunnel
        it has to name the flow's own addresses and ports. */
    lemma FlowMeans(flow: nat, generation: nat, nonce: nat, sequence: nat, size: nat, now: int)
      requires Flows()
      ensures Answers(flow, generation, nonce, now) && Later(flows[flow], sequence, size) <==>
                && flow in flows && flows[flow].nonce == nonce
                && flows[flow].spec.generation == generation == active != 0
                && now < flows[flow].lastActivity + limits.flowTTL
                && (flows[flow].sequence == None || flows[flow].sequence.value < sequence)
                && var f := flows[flow].spec;
                   Affordable(SizeBounds.PayloadBudget(limits.maxTGP, f.localIP, f.remoteIP), size)
      ensures Answers(flow, generation, nonce, now) ==>
                var f := flows[flow].spec;
                Between(f, f.localIP, f.localPort, f.remoteIP, f.remotePort, size) <==>
                  Affordable(SizeBounds.PayloadBudget(limits.maxTGP, f.localIP, f.remoteIP), size)
      ensures Answers(flow, generation, nonce, now) ==>
                forall a, p, b, q :: Between(flows[flow].spec, a, p, b, q, size) ==>
                  var f := flows[flow].spec; a == f.localIP && p == f.localPort && b == f.remoteIP && q == f.remotePort
    {
    }

    /** A reply from the tunnel, matched to its live flow by identity and endpoints. */
    method ResolveReply(id: nat, flow: nat, generation: nat, nonce: nat, localIP: Addr, localPort: nat,
                        remoteIP: Addr, remotePort: nat, size: nat, now: int)
      returns (r: Result<BufferLease, Error>)
      requires Flows() && pool.Valid()
      modifies `packetBucket, `byteBucket, `charges, `flows, `stats, pool
      ensures Flows() && pool.Valid()
      ensures Books() == old(DataBooks(id, size, now))
      ensures r == Err(RateLimit) <==> old(DataError(id, size, now)) == Some(RateLimit)
      ensures r.Ok? <==> && old(DataError(id, size, now)).None? && old(Answers(flow, generation, nonce, now))
                         && Between(old(flows)[flow].spec, localIP, localPort, remoteIP, remotePort, size)
                         && !(flow == 0 && generation == 0 && nonce == 0)
                         && old(pool.Refusal(Delivery, size, limits.maxDatagram)).None?
      ensures r.Ok? ==>
                && fresh(r.value) && pool.live == old(pool.live) + {r.value}
                && pool.issued == old(pool.issued) + {r.value}
      ensures r.Err? ==> pool.issued == old(pool.issued) && pool.live == old(pool.live)
      ensures r.Ok? ==> flows == old(flows)[flow := old(flows)[flow].(lastActivity := now)]
      ensures r.Err? ==> flows == old(flows) || flows == old(flows) - {flow}
      ensures flow in old(flows) && now < old(flows)[flow].lastActivity + limits.flowTTL ==> flow in flows
      ensures stats.started == old(stats).started && stats.closed == old(stats).closed
    {
      var e := MatchReply(id, flow, generation, nonce, localIP, localPort, remoteIP, remotePort, size, now);
      if e.Some? {
        return Err(e.value);
      }
      r := DeliverOn(flow, size, now);
    }

    method MatchReply(id: nat, flow: nat, generation: nat, nonce: nat, localIP: Addr, localPort: nat, remoteIP: Addr,
                      remotePort: nat, size: nat, now: int)
      returns (e: Option<Error>)
      requires Flows()
      modifies `packetBucket, `byteBucket, `charges, `flows, `stats
      ensures Flows()
      ensures Books() == old(DataBooks(id, size, now))
      ensures e == Some(RateLimit) <==> old(DataError(id, size, now)) == Some(RateLimit)
      ensures e.None? <==> && old(DataError(id, size, now)).None? && old(Answers(flow, generation, nonce, now))
                           && Between(old(flows)[flow].spec, localIP, localPort, remoteIP, remotePort, size)
                           && !(flow == 0 && generation == 0 && nonce == 0)
      ensures e.None? ==> flow in flows && flows == old(flows)
      ensures e.Some? ==> flows == old(flows) || flows == old(flows) - {flow}
      ensures flow in old(flows) && now < old(flows)[flow].lastActivity + limits.flowTTL ==> flow in flows
      ensures stats.started == old(stats).started && stats.closed == old(stats).closed
    {
      e := ChargeData(id, size, now);
      if e.Some? {
        return e;
      }
      if flow == 0 && generation == 0 && nonce == 0 {
        return Some(MissingIdentity);
      }
      var budget := SizeBounds.PayloadBudget(limits.maxTGP, localIP, remoteIP);
      if budget.None? || size > budget.value {
        return Some(TooLargeDatagram);
      }
      var found := FindFlow(flow, generation, nonce, now);
      if found.None? {
        return Some(UnknownFlow);
      }
      var spec := found.value.spec;
      if spec.localIP != localIP || spec.localPort != localPort
         || spec.remoteIP != remoteIP || spec.remotePort != remotePort {
        return Some(UnknownFlow);
      }
      return None;
    }

    method DeliverOn(flow: nat, size: nat, now: int) returns (r: Result<BufferLease, Error>)
      requires Flows() && pool.Valid() && flow in flows
      modifies `flows, pool
      ensures r != Err(RateLimit)
      ensures Flows() && pool.Valid()
      ensures flows == if r.Ok? then old(flows)[flow := Touched(old(flows)[flow], None, now)] else old(flows)
      ensures r.Ok? <==> old(pool.Refusal(Delivery, size, limits.maxDatagram)).None?
      ensures r.Ok? ==>
                fresh(r.value) && pool.live == old(pool.live) + {r.value}
                && pool.issued == old(pool.issued) + {r.value}
      ensures r.Err? ==> pool.issued == old(pool.issued) && pool.live == old(pool.live)
    {
      r := ReserveBuffer(Delivery, size);
      if r.Ok? {
        Touch(flow, None, now);
      }
    }

    /** What both directions check and charge first. */
    method ChargeData(id: nat, size: nat, now: int) returns (e: Option<Error>)
      modifies `packetBucket, `byteBucket, `charges
      ensures e == old(DataError(id, size, now)) && Books() == old(DataBooks(id, size, now))
    {
      e := RequireController(id);
      if e.Some? {
        return e;
      }
      if size > limits.maxDatagram {
        return Some(TooLargeDatagram);
      }
      var ok := ConsumeData(now, size);
      e := if ok then None else Some(RateLimit);
    }

    method ReserveBuffer(d: Direction, size: nat) returns (r: Result<BufferLease, Error>)
      requires pool.Valid()
      modifies pool
      ensures r.Err? ==> r.error.PoolRefused?
      ensures pool.Valid() && (r.Ok? <==> old(pool.Refusal(d, size, limits.maxDatagram)).None?)
      ensures r.Ok? ==>
                fresh(r.value) && pool.live == old(pool.live) + {r.value}
                && pool.issued == old(pool.issued) + {r.value}
      ensures r.Err? ==> pool.issued == old(pool.issued) && pool.live == old(pool.live)
    {
      var reserved := pool.Reserve(d, size, limits.maxDatagram);
      r := match reserved case Ok(l) => Ok(l) case Err(e) => Err(PoolRefused(e));
    }
  }
}
