/** Whole runs of the captured-UDP registry: what its answers say to one another, event by event. */
module RegistryRuns {
  import opened Common
  import opened TokenBuckets
  import opened BufferPools
  import opened Registries
  import opened RegistryLogs
  import Tunnels

  /** A registry with the transports and buffers it has given out. */
  class History {
    const r: Registry
    var transports: seq<Attachment>
    var leases: seq<BufferLease>
    ghost var flags: seq<bool>
    ghost var owned: set<object>

    ghost predicate Owns()
      reads `transports, `leases, `owned
    {
      && r in owned && r.pool in owned
      && (forall a :: a in transports ==> a in owned) && (forall l :: l in leases ==> l in owned)
    }

    /** Whether an event about the transport will be granted. */
    ghost predicate Attaches(e: Event)
      reads `transports, r`closed, r`attachment, r`alive, r`tokenIssued, r`token, r`controller, transports
    {
      match e
      case NewTransport(_, _) => !r.closed
      case Attach(a, random) =>
        && a < |transports| && !r.closed && transports[a].registry == r && transports[a].state == New
        && transports[a].id != 0 && transports[a].verified && r.attachment == null && random.Some?
      case Detach(a) => a < |transports| && transports[a].registry == r && !r.closed && r.attachment == transports[a]
      case Login(a, token, random, _) =>
        && a < |transports| && !r.closed && transports[a].registry == r && r.attachment == transports[a] && !r.alive
        && r.tokenIssued && token == r.token && random.Some?
      case Logout(controller, a) =>
        a < |transports| && !r.closed && r.alive && r.controller == controller && r.attachment == transports[a]
      case _ => true
    }

    /** Whether an event about generations will be granted. */
    ghost predicate Governs(e: Event)
      reads r
    {
      match e
      case Prepare(controller, generation, random, now) =>
        && r.ControlError(controller, now).None? && generation != 0 && r.prepared.None? && generation > r.last
        && random.Some?
      case Commit(controller, transaction, now) =>
        r.ControlError(controller, now).None? && r.prepared == Some(transaction)
      case Abort(controller, transaction, now) =>
        r.ControlError(controller, now).None? && r.prepared == Some(transaction)
      case Disable(controller, generation, now) =>
        r.ControlError(controller, now).None? && generation != 0 && generation == r.active
      case _ => true
    }

    /** Whether an event about flows will be granted. */
    ghost predicate Manages(e: Event)
      reads r
    {
      match e
      case Open(controller, spec, random, now) =>
        var live := Registries.Unexpired(r.flows, r.limits.flowTTL, now);
        && r.ControlError(controller, now).None? && Sound(spec) && spec.generation == r.active
        && spec.id !in live && |live| < r.limits.maxFlows && random.Some?
      case Close(controller, generation, flow, nonce, now) =>
        && r.ControlError(controller, now).None? && generation == r.active
        && flow in r.flows && r.flows[flow].nonce == nonce
      case _ => true
    }

    /** Whether a datagram will be granted. */
    ghost predicate Carries(e: Event)
      reads r, r.pool
    {
      match e
      case Outbound(controller, flow, generation, nonce, sequence, size, now) =>
        && r.DataError(controller, size, now).None? && r.Answers(flow, generation, nonce, now)
        && r.Later(r.flows[flow], sequence, size) && r.pool.Refusal(Accepted, size, r.limits.maxDatagram).None?
      case Inbound(controller, flow, generation, nonce, localIP, localPort, remoteIP, remotePort, size, now) =>
        && r.DataError(controller, size, now).None? && r.Answers(flow, generation, nonce, now)
        && r.Between(r.flows[flow].spec, localIP, localPort, remoteIP, remotePort, size)
        && !(flow == 0 && generation == 0 && nonce == 0)
        && r.pool.Refusal(Delivery, size, r.limits.maxDatagram).None?
      case _ => true
    }

    /** Whether an event will be granted. */
    ghost predicate Grants(e: Event)
      reads this, r, r.pool, transports
    {
      if e.Outbound? || e.Inbound? then Carries(e)
      else if e.Release? then e.lease < |leases|
      else Attaches(e) && Governs(e) && Manages(e)
    }

    /** Whether an event will be refused for its rate. */
    predicate Throttles(e: Event)
      reads r
    {
      if e.Governing() then r.ControlError(e.controller, e.now) == Some(RateLimit)
      else e.Carrying() && r.DataError(e.controller, e.size, e.now) == Some(RateLimit)
    }

    ghost function Now(): State
      reads r`commits, r`stats, r`flows, r`active
    {
      State(r.commits, r.stats, r.flows, r.active)
    }

    ghost function Standing(): Option<nat>
      reads r`alive, r`controller
    {
      if r.alive then Some(r.controller) else None
    }

    /** The buckets after an event. */
    ghost function BooksAfter(e: Event): Account
      reads this, r, transports
    {
      if e.Login? && Attaches(e) then NewAccount(r.limits, Seconds(e.now))
      else if e.Governing() then r.ControlBooks(e.controller, e.now)
      else if e.Carrying() then r.DataBooks(e.controller, e.size, e.now)
      else r.Books()
    }

    ghost predicate Leased()
      reads `flags, `leases, r.pool`issued, r.pool`live
    {
      Holds(leases, flags, r.pool.issued, r.pool.live)
    }

    ghost predicate Attachable()
      reads `transports, r`attachment
    {
      r.attachment == null || r.attachment in transports
    }

    /** Everything but the buffers. */
    ghost predicate Registered()
      reads `transports, r, r.attachment
    {
      r.Linked() && r.Generations() && r.Flows() && Attachable()
    }

    ghost predicate Pooled()
      reads `flags, `leases, r.pool, r.pool.issued
    {
      r.pool.Valid() && Leased()
    }

    ghost predicate Valid()
      reads this, r, r.attachment, r.pool, r.pool.issued
    {
      Registered() && Pooled()
    }

    constructor (limits: Limits)
      requires limits.Valid()
      ensures Valid() && Owns() && fresh(owned) && r.limits == limits
      ensures Logged([])
    {
      r := new Registry(limits);
      transports, leases, flags := [], [], [];
      new;
      owned := {r, r.pool};
      Unused(limits, r.Books());
    }

    lemma IsFree(e: Event)
      requires !e.Login? && !e.Governing() && !e.Carrying()
      ensures BooksAfter(e) == r.Books()
    {
    }

    method OnArrival(e: Event) returns (ok: bool)
      requires r.Linked() && Attachable() && (e.NewTransport? || e.Attach?)
      modifies `transports, transports, r`attachment, r`token, r`tokenIssued
      ensures r.Linked() && Attachable() && ok == old(Attaches(e))
      ensures old(transports) <= transports
      ensures forall i :: |old(transports)| <= i < |transports| ==> fresh(transports[i])
    {
      ok := false;
      match e
      case NewTransport(id, verified) =>
        ok := !r.closed;
        if ok {
          var a := new Attachment(r, id, verified);
          transports := transports + [a];
        }
      case Attach(a, random) =>
        if a < |transports| {
          var got := r.Attach(transports[a], random);
          ok := got.Ok?;
          assert transports[a] in transports;
        }
    }

    method OnLeaving(e: Event) returns (ok: bool)
      requires r.Linked() && r.Generations() && r.Flows() && Attachable() && (e.Detach? || e.Logout? || e.Stop?)
      modifies transports, r`closed, r`attachment, r`token, r`tokenIssued, r`controller, r`alive, r`prepared,
               r`active, r`flows, r`stats
      ensures r.Linked() && r.Generations() && r.Flows() && Attachable()
      ensures Standing() == Succeeding(Done(e, ok), old(Standing()))
      ensures ok == old(Attaches(e))
      ensures Moves(Done(e, ok), old(Now()), Now())
      ensures r.closed == (old(r.closed) || e.Stop?)
    {
      ok := false;
      match e
      case Detach(a) =>
        if a < |transports| {
          var e := r.Detach(transports[a]);
          ok := e.None?;
        }
      case Logout(controller, a) =>
        if a < |transports| {
          var e := r.Disconnect(controller, transports[a]);
          ok := e.None?;
        }
      case Stop =>
        r.Close();
        ok := true;
    }

    method OnPending(e: Event) returns (ok: bool)
      requires r.Generations() && (e.Prepare? || e.Abort?)
      modifies r`controlBucket, r`charges, r`prepared
      ensures r.Generations() && r.Books() == old(BooksAfter(e)) && ok == old(Governs(e))
    {
      match e
      case Prepare(controller, generation, random, now) =>
        var got := r.Prepare(controller, generation, random, now);
        ok := got.Ok?;
      case Abort(controller, transaction, now) =>
        var e := r.Abort(controller, transaction, now);
        ok := e.None?;
    }

    method OnActive(e: Event) returns (ok: bool)
      requires r.Generations() && r.Flows() && (e.Commit? || e.Disable?)
      modifies r`controlBucket, r`charges, r`prepared, r`active, r`last, r`flows, r`stats, r`commits
      ensures r.Generations() && r.Flows()
      ensures r.Books() == old(BooksAfter(e)) && ok == old(Governs(e))
      ensures Moves(Done(e, ok), old(Now()), Now())
    {
      match e
      case Commit(controller, transaction, now) =>
        var e := r.Commit(controller, transaction, now);
        ok := e.None?;
      case Disable(controller, generation, now) =>
        var e := r.Disable(controller, generation, now);
        ok := e.None?;
    }

    method OnOpen(e: Event) returns (ok: bool)
      requires r.Flows() && e.Open?
      modifies r`controlBucket, r`charges, r`flows, r`stats
      ensures r.Flows()
      ensures r.Books() == old(BooksAfter(e))
      ensures ok == old(Manages(e))
      ensures Moves(Done(e, ok), old(Now()), Now())
    {
      var got := r.OpenFlow(e.controller, e.spec, e.random, e.now);
      ok := got.Ok?;
    }

    method OnFlow(e: Event) returns (ok: bool)
      requires r.Flows() && (e.Open? || e.Close? || e.Reap?)
      modifies r`controlBucket, r`charges, r`flows, r`stats
      ensures r.Flows()
      ensures r.Books() == old(BooksAfter(e))
      ensures ok == old(Manages(e))
      ensures Moves(Done(e, ok), old(Now()), Now())
    {
      match e
      case Open(_, _, _, _) =>
        ok := OnOpen(e);
      case Close(controller, generation, flow, nonce, now) =>
        var e := r.CloseFlow(controller, generation, flow, nonce, now);
        ok := e.None?;
      case Reap(now) =>
        r.ExpireFlows(now);
        ok := true;
    }

    method OnOutbound(e: Event) returns (lease: Option<BufferLease>)
      requires r.Flows() && r.pool.Valid() && e.Outbound?
      modifies r`packetBucket, r`byteBucket, r`charges, r`flows, r`stats, r.pool
      ensures r.Flows() && r.pool.Valid()
      ensures r.Books() == old(BooksAfter(e))
      ensures lease.Some? == old(Carries(e))
      ensures Moves(Done(e, lease.Some?), old(Now()), Now())
      ensures r.pool.issued == old(r.pool.issued) + (if lease.Some? then {lease.value} else {})
      ensures r.pool.live == old(r.pool.live) + (if lease.Some? then {lease.value} else {})
      ensures lease.Some? ==> fresh(lease.value)
    {
      var got := r.AcceptDatagram(e.controller, e.flow, e.generation, e.nonce, e.sequence, e.size, e.now);
      lease := if got.Ok? then Some(got.value) else None;
    }

    method OnInbound(e: Event) returns (lease: Option<BufferLease>)
      requires r.Flows() && r.pool.Valid() && e.Inbound?
      modifies r`packetBucket, r`byteBucket, r`charges, r`flows, r`stats, r.pool
      ensures r.Flows() && r.pool.Valid()
      ensures r.Books() == old(BooksAfter(e))
      ensures lease.Some? == old(Carries(e))
      ensures Moves(Done(e, lease.Some?), old(Now()), Now())
      ensures r.pool.issued == old(r.pool.issued) + (if lease.Some? then {lease.value} else {})
      ensures r.pool.live == old(r.pool.live) + (if lease.Some? then {lease.value} else {})
      ensures lease.Some? ==> fresh(lease.value)
    {
      var got := r.ResolveReply(e.controller, e.flow, e.generation, e.nonce, e.localIP, e.localPort, e.remoteIP,
                                e.remotePort, e.size, e.now);
      lease := if got.Ok? then Some(got.value) else None;
    }

    method LogIn(e: Event) returns (ok: bool)
      requires Registered() && e.Login?
      modifies r`token, r`tokenIssued, r`controller, r`alive, r`packetBucket, r`byteBucket, r`controlBucket, r`charges
      ensures Registered() && ok == old(Attaches(e))
      ensures r.Books() == old(BooksAfter(e)) && Standing() == Succeeding(Done(e, ok), old(Standing()))
      ensures Moves(Done(e, ok), old(Now()), Now())
    {
      ok := false;
      if e.a < |transports| {
        var got := r.Authenticate(transports[e.a], e.token, e.random, e.now);
        ok := got.Ok?;
      }
    }

    method Connect(e: Event) returns (ok: bool)
      requires Registered() && (e.NewTransport? || e.Attach? || e.Detach? || e.Logout? || e.Stop?)
      modifies `transports, transports, r`closed, r`attachment, r`token, r`tokenIssued, r`controller, r`alive,
               r`prepared, r`active, r`flows, r`stats
      ensures Registered() && ok == old(Attaches(e))
      ensures Standing() == Succeeding(Done(e, ok), old(Standing()))
      ensures Moves(Done(e, ok), old(Now()), Now())
      ensures r.closed == (old(r.closed) || e.Stop?)
      ensures old(transports) <= transports
      ensures forall i :: |old(transports)| <= i < |transports| ==> fresh(transports[i])
    {
      if e.NewTransport? || e.Attach? {
        ok := OnArrival(e);
      } else {
        ok := OnLeaving(e);
      }
    }

    method Govern(e: Event) returns (ok: bool)
      requires Registered() && (e.Prepare? || e.Commit? || e.Abort? || e.Disable?)
      modifies r`controlBucket, r`charges, r`prepared, r`active, r`last, r`flows, r`stats, r`commits
      ensures Registered() && ok == old(Governs(e))
      ensures r.Books() == old(BooksAfter(e))
      ensures Moves(Done(e, ok), old(Now()), Now())
    {
      if e.Prepare? || e.Abort? {
        ok := OnPending(e);
      } else {
        ok := OnActive(e);
      }
    }

    method Manage(e: Event) returns (ok: bool)
      requires Registered() && (e.Open? || e.Close? || e.Reap?)
      modifies r`controlBucket, r`charges, r`flows, r`stats
      ensures Registered() && ok == old(Manages(e))
      ensures r.Books() == old(BooksAfter(e))
      ensures Moves(Done(e, ok), old(Now()), Now())
    {
      ok := OnFlow(e);
    }

    /** An event about the transport or its controller. */
    method Link(e: Event) returns (ok: bool)
      requires Registered() && (e.NewTransport? || e.Attach? || e.Detach? || e.Login? || e.Logout? || e.Stop?)
      modifies `transports, r, transports
      ensures Registered() && ok == old(Attaches(e))
      ensures r.Books() == old(BooksAfter(e)) && Standing() == Succeeding(Done(e, ok), old(Standing()))
      ensures Moves(Done(e, ok), old(Now()), Now())
      ensures r.closed == (old(r.closed) || e.Stop?)
      ensures old(transports) <= transports
      ensures forall i :: |old(transports)| <= i < |transports| ==> fresh(transports[i])
    {
      if e.Login? {
        ok := LogIn(e);
      } else {
        IsFree(e);
        ok := Connect(e);
      }
    }

    /** An event about generations or flows. */
    method Direct(e: Event) returns (ok: bool)
      requires Registered()
      requires e.Prepare? || e.Commit? || e.Abort? || e.Disable? || e.Open? || e.Close? || e.Reap?
      modifies r`controlBucket, r`charges, r`prepared, r`active, r`last, r`flows, r`stats, r`commits
      ensures Registered() && ok == old(Governs(e) && Manages(e))
      ensures r.Books() == old(BooksAfter(e))
      ensures unchanged(r`closed, r`alive, r`controller)
      ensures Moves(Done(e, ok), old(Now()), Now())
    {
      if e.Open? || e.Close? || e.Reap? {
        ok := Manage(e);
      } else {
        ok := Govern(e);
      }
    }

    /** A datagram; the buffer it was granted is still to be kept. */
    method Carry(e: Event) returns (lease: Option<BufferLease>)
      requires r.Flows() && r.pool.Valid() && (e.Outbound? || e.Inbound?)
      modifies r`packetBucket, r`byteBucket, r`charges, r`flows, r`stats, r.pool
      ensures r.Flows() && r.pool.Valid() && lease.Some? == old(Carries(e))
      ensures r.Books() == old(BooksAfter(e))
      ensures Moves(Done(e, lease.Some?), old(Now()), Now())
      ensures r.pool.issued == old(r.pool.issued) + (if lease.Some? then {lease.value} else {})
      ensures r.pool.live == old(r.pool.live) + (if lease.Some? then {lease.value} else {})
      ensures lease.Some? ==> fresh(lease.value)
    {
      if e.Outbound? {
        lease := OnOutbound(e);
      } else {
        lease := OnInbound(e);
      }
    }

    method Keep(leases: seq<BufferLease>, ghost flags: seq<bool>)
      requires r.pool.Valid()
      modifies `leases, `flags
      ensures r.pool.Valid() && this.leases == leases && this.flags == flags
    {
      this.leases, this.flags := leases, flags;
    }

    /** Keeps the buffer a datagram was granted. */
    method Lend(e: Event, lease: Option<BufferLease>, ghost issued: set<BufferLease>, ghost live: set<BufferLease>)
      requires Holds(leases, flags, issued, live) && (e.Outbound? || e.Inbound?)
      requires r.pool.Valid()
      requires lease.Some? ==> lease.value !in leases
      requires r.pool.issued == issued + (if lease.Some? then {lease.value} else {})
      requires r.pool.live == live + (if lease.Some? then {lease.value} else {})
      modifies `leases, `flags
      ensures Pooled() && flags == Flagged(old(flags), Done(e, lease.Some?))
      ensures old(leases) <= leases && forall i :: |old(leases)| <= i < |leases| ==> lease == Some(leases[i])
    {
      if lease.Some? {
        LendingKeepsHeld(leases, flags, issued, live, lease.value);
        Keep(leases + [lease.value], flags + [false]);
      }
    }

    method CarryAndLend(e: Event) returns (ok: bool)
      requires r.Flows() && Pooled() && (e.Outbound? || e.Inbound?)
      modifies `leases, `flags, r`packetBucket, r`byteBucket, r`charges, r`flows, r`stats, r.pool
      ensures r.Flows() && Pooled() && ok == old(Carries(e))
      ensures r.Books() == old(BooksAfter(e))
      ensures Moves(Done(e, ok), old(Now()), Now())
      ensures flags == Flagged(old(flags), Done(e, ok))
      ensures old(leases) <= leases
      ensures forall i :: |old(leases)| <= i < |leases| ==> fresh(leases[i])
    {
      ghost var issued, live := r.pool.issued, r.pool.live;
      var lease := Carry(e);
      ok := lease.Some?;
      Lend(e, lease, issued, live);
    }

    method Datagram(e: Event) returns (ok: bool)
      requires r.Generations() && r.Flows() && Pooled() && (e.Outbound? || e.Inbound?)
      modifies `leases, `flags, r`packetBucket, r`byteBucket, r`charges, r`flows, r`stats, r.pool
      ensures r.Generations() && r.Flows() && Pooled() && ok == old(Carries(e))
      ensures r.Books() == old(BooksAfter(e))
      ensures Moves(Done(e, ok), old(Now()), Now())
      ensures flags == Flagged(old(flags), Done(e, ok))
      ensures old(leases) <= leases
      ensures forall i :: |old(leases)| <= i < |leases| ==> fresh(leases[i])
    {
      ok := CarryAndLend(e);
      assert unchanged(r`alive, r`prepared, r`active, r`last, r`commits);
    }

    method Data(e: Event) returns (ok: bool)
      requires Valid() && (e.Outbound? || e.Inbound?)
      modifies `leases, `flags, r`packetBucket, r`byteBucket, r`charges, r`flows, r`stats, r.pool
      ensures Valid() && ok == old(Carries(e))
      ensures r.Books() == old(BooksAfter(e))
      ensures unchanged(r`closed, r`alive, r`controller)
      ensures Moves(Done(e, ok), old(Now()), Now())
      ensures flags == Flagged(old(flags), Done(e, ok))
      ensures old(leases) <= leases
      ensures forall i :: |old(leases)| <= i < |leases| ==> fresh(leases[i])
    {
      ok := Datagram(e);
      assert unchanged(r`closed, r`attachment, r`alive, r`controller, r`tokenIssued, `transports);
      assert r.attachment != null ==> unchanged(r.attachment);
    }

    /** A buffer is given back, perhaps once more. */
    method GiveBack(i: nat)
      requires Pooled() && i < |leases|
      modifies `flags, r.pool, leases
      ensures Pooled() && flags == old(flags)[i := true]
    {
      ReleasingKeepsHeld(leases, flags, r.pool.issued, r.pool.live, i);
      flags := flags[i := true];
      r.pool.Release(leases[i]);
    }

    method Release(e: Event) returns (ok: bool)
      requires Valid() && e.Release?
      modifies `flags, r.pool, leases
      ensures Valid() && ok == (e.lease < |leases|) && flags == Flagged(old(flags), Done(e, ok))
      ensures unchanged(r`closed, r`alive, r`controller)
      ensures Moves(Done(e, ok), old(Now()), Now())
    {
      ok := e.lease < |leases|;
      if ok {
        GiveBack(e.lease);
      }
    }

    /** An event about a buffer. */
    method Use(e: Event) returns (ok: bool)
      requires Valid() && (e.Release? || e.Outbound? || e.Inbound?)
      modifies `leases, `flags, r`packetBucket, r`byteBucket, r`charges, r`flows, r`stats, r.pool, leases
      ensures Valid() && ok == old(Grants(e))
      ensures r.Books() == old(BooksAfter(e))
      ensures unchanged(r`closed, r`alive, r`controller)
      ensures Moves(Done(e, ok), old(Now()), Now())
      ensures flags == Flagged(old(flags), Done(e, ok))
      ensures old(leases) <= leases
      ensures forall i :: |old(leases)| <= i < |leases| ==> fresh(leases[i])
    {
      if e.Release? {
        IsFree(e);
        ok := Release(e);
      } else {
        ok := Data(e);
      }
    }

    /** Any other event. */
    method Rule(e: Event) returns (ok: bool)
      requires Registered() && !e.Release? && !e.Outbound? && !e.Inbound?
      modifies `transports, r, transports
      ensures Registered() && ok == old(Grants(e))
      ensures r.Books() == old(BooksAfter(e)) && Standing() == Succeeding(Done(e, ok), old(Standing()))
      ensures r.closed == (old(r.closed) || e.Stop?)
      ensures Moves(Done(e, ok), old(Now()), Now())
      ensures old(transports) <= transports
      ensures forall i :: |old(transports)| <= i < |transports| ==> fresh(transports[i])
    {
      if e.Prepare? || e.Commit? || e.Abort? || e.Disable? || e.Open? || e.Close? || e.Reap? {
        ok := Direct(e);
      } else {
        ok := Link(e);
      }
    }

    /** Any event. */
    method Apply(e: Event) returns (ok: bool)
      requires Valid()
      modifies `transports, `leases, `flags, r, transports, r.pool, leases
      ensures Valid() && ok == old(Grants(e))
      ensures r.Books() == old(BooksAfter(e)) && Standing() == Succeeding(Done(e, ok), old(Standing()))
      ensures r.closed == (old(r.closed) || e.Stop?)
      ensures Moves(Done(e, ok), old(Now()), Now())
      ensures flags == Flagged(old(flags), Done(e, ok))
      ensures old(transports) <= transports
      ensures forall i :: |old(transports)| <= i < |transports| ==> fresh(transports[i])
      ensures old(leases) <= leases
      ensures forall i :: |old(leases)| <= i < |leases| ==> fresh(leases[i])
    {
      if e.Release? || e.Outbound? || e.Inbound? {
        Stays(e, Standing());
        ok := Use(e);
      } else {
        ok := Rule(e);
      }
    }

    /** The log is of what happened to this registry. */
    ghost predicate Logged(log: seq<Done>)
      reads `flags, r
    {
      Tied(r.limits, log, Now(), flags, r.closed, Standing(), r.Books())
    }

    /** What a log tells of the registry it is the log of. */
    lemma Account(log: seq<Done>)
      requires Valid() && Logged(log)
      ensures Increasing(Committed(log)) && Disciplined(log) && |leases| == Granted(log)
      ensures WithinRates(r.limits, log) && AllMetered(r.limits, log)
      ensures OpenedFlows(log) == |r.flows| + ClosedFlows(log) + r.stats.evicted + r.stats.expired
      ensures r.pool.live == set l | 0 <= l < |leases| && !Released(log, l) :: leases[l]
      ensures Counts(r.pool.counters, r.pool.live) && Capped(r.pool.counters, r.pool.maxBytes)
      ensures r.flows != map[] ==>
                r.alive && r.attachment != null && r.attachment.verified && r.active == Last(Committed(log)) != 0
    {
      assert r.flows != map[] ==> exists id :: id in r.flows;
    }

    /** What is granted fits the state, to the current controller, and is charged. */
    lemma GrantsFit(e: Event)
      requires Registered()
      ensures Fits(Done(e, Grants(e)), Now()) && Serves(Done(e, Grants(e)), Standing())
    {
    }

    /** What is asked of the buckets is what the log says. */
    lemma AskingIsCharged(e: Event)
      requires r.Linked()
      ensures BooksAfter(e).charges == AskedAfter(r.limits, r.charges, Standing(), Done(e, Grants(e), Throttles(e)))
    {
      AskedMeans(r.limits, r.charges, Standing(), Done(e, Grants(e), Throttles(e)));
    }

    /** And the buckets stay what that leaves of them. */
    lemma BooksAreKept(e: Event)
      requires r.limits.Valid() && r.Books().Kept(r.limits)
      ensures BooksAfter(e).Kept(r.limits)
    {
      if e.Governing() {
        ControlIsKept(r.Books(), r.limits, e.now);
      } else if e.Carrying() {
        DataIsKept(r.Books(), r.limits, e.now, e.size);
      } else {
        NewIsKept(r.limits, if e.Login? then Seconds(e.now) else 0.0);
      }
    }

    lemma ThrottledIsUnpayable(e: Event)
      requires r.Linked() && r.limits.Valid() && r.Books().Kept(r.limits) && (r.alive ==> r.charges.used)
      requires e.Governing() || e.Carrying()
      ensures Throttles(e) <==> Asks(r.limits, Standing(), e) && !Payable(r.limits, r.charges, e)
    {
      if r.charges.used {
        PayableMeans(r.limits, r.Books(), e);
      }
    }

    lemma GrantsAreAsked(e: Event)
      requires r.Linked()
      ensures Grants(e) && (e.Governing() || e.Carrying()) ==> Asks(r.limits, Standing(), e) && !Throttles(e)
      ensures Throttles(e) ==> !Grants(e)
    {
    }

    lemma GrantsAreMetered(e: Event, log: seq<Done>)
      requires Registered() && Logged(log)
      ensures Metes(r.limits, log, Done(e, Grants(e), Throttles(e)))
    {
      GrantedIsPaid(r.limits, log);
      GrantsAreAsked(e);
      if e.Governing() || e.Carrying() {
        ThrottledIsUnpayable(e);
      }
    }

    lemma GrantsAreAnswers(e: Event, log: seq<Done>)
      requires Leased() && Logged(log)
      ensures Answered(log, Done(e, Grants(e)))
    {
    }

    /** The next event of a run, logged. */
    method Log(e: Event, log: seq<Done>) returns (more: seq<Done>)
      requires Valid() && Logged(log)
      modifies `transports, `leases, `flags, r, transports, r.pool, leases
      ensures Valid() && Logged(more)
      ensures more == log + [Done(e, old(Grants(e)), old(Throttles(e)))]
      ensures old(transports) <= transports
      ensures forall i :: |old(transports)| <= i < |transports| ==> fresh(transports[i])
      ensures old(leases) <= leases
      ensures forall i :: |old(leases)| <= i < |leases| ==> fresh(leases[i])
    {
      ghost var before, was, standing, closed, books := Now(), flags, Standing(), r.closed, r.Books();
      GrantsAreAnswers(e, log);
      GrantsFit(e);
      AskingIsCharged(e);
      BooksAreKept(e);
      GrantsAreMetered(e, log);
      var limited := Throttles(e);
      var ok := Apply(e);
      TyingStays(r.limits, log, Done(e, ok, limited), before, Now(), was, flags, closed, r.closed, standing, Standing(),
                 books, r.Books());
      more := log + [Done(e, ok, limited)];
    }

    method Own()
      requires r in owned && r.pool in owned
      modifies `owned
      ensures Owns() && owned == old(owned) + (set a | a in transports) + (set l | l in leases)
    {
      owned := owned + (set a | a in transports) + (set l | l in leases);
    }

    method Follow(e: Event, log: seq<Done>) returns (more: seq<Done>)
      requires Valid() && Owns() && Logged(log)
      modifies this, owned
      ensures Valid() && Owns() && fresh(owned - old(owned)) && Logged(more)
      ensures exists d :: more == log + [d] && d.event == e
    {
      more := Log(e, log);
      Own();
    }

    method FollowAll(events: seq<Event>) returns (log: seq<Done>)
      requires Valid() && Owns() && Logged([])
      modifies this, owned
      ensures Valid() && Logged(log)
      ensures |log| == |events| && forall i :: 0 <= i < |events| ==> log[i].event == events[i]
    {
      log := [];
      for i := 0 to |events|
        invariant fresh(owned - old(owned)) && Valid() && Owns() && |log| == i
        invariant forall n :: 0 <= n < i ==> log[n].event == events[n]
        invariant Logged(log)
      {
        log := Follow(events[i], log);
      }
    }
  }

  /** Every run, event by event. Only the one current controller is served, and at every moment the datagrams,
      bytes and control operations granted since it logged in are within burst and rate up to the latest clock
      reading. The generations committed increase across all controllers; flows and datagrams are granted only
      under the generation committed last; the sequence numbers granted on a lease increase; flows opened are
      open, closed, evicted or expired; and the buffer counters are the sums over exactly the buffers granted and
      not released, within their caps. */
  method Run(limits: Limits, events: seq<Event>) returns (h: History, log: seq<Done>)
    requires limits.Valid()
    ensures h.Valid() && |log| == |events| && forall i :: 0 <= i < |events| ==> log[i].event == events[i]
    ensures Increasing(Committed(log)) && Disciplined(log) && WithinRates(limits, log)
    ensures AllMetered(limits, log)
    ensures OpenedFlows(log) == |h.r.flows| + ClosedFlows(log) + h.r.stats.evicted + h.r.stats.expired
    ensures |h.leases| == Granted(log)
    ensures h.r.pool.live == set l | 0 <= l < |h.leases| && !Released(log, l) :: h.leases[l]
    ensures Counts(h.r.pool.counters, h.r.pool.live) && Capped(h.r.pool.counters, h.r.pool.maxBytes)
    ensures h.r.flows != map[] ==>
              h.r.alive && h.r.attachment != null && h.r.attachment.verified && h.r.active == Last(Committed(log)) != 0
  {
    h := new History(limits);
    log := h.FollowAll(events);
    h.Account(log);
  }
}
