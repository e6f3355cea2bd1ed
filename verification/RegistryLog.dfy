/** What can happen to the captured-UDP registry, and what a log of its answers tells. */
module RegistryLogs {
  import opened Common
  import opened TokenBuckets
  import opened BufferPools
  import opened Registries
  import Tunnels

  /** What can happen to a registry; attachments and buffer leases are named by the order of their creation. */
  datatype Event =
    | NewTransport(id: nat, verified: bool)
    | Attach(a: nat, random: Option<nat>)
    | Detach(a: nat)
    | Login(a: nat, token: nat, random: Option<nat>, now: int)
    | Logout(controller: nat, a: nat)
    | Prepare(controller: nat, generation: nat, random: Option<nat>, now: int)
    | Commit(controller: nat, transaction: Prepared, now: int)
    | Abort(controller: nat, transaction: Prepared, now: int)
    | Disable(controller: nat, generation: nat, now: int)
    | Open(controller: nat, spec: FlowSpec, random: Option<nat>, now: int)
    | Close(controller: nat, generation: nat, flow: nat, nonce: nat, now: int)
    | Outbound(controller: nat, flow: nat, generation: nat, nonce: nat, sequence: nat, size: nat, now: int)
    | Inbound(controller: nat, flow: nat, generation: nat, nonce: nat, localIP: Tunnels.Addr, localPort: nat,
              remoteIP: Tunnels.Addr, remotePort: nat, size: nat, now: int)
    | Release(lease: nat)
    | Reap(now: int)
    | Stop
  {
    predicate Governing() {
      Prepare? || Commit? || Abort? || Disable? || Open? || Close?
    }

    predicate Carrying() {
      Outbound? || Inbound?
    }
  }

  /** An event, whether it was granted, and whether it was refused for its rate. */
  datatype Done = Done(event: Event, ok: bool, limited: bool := false)

  ghost function Front(log: seq<Done>): seq<Done>
    requires log != []
  {
    log[..|log| - 1]
  }

  ghost function Back(log: seq<Done>): Done
    requires log != []
  {
    log[|log| - 1]
  }

  // ----- what a log says -----

  /** The generations committed, in order. */
  ghost function Committed(log: seq<Done>): seq<nat> {
    if log == [] then []
    else
      var d := Back(log);
      Committed(Front(log)) + if d.ok && d.event.Commit? then [d.event.transaction.generation] else []
  }

  /** The controller that logged in last, unless it or its transport has gone. */
  ghost function Controller(log: seq<Done>): Option<nat> {
    if log == [] then None else Succeeding(Back(log), Controller(Front(log)))
  }

  ghost function Succeeding(d: Done, controller: Option<nat>): Option<nat> {
    if d.ok && d.event.Login? then d.event.random
    else if d.ok && (d.event.Logout? || d.event.Detach? || d.event.Stop?) then None
    else controller
  }

  lemma Stays(e: Event, controller: Option<nat>)
    requires !e.Login? && !e.Logout? && !e.Detach? && !e.Stop?
    ensures forall ok :: Succeeding(Done(e, ok), controller) == controller
  {
  }

  /** Who may be granted an event. */
  ghost predicate Serves(d: Done, controller: Option<nat>) {
    && (d.ok && (d.event.Governing() || d.event.Carrying()) ==> controller == Some(d.event.controller))
    && (d.ok && d.event.Login? ==> controller == None && d.event.random.Some?)
  }

  /** What a controller was granted: when it logged in, the latest clock reading since, and how many datagrams,
      bytes and control operations. */
  datatype Spending = Spending(login: real, latest: real, packets: real, bytes: real, control: real) {
    /** An event that carries a clock reading, and what it is granted. */
    ghost function Plus(d: Done): Spending {
      if d.ok && d.event.Login? then Spending(Seconds(d.event.now), Seconds(d.event.now), 0.0, 0.0, 0.0)
      else if d.event.Governing() then
        this.(latest := RMax(latest, Seconds(d.event.now)), control := control + if d.ok then 1.0 else 0.0)
      else if d.event.Carrying() then
        this.(latest := RMax(latest, Seconds(d.event.now)), packets := packets + if d.ok then 1.0 else 0.0,
              bytes := bytes + if d.ok then Max(d.event.size, 1) as real else 0.0)
      else this
    }

    /** Each of them is within the configured burst, and the rate over the time since the login. */
    ghost predicate Within(limits: Limits) {
      && packets <= Allowance(limits.packetRate, limits.packetBurst, login, latest)
      && bytes <= Allowance(limits.byteRate, limits.byteBurst, login, latest)
      && control <= Allowance(limits.controlRate, limits.controlBurst, login, latest)
    }
  }

  /** Since the login granted last. */
  ghost function Spent(log: seq<Done>): Spending {
    if log == [] then Spending(0.0, 0.0, 0.0, 0.0, 0.0) else Spent(Front(log)).Plus(Back(log))
  }

  ghost predicate WithinRates(limits: Limits, log: seq<Done>) {
    forall i :: 0 <= i <= |log| ==> Spent(log[..i]).Within(limits)
  }

  lemma WithinRatesAppend(limits: Limits, log: seq<Done>, d: Done)
    requires WithinRates(limits, log) && Spent(log + [d]).Within(limits)
    ensures WithinRates(limits, log + [d])
  {
    forall i | 0 <= i <= |log + [d]| ensures Spent((log + [d])[..i]).Within(limits) {
      if i <= |log| {
        assert (log + [d])[..i] == log[..i];
      } else {
        assert (log + [d])[..i] == log + [d];
      }
    }
  }

  // ----- what a log says of the rates -----

  /** The current controller asks for something that has a rate. */
  predicate Asks(limits: Limits, controller: Option<nat>, e: Event) {
    && (e.Governing() || (e.Carrying() && e.size <= limits.maxDatagram))
    && controller == Some(e.controller)
  }

  /** What the current controller has asked for since it logged in. */
  ghost function Asked(limits: Limits, log: seq<Done>): Charges {
    if log == [] then UNCHARGED
    else AskedAfter(limits, Asked(limits, Front(log)), Controller(Front(log)), Back(log))
  }

  ghost function AskedAfter(limits: Limits, c: Charges, controller: Option<nat>, d: Done): Charges {
    if d.ok && d.event.Login? then Charges(true, Seconds(d.event.now), [], [], [])
    else if !Asks(limits, controller, d.event) then c
    else
      var now := Seconds(d.event.now);
      if d.event.Governing() then c.(control := c.control + [Call(now, 1.0, !d.limited)])
      else
        var cost := Max(d.event.size, 1) as real;
        c.(packets := c.packets + [Call(now, 1.0, !d.limited)], bytes := c.bytes + [Call(now, cost, !d.limited)])
  }

  /** What was asked for before leaves room for an event: one control token, or a packet and its bytes. */
  ghost predicate Payable(limits: Limits, c: Charges, e: Event)
    requires e.Governing() || e.Carrying()
  {
    if e.Governing() then AffordsControl(limits, c, e.now) else AffordsData(limits, c, e.size, e.now)
  }

  /** The buckets pay for what is payable. */
  lemma PayableMeans(limits: Limits, a: Account, e: Event)
    requires a.Kept(limits) && limits.Valid() && a.charges.used && (e.Governing() || e.Carrying())
    ensures Payable(limits, a.charges, e) <==> if e.Governing() then a.PaysControl(e.now) else a.PaysData(e.now, e.size)
  {
    if e.Governing() {
      ControlIsFair(a, limits, e.now);
    } else {
      DataIsFair(a, limits, e.now, e.size);
    }
  }

  /** An event is refused for its rate exactly when the current controller asks and there is no room. */
  ghost predicate Metes(limits: Limits, log: seq<Done>, d: Done) {
    && (d.limited <==> Asks(limits, Controller(log), d.event) && !Payable(limits, Asked(limits, log), d.event))
    && (d.limited ==> !d.ok)
    && (d.ok && (d.event.Governing() || d.event.Carrying()) ==> Asks(limits, Controller(log), d.event))
  }

  ghost predicate AllMetered(limits: Limits, log: seq<Done>) {
    log == [] || (AllMetered(limits, Front(log)) && Metes(limits, Front(log), Back(log)))
  }

  /** Of everything granted since the last login the price was asked, no later than the latest clock reading. */
  ghost predicate Paid(c: Charges, s: Spending) {
    && c.start == s.login <= s.latest
    && PaidFor(c.start, c.packets, s.packets, s.latest) && PaidFor(c.start, c.bytes, s.bytes, s.latest)
    && PaidFor(c.start, c.control, s.control, s.latest)
  }

  ghost predicate PaidFor(start: real, calls: seq<Call>, n: real, latest: real) {
    Latest(start, calls) <= latest && n <= Cost(calls)
  }

  lemma MeteringStays(limits: Limits, log: seq<Done>, d: Done)
    requires AllMetered(limits, log) && Metes(limits, log, d)
    ensures AllMetered(limits, log + [d])
    ensures Asked(limits, log + [d]) == AskedAfter(limits, Asked(limits, log), Controller(log), d)
  {
    assert Front(log + [d]) == log && Back(log + [d]) == d;
  }

  /** One more call, of which nothing or its cost is granted. */
  lemma OneMoreIsPaid(start: real, calls: seq<Call>, call: Call, granted: real, n: real, latest: real)
    requires PaidFor(start, calls, n, latest) && granted <= if call.granted then call.cost else 0.0
    ensures PaidFor(start, calls + [call], n + granted, RMax(latest, call.now))
  {
    OneMoreCall(0.0, start, calls, call);
  }

  /** The registry's own tally says the same. */
  lemma AskedMeans(limits: Limits, c: Charges, controller: Option<nat>, d: Done)
    ensures AskedAfter(limits, c, controller, d) ==
            if d.ok && d.event.Login? then Charges(true, Seconds(d.event.now), [], [], [])
            else if !Asks(limits, controller, d.event) then c
            else if d.event.Governing() then c.Control(Seconds(d.event.now), !d.limited)
            else c.Data(Seconds(d.event.now), d.event.size, !d.limited)
  {
  }

  lemma ControlIsPaid(c: Charges, s: Spending, now: real, charged: bool, granted: real)
    requires Paid(c, s) && granted <= if charged then 1.0 else 0.0
    ensures Paid(c.Control(now, charged), s.(latest := RMax(s.latest, now), control := s.control + granted))
  {
    OneMoreIsPaid(c.start, c.control, Call(now, 1.0, charged), granted, s.control, s.latest);
  }

  lemma DataIsPaid(c: Charges, s: Spending, now: real, size: nat, charged: bool, granted: real, bytes: real)
    requires Paid(c, s) && granted <= if charged then 1.0 else 0.0
    requires bytes <= if charged then Max(size, 1) as real else 0.0
    ensures Paid(c.Data(now, size, charged),
                 s.(latest := RMax(s.latest, now), packets := s.packets + granted, bytes := s.bytes + bytes))
  {
    OneMoreIsPaid(c.start, c.packets, Call(now, 1.0, charged), granted, s.packets, s.latest);
    OneMoreIsPaid(c.start, c.bytes, Call(now, Max(size, 1) as real, charged), bytes, s.bytes, s.latest);
  }

  /** A refusal costs nothing. */
  lemma RefusalIsPaid(c: Charges, s: Spending, d: Done)
    requires Paid(c, s) && !d.ok
    ensures Paid(c, s.Plus(d))
  {
  }

  /** A tally that was paid is within burst and rate. */
  lemma PaidIsWithin(n: real, rate: real, burst: real, start: real, calls: seq<Call>, end: real)
    requires n <= Cost(calls) && Cost(calls) <= Allowance(rate, burst, start, Latest(start, calls))
    requires rate >= 0.0 && Latest(start, calls) <= end
    ensures n <= Allowance(rate, burst, start, end)
  {
    AllowanceGrows(rate, burst, start, Latest(start, calls), end);
  }

  /** The calls cost no more than burst and rate allow. */
  ghost predicate Allowed(limits: Limits, c: Charges) {
    && Cost(c.packets) <= Allowance(limits.packetRate, limits.packetBurst, c.start, Latest(c.start, c.packets))
    && Cost(c.bytes) <= Allowance(limits.byteRate, limits.byteBurst, c.start, Latest(c.start, c.bytes))
    && Cost(c.control) <= Allowance(limits.controlRate, limits.controlBurst, c.start, Latest(c.start, c.control))
  }

  lemma AllowedIsWithin(limits: Limits, c: Charges, s: Spending)
    requires limits.Valid() && Paid(c, s) && Allowed(limits, c)
    ensures s.Within(limits)
  {
    PaidIsWithin(s.packets, limits.packetRate, limits.packetBurst, c.start, c.packets, s.latest);
    PaidIsWithin(s.bytes, limits.byteRate, limits.byteBurst, c.start, c.bytes, s.latest);
    PaidIsWithin(s.control, limits.controlRate, limits.controlBurst, c.start, c.control, s.latest);
  }

  /** Before the first login nothing is granted. */
  lemma NothingIsWithin(limits: Limits, s: Spending)
    requires limits.Valid() && s.packets == 0.0 && s.bytes == 0.0 && s.control == 0.0 && s.login <= s.latest
    ensures s.Within(limits)
  {
    AllowanceGrows(limits.packetRate, limits.packetBurst, s.login, s.login, s.latest);
    AllowanceGrows(limits.byteRate, limits.byteBurst, s.login, s.login, s.latest);
    AllowanceGrows(limits.controlRate, limits.controlBurst, s.login, s.login, s.latest);
  }

  lemma {:induction false} GrantedIsPaid(limits: Limits, log: seq<Done>)
    requires AllMetered(limits, log)
    ensures Paid(Asked(limits, log), Spent(log)) && (Controller(log).Some? ==> Asked(limits, log).used)
    ensures !Asked(limits, log).used ==> Spent(log).packets == Spent(log).bytes == Spent(log).control == 0.0
  {
    if log != [] {
      var front, d := Front(log), Back(log);
      GrantedIsPaid(limits, front);
      AskedMeans(limits, Asked(limits, front), Controller(front), d);
      if !d.ok {
        RefusalIsPaid(Asked(limits, front), Spent(front), d);
      }
      var c, s := Asked(limits, front), Spent(front);
      if d.event.Governing() {
        ControlIsPaid(c, s, Seconds(d.event.now), !d.limited, if d.ok then 1.0 else 0.0);
      } else if d.event.Carrying() {
        DataIsPaid(c, s, Seconds(d.event.now), d.event.size, !d.limited, if d.ok then 1.0 else 0.0,
                   if d.ok then Max(d.event.size, 1) as real else 0.0);
      }
    }
  }

  /** The sequence number last accepted on a flow since it was last opened. */
  ghost function LastSequence(log: seq<Done>, flow: nat): Option<nat> {
    if log == [] then None
    else
      var d := Back(log);
      if d.ok && d.event.Open? && d.event.spec.id == flow then None
      else if d.ok && d.event.Outbound? && d.event.flow == flow then Some(d.event.sequence)
      else LastSequence(Front(log), flow)
  }

  ghost function OpenedFlows(log: seq<Done>): nat {
    if log == [] then 0 else OpenedFlows(Front(log)) + if Back(log).ok && Back(log).event.Open? then 1 else 0
  }

  ghost function ClosedFlows(log: seq<Done>): nat {
    if log == [] then 0 else ClosedFlows(Front(log)) + if Back(log).ok && Back(log).event.Close? then 1 else 0
  }

  /** How many buffers were handed out. */
  ghost function Granted(log: seq<Done>): nat {
    if log == [] then 0
    else Granted(Front(log)) + if Back(log).ok && (Back(log).event.Outbound? || Back(log).event.Inbound?) then 1 else 0
  }

  /** The buffer was released at least once. */
  ghost predicate Released(log: seq<Done>, lease: nat) {
    log != [] && (Released(Front(log), lease) || (Back(log).ok && Back(log).event == Release(lease)))
  }

  /** What a granted event says about those before it: it is the current controller that asked, and nobody
      logs in beside one; flows and datagrams belong to the generation committed last, and a datagram is later
      than the one accepted on its lease before. */
  ghost predicate InOrder(log: seq<Done>, d: Done) {
    && Serves(d, Controller(log))
    && (d.ok ==>
      && (d.event.Open? ==> d.event.spec.generation == Last(Committed(log)))
      && (d.event.Outbound? || d.event.Inbound? ==> d.event.generation == Last(Committed(log)))
      && (d.event.Outbound? ==>
            LastSequence(log, d.event.flow).None? || LastSequence(log, d.event.flow).value < d.event.sequence))
  }

  ghost predicate Stopped(log: seq<Done>) {
    log != [] && (Stopped(Front(log)) || Back(log).event.Stop?)
  }

  /** What is granted whatever else happened: a transport until the registry is stopped, the release of a
      buffer that was handed out, the removal of idle flows, and the stop. */
  ghost predicate Answered(log: seq<Done>, d: Done) {
    && (d.event.NewTransport? ==> (d.ok <==> !Stopped(log)))
    && (d.event.Release? ==> (d.ok <==> d.event.lease < Granted(log)))
    && (d.event.Reap? || d.event.Stop? ==> d.ok)
  }

  ghost predicate Disciplined(log: seq<Done>) {
    forall i :: 0 <= i < |log| ==> InOrder(log[..i], log[i]) && Answered(log[..i], log[i])
  }

  lemma DisciplinedAppend(log: seq<Done>, d: Done)
    requires Disciplined(log) && InOrder(log, d) && Answered(log, d)
    ensures Disciplined(log + [d])
  {
    forall i | 0 <= i < |log + [d]|
      ensures InOrder((log + [d])[..i], (log + [d])[i]) && Answered((log + [d])[..i], (log + [d])[i])
    {
      if i < |log| {
        assert (log + [d])[..i] == log[..i];
      } else {
        assert (log + [d])[..i] == log;
      }
    }
  }

  /** What the state after an event has to do with the log. */
  ghost predicate FlowsFollow(before: map<nat, Flow>, after: map<nat, Flow>, d: Done) {
    forall id :: id in after ==>
      if d.ok && d.event.Open? && d.event.spec.id == id then after[id].sequence == None
      else && id in before
           && after[id].sequence == if d.ok && d.event.Outbound? && d.event.flow == id then Some(d.event.sequence)
                                    else before[id].sequence
  }

  ghost predicate SequencesOf(flows: map<nat, Flow>, log: seq<Done>) {
    forall id :: id in flows ==> flows[id].sequence == LastSequence(log, id)
  }

  lemma FollowingKeepsSequences(before: map<nat, Flow>, after: map<nat, Flow>, log: seq<Done>, d: Done)
    requires SequencesOf(before, log) && FlowsFollow(before, after, d)
    ensures SequencesOf(after, log + [d])
  {
    assert Front(log + [d]) == log && Back(log + [d]) == d;
  }

  /** What a log can tell of a registry. */
  datatype State = State(commits: seq<nat>, stats: FlowStats, flows: map<nat, Flow>, active: nat)

  /** The state is what the log says. */
  ghost predicate Consistent(log: seq<Done>, s: State) {
    && s.commits == Committed(log) && s.stats.started == OpenedFlows(log) && s.stats.closed == ClosedFlows(log)
    && SequencesOf(s.flows, log) && Disciplined(log)
  }

  /** A granted flow or datagram is of the active generation, a datagram later than the last on its flow. */
  ghost predicate Fits(d: Done, s: State) {
    d.ok ==>
      && (d.event.Open? ==> d.event.spec.generation == s.active != 0)
      && (d.event.Outbound? || d.event.Inbound? ==> d.event.generation == s.active != 0 && d.event.flow in s.flows)
      && (d.event.Outbound? && s.flows[d.event.flow].sequence.Some? ==>
            s.flows[d.event.flow].sequence.value < d.event.sequence)
  }

  /** A step the state can take with an event. */
  ghost predicate Moves(d: Done, s: State, s': State) {
    && s'.commits == (if d.ok && d.event.Commit? then s.commits + [d.event.transaction.generation] else s.commits)
    && s'.stats.started == s.stats.started + (if d.ok && d.event.Open? then 1 else 0)
    && s'.stats.closed == s.stats.closed + (if d.ok && d.event.Close? then 1 else 0)
    && FlowsFollow(s.flows, s'.flows, d)
  }

  lemma FittingIsInOrder(log: seq<Done>, d: Done, s: State)
    requires Consistent(log, s) && (s.active == 0 || s.active == Last(s.commits))
    requires Fits(d, s) && Serves(d, Controller(log))
    ensures InOrder(log, d)
  {
  }

  /** The counts a log keeps, one event on. */
  lemma Counted(log: seq<Done>, d: Done)
    ensures Committed(log + [d]) == Committed(log) + if d.ok && d.event.Commit?
                                                     then [d.event.transaction.generation] else []
    ensures OpenedFlows(log + [d]) == OpenedFlows(log) + if d.ok && d.event.Open? then 1 else 0
    ensures ClosedFlows(log + [d]) == ClosedFlows(log) + if d.ok && d.event.Close? then 1 else 0
  {
    assert Front(log + [d]) == log && Back(log + [d]) == d;
  }

  lemma MovingKeepsConsistent(log: seq<Done>, d: Done, s: State, s': State)
    requires Consistent(log, s) && (s.active == 0 || s.active == Last(s.commits))
    requires Fits(d, s) && Moves(d, s, s') && Answered(log, d) && Serves(d, Controller(log))
    ensures Consistent(log + [d], s')
  {
    FittingIsInOrder(log, d, s);
    DisciplinedAppend(log, d);
    FollowingKeepsSequences(s.flows, s'.flows, log, d);
    Counted(log, d);
  }

  /** One flag for each buffer granted, set when the log says it was released. */
  ghost predicate Lent(log: seq<Done>, flags: seq<bool>) {
    && |flags| == Granted(log)
    && (forall l :: 0 <= l < |flags| ==> (flags[l] <==> Released(log, l)))
    && forall l: nat :: Released(log, l) ==> l < |flags|
  }

  /** What an event does to the flags. */
  ghost function Flagged(flags: seq<bool>, d: Done): seq<bool> {
    if d.ok && (d.event.Outbound? || d.event.Inbound?) then flags + [false]
    else if d.ok && d.event.Release? && d.event.lease < |flags| then flags[d.event.lease := true]
    else flags
  }

  lemma FlaggingKeepsLent(log: seq<Done>, flags: seq<bool>, d: Done)
    requires Lent(log, flags) && (d.ok && d.event.Release? ==> d.event.lease < |flags|)
    ensures Lent(log + [d], Flagged(flags, d))
  {
    assert Front(log + [d]) == log && Back(log + [d]) == d;
  }

  ghost function Elements(leases: seq<BufferLease>): set<BufferLease> {
    set l | l in leases
  }

  ghost function Unreleased(leases: seq<BufferLease>, flags: seq<bool>): set<BufferLease>
    requires |flags| == |leases|
  {
    set l | 0 <= l < |leases| && !flags[l] :: leases[l]
  }

  /** The buffers given out, and those among them whose flag is not set. */
  ghost predicate Holds(leases: seq<BufferLease>, flags: seq<bool>, issued: set<BufferLease>, live: set<BufferLease>) {
    && |flags| == |leases| && Distinct(leases) && issued == Elements(leases) && live == Unreleased(leases, flags)
  }

  lemma LendingKeepsHeld(leases: seq<BufferLease>, flags: seq<bool>, issued: set<BufferLease>, live: set<BufferLease>,
                         lease: BufferLease)
    requires Holds(leases, flags, issued, live) && lease !in leases
    ensures Holds(leases + [lease], flags + [false], issued + {lease}, live + {lease})
  {
    var leases', flags' := leases + [lease], flags + [false];
    assert leases'[|leases|] == lease;
    forall l | l in leases ensures l in leases' {
      var i :| 0 <= i < |leases| && leases[i] == l;
      assert leases'[i] == l;
    }
    forall l | l in live ensures exists i :: 0 <= i < |leases'| && !flags'[i] && leases'[i] == l {
      var i :| 0 <= i < |leases| && !flags[i] && leases[i] == l;
      assert leases'[i] == l && !flags'[i];
    }
  }

  lemma ReleasingKeepsHeld(leases: seq<BufferLease>, flags: seq<bool>, issued: set<BufferLease>, live: set<BufferLease>,
                           i: nat)
    requires Holds(leases, flags, issued, live) && i < |leases|
    ensures Holds(leases, flags[i := true], issued, live - {leases[i]})
  {
    var flags' := flags[i := true];
    forall l | l in live - {leases[i]} ensures exists j :: 0 <= j < |leases| && !flags'[j] && leases[j] == l {
      var j :| 0 <= j < |leases| && !flags[j] && leases[j] == l;
      assert !flags'[j];
    }
  }

  /** A registry is what the log says. */
  ghost predicate Tied(limits: Limits, log: seq<Done>, s: State, flags: seq<bool>, closed: bool, standing: Option<nat>,
                       books: Account)
  {
    && limits.Valid() && Consistent(log, s) && Lent(log, flags) && (closed <==> Stopped(log))
    && standing == Controller(log) && books.Kept(limits) && books.charges == Asked(limits, log)
    && AllMetered(limits, log) && WithinRates(limits, log)
  }

  lemma TyingStays(limits: Limits, log: seq<Done>, d: Done, s: State, s': State, flags: seq<bool>, flags': seq<bool>,
                   closed: bool, closed': bool, standing: Option<nat>, standing': Option<nat>, books: Account,
                   books': Account)
    requires Tied(limits, log, s, flags, closed, standing, books) && (s.active == 0 || s.active == Last(s.commits))
    requires Fits(d, s) && Moves(d, s, s') && Answered(log, d) && Serves(d, standing) && Metes(limits, log, d)
    requires flags' == Flagged(flags, d) && closed' == (closed || d.event.Stop?) && standing' == Succeeding(d, standing)
    requires books'.Kept(limits) && books'.charges == AskedAfter(limits, books.charges, standing, d)
    ensures Tied(limits, log + [d], s', flags', closed', standing', books')
  {
    MovingKeepsConsistent(log, d, s, s');
    FlaggingKeepsLent(log, flags, d);
    MeteringStays(limits, log, d);
    SpendingIsLimited(limits, log + [d], books');
    WithinRatesAppend(limits, log, d);
    assert Front(log + [d]) == log && Back(log + [d]) == d;
  }

  /** What was granted since the last login is within the rates. */
  lemma SpendingIsLimited(limits: Limits, log: seq<Done>, books: Account)
    requires limits.Valid() && books.Kept(limits) && books.charges == Asked(limits, log) && AllMetered(limits, log)
    ensures Spent(log).Within(limits)
  {
    GrantedIsPaid(limits, log);
    if books.charges.used {
      RateBound(books, limits);
      AllowedIsWithin(limits, books.charges, Spent(log));
    } else {
      NothingIsWithin(limits, Spent(log));
    }
  }

  lemma Unused(limits: Limits, books: Account)
    requires limits.Valid() && books == Account(Empty(), Empty(), Empty(), UNCHARGED)
    ensures Tied(limits, [], State([], FlowStats(0, 0, 0, 0), map[], 0), [], false, None, books)
  {
    AllowanceGrows(limits.packetRate, limits.packetBurst, 0.0, 0.0, 0.0);
    AllowanceGrows(limits.byteRate, limits.byteBurst, 0.0, 0.0, 0.0);
    AllowanceGrows(limits.controlRate, limits.controlBurst, 0.0, 0.0, 0.0);
  }
}
