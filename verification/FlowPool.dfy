/** The relay's pool of UDP flows. Dialling happens outside the lock, so a flow is made in two steps: a
    reservation before the dial, and after it a commit or, if the dial failed, a release. */
module FlowPools {
  import opened Common

  type SessionId = nat

  /** Something a session has: a flow, named by identity and endpoints, or a dial, named by a ticket. */
  datatype Member = Member(session: SessionId, name: nat)

  type Key = Member

  type Dial = Member

  /** A count kept in a map that has no zero entries. */
  function Count(counts: map<SessionId, int>, s: SessionId): int {
    if s in counts then counts[s] else 0
  }

  function Incremented(counts: map<SessionId, int>, s: SessionId): map<SessionId, int> {
    counts[s := Count(counts, s) + 1]
  }

  function Decremented(counts: map<SessionId, int>, s: SessionId): map<SessionId, int> {
    if Count(counts, s) <= 1 then counts - {s} else counts[s := counts[s] - 1]
  }

  ghost function Of(members: set<Member>, s: SessionId): set<Member> {
    set m | m in members && m.session == s
  }

  /** The counts are those of the real members, and only sessions that have some are in the map. */
  ghost predicate Counts(counts: map<SessionId, int>, members: set<Member>) {
    (forall s :: Count(counts, s) == |Of(members, s)|) && forall s :: s in counts ==> counts[s] > 0
  }

  lemma OfWith(members: set<Member>, m: Member, s: SessionId)
    requires m !in members
    ensures |Of(members + {m}, s)| == |Of(members, s)| + if s == m.session then 1 else 0
  {
    assert Of(members + {m}, s) == Of(members, s) + if s == m.session then {m} else {};
  }

  lemma OfWithout(members: set<Member>, m: Member, s: SessionId)
    requires m in members
    ensures |Of(members - {m}, s)| == |Of(members, s)| - if s == m.session then 1 else 0
  {
    OfWith(members - {m}, m, s);
    assert members - {m} + {m} == members;
  }

  lemma AddingKeepsCounts(counts: map<SessionId, int>, members: set<Member>, m: Member)
    requires Counts(counts, members) && m !in members
    ensures Counts(Incremented(counts, m.session), members + {m})
  {
    forall s
      ensures Count(Incremented(counts, m.session), s) == |Of(members + {m}, s)|
    {
      OfWith(members, m, s);
    }
  }

  lemma RemovingKeepsCounts(counts: map<SessionId, int>, members: set<Member>, m: Member)
    requires Counts(counts, members) && m in members
    ensures Counts(Decremented(counts, m.session), members - {m})
  {
    forall s
      ensures Count(Decremented(counts, m.session), s) == |Of(members - {m}, s)|
    {
      OfWithout(members, m, s);
    }
  }

  /** Flows and dials together stay within both limits; a limit that is not positive is none. */
  ghost predicate Within(keys: set<Key>, dials: set<Dial>, maxFlows: int, maxPerSession: int) {
    && (maxFlows > 0 ==> |keys| + |dials| <= maxFlows)
    && (maxPerSession > 0 ==> forall s :: |Of(keys, s)| + |Of(dials, s)| <= maxPerSession)
  }

  /** There is a place for one more of the session. */
  ghost predicate Slack(keys: set<Key>, dials: set<Dial>, maxFlows: int, maxPerSession: int, s: SessionId) {
    && (maxFlows > 0 ==> |keys| + |dials| < maxFlows)
    && (maxPerSession > 0 ==> |Of(keys, s)| + |Of(dials, s)| < maxPerSession)
  }

  /** There is a place exactly when both limits hold with one more. */
  lemma DialTakesPlace(keys: set<Key>, dials: set<Dial>, maxFlows: int, maxPerSession: int, d: Dial)
    requires Within(keys, dials, maxFlows, maxPerSession) && d !in dials
    ensures Within(keys, dials + {d}, maxFlows, maxPerSession)
            <==> Slack(keys, dials, maxFlows, maxPerSession, d.session)
  {
    forall s
      ensures |Of(dials + {d}, s)| == |Of(dials, s)| + if s == d.session then 1 else 0
    {
      OfWith(dials, d, s);
    }
  }

  lemma DialLeavesPlace(keys: set<Key>, dials: set<Dial>, maxFlows: int, maxPerSession: int, d: Dial)
    requires Within(keys, dials, maxFlows, maxPerSession) && d in dials
    ensures Within(keys, dials - {d}, maxFlows, maxPerSession)
    ensures Slack(keys, dials - {d}, maxFlows, maxPerSession, d.session)
  {
    forall s
      ensures |Of(dials - {d}, s)| == |Of(dials, s)| - if s == d.session then 1 else 0
    {
      OfWithout(dials, d, s);
    }
    assert |dials - {d}| == |dials| - 1;
  }

  lemma FlowTakesPlace(keys: set<Key>, dials: set<Dial>, maxFlows: int, maxPerSession: int, k: Key)
    requires Within(keys, dials, maxFlows, maxPerSession) && Slack(keys, dials, maxFlows, maxPerSession, k.session)
    requires k !in keys
    ensures Within(keys + {k}, dials, maxFlows, maxPerSession)
  {
    forall s
      ensures maxPerSession > 0 ==> |Of(keys + {k}, s)| + |Of(dials, s)| <= maxPerSession
    {
      OfWith(keys, k, s);
    }
  }

  lemma FlowLeavesPlace(keys: set<Key>, dials: set<Dial>, maxFlows: int, maxPerSession: int, k: Key)
    requires Within(keys, dials, maxFlows, maxPerSession) && k in keys
    ensures Within(keys - {k}, dials, maxFlows, maxPerSession)
  {
    forall s
      ensures |Of(keys - {k}, s)| <= |Of(keys, s)|
    {
      OfWithout(keys, k, s);
    }
    assert |keys - {k}| == |keys| - 1;
  }

  /** What a caller of the pool gets at once: a flow, a refusal, leave to dial, or nothing to know. */
  datatype Answer = PoolClosed | Limit | Existing(flow: nat) | MayDial | Done

  class FlowPool {
    const maxFlows: int
    const maxPerSession: int
    var flows: map<Key, nat>
    var flowCounts: map<SessionId, int>
    var pending: int
    var pendingCounts: map<SessionId, int>
    var closed: bool
    /** The dials under way. */
    ghost var dials: set<Dial>

    /** While the pool is open the counters are exact. */
    ghost predicate Exact()
      reads this
    {
      && Counts(flowCounts, flows.Keys) && |flows| == |flows.Keys|
      && pending == |dials| && Counts(pendingCounts, dials)
    }

    ghost predicate Valid()
      reads this
    {
      if closed then flows == map[] else Exact() && Within(flows.Keys, dials, maxFlows, maxPerSession)
    }

    constructor (maxFlows: int, maxPerSession: int)
      ensures Valid() && !closed && flows == map[] && dials == {}
      ensures this.maxFlows == maxFlows && this.maxPerSession == maxPerSession
    {
      this.maxFlows, this.maxPerSession := maxFlows, maxPerSession;
      flows, flowCounts, pending, pendingCounts, closed, dials := map[], map[], 0, map[], false, {};
      new;
      assert forall s :: Of({}, s) == {};
    }

    predicate AllowsWithPending(s: SessionId)
      reads this
    {
      && !(maxFlows > 0 && |flows| + pending >= maxFlows)
      && !(maxPerSession > 0 && Count(flowCounts, s) + Count(pendingCounts, s) >= maxPerSession)
    }

    predicate Allows(s: SessionId)
      reads this
    {
      && !(maxFlows > 0 && |flows| >= maxFlows)
      && !(maxPerSession > 0 && Count(flowCounts, s) >= maxPerSession)
    }

    /** Looks the flow up, or reserves a place for it. */
    method Lookup(key: Key, ghost dial: Dial) returns (answer: Answer)
      requires Valid() && dial !in dials && dial.session == key.session
      modifies `pending, `pendingCounts, `dials
      ensures Valid()
      ensures dials == if answer.MayDial? then old(dials) + {dial} else old(dials)
      ensures answer == if closed then PoolClosed else if key in flows then Existing(flows[key])
                        else if Slack(flows.Keys, old(dials), maxFlows, maxPerSession, key.session) then MayDial
                        else Limit
    {
      if closed {
        return PoolClosed;
      }
      if key in flows {
        return Existing(flows[key]);
      }
      if !AllowsWithPending(key.session) {
        return Limit;
      }
      DialTakesPlace(flows.Keys, dials, maxFlows, maxPerSession, dial);
      AddingKeepsCounts(pendingCounts, dials, dial);
      pending := pending + 1;
      pendingCounts := Incremented(pendingCounts, key.session);
      dials := dials + {dial};
      return MayDial;
    }

    /** Gives a reservation back, which leaves the place it kept. */
    method ReleaseReserved(s: SessionId, ghost dial: Dial)
      requires Valid() && dial in dials && dial.session == s
      modifies `pending, `pendingCounts, `dials
      ensures Valid() && dials == old(dials) - {dial}
      ensures !closed ==> Slack(flows.Keys, dials, maxFlows, maxPerSession, s)
    {
      if !closed {
        DialLeavesPlace(flows.Keys, dials, maxFlows, maxPerSession, dial);
        RemovingKeepsCounts(pendingCounts, dials, dial);
      }
      assert |dials - {dial}| == |dials| - 1;
      if pending > 0 {
        pending := pending - 1;
      }
      pendingCounts := Decremented(pendingCounts, s);
      dials := dials - {dial};
    }

    /** After a successful dial: the new flow goes in, unless the pool was closed or another caller was
        faster. The limits are checked again, and a reservation that was granted always passes. */
    method Commit(key: Key, flow: nat, ghost dial: Dial) returns (answer: Answer)
      requires Valid() && dial in dials && dial.session == key.session
      modifies `flows, `flowCounts, `pending, `pendingCounts, `dials
      ensures Valid() && dials == old(dials) - {dial}
      ensures answer == if closed then PoolClosed
                        else if key in old(flows) then Existing(old(flows)[key]) else Existing(flow)
      ensures flows == if closed || key in old(flows) then old(flows) else old(flows)[key := flow]
    {
      ReleaseReserved(key.session, dial);
      if closed {
        return PoolClosed;
      }
      if key in flows {
        return Existing(flows[key]);
      }
      assert Allows(key.session);
      Insert(key, flow);
      return Existing(flow);
    }

    method Insert(key: Key, flow: nat)
      requires Valid() && !closed && key !in flows && Slack(flows.Keys, dials, maxFlows, maxPerSession, key.session)
      modifies `flows, `flowCounts
      ensures Valid() && flows == old(flows)[key := flow]
    {
      AddingKeepsCounts(flowCounts, flows.Keys, key);
      FlowTakesPlace(flows.Keys, dials, maxFlows, maxPerSession, key);
      flows := flows[key := flow];
      flowCounts := Incremented(flowCounts, key.session);
      assert flows.Keys == old(flows).Keys + {key};
    }

    /** A flow ends: only the flow that is registered under the key is removed. */
    method Remove(key: Key, flow: nat)
      requires Valid()
      modifies `flows, `flowCounts
      ensures Valid()
      ensures flows == if key in old(flows) && old(flows)[key] == flow then old(flows) - {key} else old(flows)
    {
      if key in flows && flows[key] == flow {
        RemovingKeepsCounts(flowCounts, flows.Keys, key);
        FlowLeavesPlace(flows.Keys, dials, maxFlows, maxPerSession, key);
        flows := flows - {key};
        flowCounts := Decremented(flowCounts, key.session);
        assert flows.Keys == old(flows).Keys - {key};
      }
    }

    /** Dials may still be under way, but no flow is in the pool and none will be. */
    method Close()
      requires Valid()
      modifies this
      ensures Valid() && closed && flows == map[] && dials == old(dials)
    {
      flows, flowCounts, pending, pendingCounts, closed := map[], map[], 0, map[], true;
    }
  }

  // ----- every interleaving -----

  /** The atomic steps callers take. */
  datatype Event =
    | Forward(key: Key)
    | DialFailed(dial: Dial)
    | Dialled(dial: Dial, flow: nat)
    | FlowEnded(key: Key, flow: nat)
    | Shutdown

  /** The pool as it is meant to be: no counters, only the flows and the dials under way, each for the key it
      was asked for and named by the order of the tickets given out. */
  datatype Ideal = Ideal(flows: map<Key, nat>, dialling: map<Dial, Key>, tickets: nat, closed: bool) {
    ghost predicate WellFormed() {
      forall d :: d in dialling ==> d.name < tickets && dialling[d].session == d.session
    }
  }

  const EMPTY := Ideal(map[], map[], 0, false)

  /** What a step does to it and answers. A dial that was allowed and succeeds is not asked about limits
      again. */
  ghost function Next(maxFlows: int, maxPerSession: int, m: Ideal, e: Event): (Ideal, Answer) {
    match e
    case Forward(key) =>
      if m.closed then (m, PoolClosed)
      else if key in m.flows then (m, Existing(m.flows[key]))
      else if Slack(m.flows.Keys, m.dialling.Keys, maxFlows, maxPerSession, key.session) then
        (m.(dialling := m.dialling[Member(key.session, m.tickets) := key], tickets := m.tickets + 1), MayDial)
      else (m, Limit)
    case DialFailed(dial) => (m.(dialling := m.dialling - {dial}), Done)
    case Dialled(dial, flow) =>
      if dial !in m.dialling then (m, Done)
      else
        var key, left := m.dialling[dial], m.(dialling := m.dialling - {dial});
        if m.closed then (left, PoolClosed)
        else if key in m.flows then (left, Existing(m.flows[key]))
        else (left.(flows := m.flows[key := flow]), Existing(flow))
    case FlowEnded(key, flow) =>
      (if key in m.flows && m.flows[key] == flow then m.(flows := m.flows - {key}) else m, Done)
    case Shutdown => (m.(flows := map[], closed := true), Done)
  }

  /** The state the events lead to. */
  ghost function After(maxFlows: int, maxPerSession: int, events: seq<Event>): Ideal {
    if events == [] then EMPTY
    else Next(maxFlows, maxPerSession, After(maxFlows, maxPerSession, events[..|events| - 1]), events[|events| - 1]).0
  }

  ghost predicate Limited(maxFlows: int, maxPerSession: int, m: Ideal) {
    m.WellFormed() && Within(m.flows.Keys, m.dialling.Keys, maxFlows, maxPerSession)
  }

  lemma DialKeepsLimits(maxFlows: int, maxPerSession: int, m: Ideal, dial: Dial, key: Key)
    requires Limited(maxFlows, maxPerSession, m) && dial == Member(key.session, m.tickets)
    requires Slack(m.flows.Keys, m.dialling.Keys, maxFlows, maxPerSession, key.session)
    ensures Limited(maxFlows, maxPerSession, m.(dialling := m.dialling[dial := key], tickets := m.tickets + 1))
  {
    var dialling := m.dialling[dial := key];
    assert dialling.Keys == m.dialling.Keys + {dial};
    assert Within(m.flows.Keys, dialling.Keys, maxFlows, maxPerSession) by {
      DialTakesPlace(m.flows.Keys, m.dialling.Keys, maxFlows, maxPerSession, dial);
    }
  }

  lemma DialEndKeepsLimits(maxFlows: int, maxPerSession: int, m: Ideal, dial: Dial)
    requires Limited(maxFlows, maxPerSession, m)
    ensures Limited(maxFlows, maxPerSession, m.(dialling := m.dialling - {dial}))
    ensures dial in m.dialling ==>
              Slack(m.flows.Keys, m.dialling.Keys - {dial}, maxFlows, maxPerSession, dial.session)
  {
    if dial in m.dialling {
      DialLeavesPlace(m.flows.Keys, m.dialling.Keys, maxFlows, maxPerSession, dial);
      assert (m.dialling - {dial}).Keys == m.dialling.Keys - {dial};
    } else {
      assert m.dialling - {dial} == m.dialling;
    }
  }

  lemma FlowKeepsLimits(maxFlows: int, maxPerSession: int, m: Ideal, key: Key, flow: nat)
    requires Limited(maxFlows, maxPerSession, m) && key !in m.flows
    requires Slack(m.flows.Keys, m.dialling.Keys, maxFlows, maxPerSession, key.session)
    ensures Limited(maxFlows, maxPerSession, m.(flows := m.flows[key := flow]))
  {
    FlowTakesPlace(m.flows.Keys, m.dialling.Keys, maxFlows, maxPerSession, key);
    assert m.flows[key := flow].Keys == m.flows.Keys + {key};
  }

  lemma FlowEndKeepsLimits(maxFlows: int, maxPerSession: int, m: Ideal, key: Key)
    requires Limited(maxFlows, maxPerSession, m) && key in m.flows
    ensures Limited(maxFlows, maxPerSession, m.(flows := m.flows - {key}))
  {
    FlowLeavesPlace(m.flows.Keys, m.dialling.Keys, maxFlows, maxPerSession, key);
    assert (m.flows - {key}).Keys == m.flows.Keys - {key};
  }

  /** The ideal pool never breaks a limit, although it checks them before the dial only. */
  lemma NextKeepsLimits(maxFlows: int, maxPerSession: int, m: Ideal, e: Event)
    requires Limited(maxFlows, maxPerSession, m)
    ensures Limited(maxFlows, maxPerSession, Next(maxFlows, maxPerSession, m, e).0)
  {
    match e
    case Forward(key) =>
      if Slack(m.flows.Keys, m.dialling.Keys, maxFlows, maxPerSession, key.session) {
        DialKeepsLimits(maxFlows, maxPerSession, m, Member(key.session, m.tickets), key);
      }
    case DialFailed(dial) => DialEndKeepsLimits(maxFlows, maxPerSession, m, dial);
    case Dialled(dial, flow) =>
      DialEndKeepsLimits(maxFlows, maxPerSession, m, dial);
      if dial in m.dialling && m.dialling[dial] !in m.flows {
        var left := m.(dialling := m.dialling - {dial});
        assert left.dialling.Keys == m.dialling.Keys - {dial};
        FlowKeepsLimits(maxFlows, maxPerSession, left, m.dialling[dial], flow);
      }
    case FlowEnded(key, flow) =>
      if key in m.flows {
        FlowEndKeepsLimits(maxFlows, maxPerSession, m, key);
      }
    case Shutdown =>
      NoFlows(m.flows.Keys, m.dialling.Keys, maxFlows, maxPerSession);
      assert m.(flows := map[]).flows.Keys == {};
  }

  lemma NoFlows(keys: set<Key>, dials: set<Dial>, maxFlows: int, maxPerSession: int)
    requires Within(keys, dials, maxFlows, maxPerSession)
    ensures Within({}, dials, maxFlows, maxPerSession)
  {
    forall s ensures |Of({}, s)| <= |Of(keys, s)| {
      assert Of({}, s) == {};
    }
  }

  lemma {:induction false} LimitsHold(maxFlows: int, maxPerSession: int, events: seq<Event>)
    ensures Limited(maxFlows, maxPerSession, After(maxFlows, maxPerSession, events))
  {
    if events == [] {
      assert EMPTY.flows.Keys == {} && EMPTY.dialling.Keys == {};
      assert forall s :: Of({}, s) == {};
    } else {
      LimitsHold(maxFlows, maxPerSession, events[..|events| - 1]);
      NextKeepsLimits(maxFlows, maxPerSession, After(maxFlows, maxPerSession, events[..|events| - 1]),
                      events[|events| - 1]);
    }
  }

  /** The pool and the dials its callers know of are those of the ideal pool. */
  ghost predicate Matches(pool: FlowPool, dialling: map<Dial, Key>, tickets: nat, m: Ideal)
    reads pool
  {
    m == Ideal(pool.flows, dialling, tickets, pool.closed) && m.WellFormed() && pool.dials == dialling.Keys
  }

  method OnForward(pool: FlowPool, dialling: map<Dial, Key>, tickets: nat, key: Key, ghost m: Ideal)
    returns (dialling': map<Dial, Key>, tickets': nat, answer: Answer)
    requires pool.Valid() && Matches(pool, dialling, tickets, m)
    modifies pool`pending, pool`pendingCounts, pool`dials
    ensures pool.Valid() && answer == Next(pool.maxFlows, pool.maxPerSession, m, Forward(key)).1
    ensures Matches(pool, dialling', tickets', Next(pool.maxFlows, pool.maxPerSession, m, Forward(key)).0)
  {
    var dial := Member(key.session, tickets);
    dialling', tickets' := dialling, tickets;
    answer := pool.Lookup(key, dial);
    if answer.MayDial? {
      dialling', tickets' := dialling[dial := key], tickets + 1;
    }
  }

  method OnDialled(pool: FlowPool, dialling: map<Dial, Key>, tickets: nat, dial: Dial, flow: nat, ghost m: Ideal)
    returns (dialling': map<Dial, Key>, answer: Answer)
    requires pool.Valid() && Matches(pool, dialling, tickets, m) && dial in dialling
    modifies pool
    ensures pool.Valid() && answer == Next(pool.maxFlows, pool.maxPerSession, m, Dialled(dial, flow)).1
    ensures Matches(pool, dialling', tickets, Next(pool.maxFlows, pool.maxPerSession, m, Dialled(dial, flow)).0)
  {
    dialling' := dialling - {dial};
    answer := pool.Commit(dialling[dial], flow, dial);
  }

  method OnDialFailed(pool: FlowPool, dialling: map<Dial, Key>, tickets: nat, dial: Dial, ghost m: Ideal)
    returns (dialling': map<Dial, Key>)
    requires pool.Valid() && Matches(pool, dialling, tickets, m)
    modifies pool
    ensures pool.Valid()
    ensures Matches(pool, dialling', tickets, Next(pool.maxFlows, pool.maxPerSession, m, DialFailed(dial)).0)
  {
    dialling' := dialling - {dial};
    if dial in dialling {
      pool.ReleaseReserved(dial.session, dial);
    }
  }

  method Step(pool: FlowPool, dialling: map<Dial, Key>, tickets: nat, e: Event, ghost m: Ideal)
    returns (dialling': map<Dial, Key>, tickets': nat, answer: Answer)
    requires pool.Valid() && Matches(pool, dialling, tickets, m)
    modifies pool
    ensures pool.Valid() && answer == Next(pool.maxFlows, pool.maxPerSession, m, e).1
    ensures Matches(pool, dialling', tickets', Next(pool.maxFlows, pool.maxPerSession, m, e).0)
  {
    dialling', tickets', answer := dialling, tickets, Done;
    match e
    case Forward(key) => dialling', tickets', answer := OnForward(pool, dialling, tickets, key, m);
    case DialFailed(dial) => dialling' := OnDialFailed(pool, dialling, tickets, dial, m);
    case Dialled(dial, flow) =>
      if dial in dialling {
        dialling', answer := OnDialled(pool, dialling, tickets, dial, flow, m);
      }
    case FlowEnded(key, flow) => pool.Remove(key, flow);
    case Shutdown => pool.Close();
  }

  /** What the ideal pool answers. */
  ghost function Answers(maxFlows: int, maxPerSession: int, events: seq<Event>): seq<Answer> {
    if events == [] then []
    else
      var before := events[..|events| - 1];
      Answers(maxFlows, maxPerSession, before)
      + [Next(maxFlows, maxPerSession, After(maxFlows, maxPerSession, before), events[|events| - 1]).1]
  }

  lemma OneMore(maxFlows: int, maxPerSession: int, events: seq<Event>, e: Event)
    ensures var (m, answer) := Next(maxFlows, maxPerSession, After(maxFlows, maxPerSession, events), e);
            && After(maxFlows, maxPerSession, events + [e]) == m
            && Answers(maxFlows, maxPerSession, events + [e]) == Answers(maxFlows, maxPerSession, events) + [answer]
  {
    assert (events + [e])[..|events|] == events;
  }

  lemma OneLonger(events: seq<Event>, i: nat)
    requires i < |events|
    ensures events[..i + 1] == events[..i] + [events[i]] && events[..|events|] == events
  {
  }

  /** The next step of a run. */
  method Play(pool: FlowPool, dialling: map<Dial, Key>, tickets: nat, answers: seq<Answer>, ghost past: seq<Event>,
              e: Event)
    returns (dialling': map<Dial, Key>, tickets': nat, answers': seq<Answer>)
    requires pool.Valid() && Matches(pool, dialling, tickets, After(pool.maxFlows, pool.maxPerSession, past))
    requires answers == Answers(pool.maxFlows, pool.maxPerSession, past)
    modifies pool
    ensures pool.Valid() && answers' == Answers(pool.maxFlows, pool.maxPerSession, past + [e])
    ensures Matches(pool, dialling', tickets', After(pool.maxFlows, pool.maxPerSession, past + [e]))
  {
    var answer;
    OneMore(pool.maxFlows, pool.maxPerSession, past, e);
    dialling', tickets', answer := Step(pool, dialling, tickets, e, After(pool.maxFlows, pool.maxPerSession, past));
    answers' := answers + [answer];
  }

  /** Every interleaving of lookups, dials, flow ends and shutdown: answers, flows and the dials under way are
      the ideal pool's, step by step. */
  method Run(maxFlows: int, maxPerSession: int, events: seq<Event>)
    returns (pool: FlowPool, dialling: map<Dial, Key>, answers: seq<Answer>)
    ensures pool.Valid() && answers == Answers(maxFlows, maxPerSession, events)
    ensures var m := After(maxFlows, maxPerSession, events);
            pool.flows == m.flows && pool.closed == m.closed && dialling == m.dialling && pool.dials == dialling.Keys
  {
    pool := new FlowPool(maxFlows, maxPerSession);
    dialling, answers := map[], [];
    var tickets := 0;
    ghost var past: seq<Event> := [];
    for i := 0 to |events|
      invariant past == events[..i]
      invariant fresh(pool) && pool.Valid() && pool.maxFlows == maxFlows && pool.maxPerSession == maxPerSession
      invariant Matches(pool, dialling, tickets, After(maxFlows, maxPerSession, past))
      invariant answers == Answers(maxFlows, maxPerSession, past)
    {
      dialling, tickets, answers := Play(pool, dialling, tickets, answers, past, events[i]);
      OneLonger(events, i);
      past := past + [events[i]];
    }
    assert past == events;
  }
}
