/** Whole runs of the relay's router: what its answers say to one another, event by event. */
module RelayRuns {
  import opened Common
  import opened PathSessions
  import opened HelloLedgers
  import opened TokenBuckets
  import opened Relays
  import opened RelayLogs

  // ----- the router, event by event -----

  /** A response that proves its source: in time, and its cookie bound to session, source and nonce. */
  ghost predicate Proves(tag: Tagger, session: Session, e: Event) {
    && e.Response? && session.allowAdditional && Timely(e.cookie, e.now)
    && e.cookie.tag == tag(session.key, session.id, e.source, e.nonce, e.cookie.issued)
  }

  /** Whether an event about a session will be granted. */
  ghost predicate GrantsTo(router: Router, session: Session, e: Event)
    reads router, session
  {
    match e
    case Request(_, source, nonce, now) =>
      && now >= 0 && InSeason(nonce, now) && router.Registered(session) && session.allowAdditional
      && session.active != source && router.Available(source, session)
      && session.bucket.Refill(Seconds(now)).Covers(1.0)
    case Response(_, source, cookie, _, now) =>
      && Proves(router.tag, session, e) && router.Registered(session) && router.Available(source, session)
      && session.CanUse(cookie, now)
    case Check(_, source, now) =>
      source == session.active
      || (source in session.paths && now - session.paths[source].lastSeen < 45_000_000_000)
    case Departure(_, _) => router.Registered(session)
    case Traffic(_, source, _) => source in session.paths
    case _ => false
  }

  /** Whether an event about the router will be granted. */
  ghost predicate Grants(router: Router, e: Event)
    reads router
  {
    match e
    case Greeting(hello, source, _, _, _, _, _, now) =>
      Authentic(e) && !router.Refuses(hello.id, source, now)
    case Repeat(hello, source, now) =>
      && hello.id in router.replays && router.replays[hello.id].remaining > 0
      && now < router.replays[hello.id].expiresAt
      && router.replays[hello.id].peer == source && router.replays[hello.id].hello == hello
    case Shutdown(_) => true
    case _ => false
  }

  /** A session asks for a challenge. */
  method OnRequest(router: Router, session: Session, e: Event) returns (d: Done)
    requires router.Valid() && session in router.members && e.Request?
    modifies session`bucket, session`calls
    ensures router.Valid() && d.event == e && d.evicted == None && d.ok == old(GrantsTo(router, session, e))
    ensures Right(d, session.openedAt, old(session.Told()))
    ensures Advances(d, session.watch, old(session.Told()), session.Told())
  {
    ghost var story := session.Told();
    d := Done(e, false, None);
    session.RequestsAreFair(Seconds(e.now));
    if e.now >= 0 && RequestInTime(e.nonce, e.now) {
      d := OnTimelyRequest(router, session, e);
    }
    AskingTells(d, session.watch, session.openedAt, story, session.Told());
  }

  method OnTimelyRequest(router: Router, session: Session, e: Event) returns (d: Done)
    requires router.Valid() && session in router.members && e.Request? && e.now >= 0 && RequestInTime(e.nonce, e.now)
    modifies session`bucket, session`calls
    ensures router.Valid() && d.event == e && d.evicted == None && d.victim == None
    ensures d.ok == old(GrantsTo(router, session, e)) && (d.limited ==> !d.ok)
    ensures d.ok || d.limited ==> e.source != old(session.active)
    ensures d.limited ==> !old(session.bucket).Refill(Seconds(e.now)).Covers(1.0)
    ensures session.Told() == old(session.Told()).(calls := session.calls)
    ensures session.calls == old(session.calls) +
                             if d.ok || d.limited then [Call(Seconds(e.now), 1.0, d.ok)] else []
  {
    var cookie, limited := router.Challenge(session, e.source, e.nonce, e.now);
    d := Done(e, cookie.Some?, None, limited);
  }

  lemma AskingTells(d: Done, watch: Cookie, openedAt: real, before: Story, after: Story)
    requires d.event.Request? && before.active in before.paths && (d.limited ==> !d.ok)
    requires d.ok || d.limited ==> InSeason(d.event.nonce, d.event.now) && d.event.source != before.active
    requires after == before.(calls := before.calls + if d.ok || d.limited
                                                      then [Call(Seconds(d.event.now), 1.0, d.ok)] else [])
    requires d.ok || d.limited ==>
               (d.ok <==> Affords(2.0, 8.0, openedAt, before.calls, Seconds(d.event.now), 1.0))
    ensures Right(d, openedAt, before) && Advances(d, watch, before, after)
  {
  }

  /** And answers one; its return path moves only to a source that proved itself. */
  method OnProof(router: Router, session: Session, e: Event) returns (d: Done)
    requires router.Valid() && session in router.members && Proves(router.tag, session, e)
    modifies router`sources, session`paths, session`active, session`cookies, session`uses, session`last, session`forward
    ensures router.Valid() && d.event == e && d.evicted == None && d.ok == old(GrantsTo(router, session, e))
    ensures forall s :: s in router.sources ==> s in old(router.sources) || (Brings(d) && s == e.source)
    ensures Right(d, session.openedAt, old(session.Told()))
    ensures Advances(d, session.watch, old(session.Told()), session.Told())
  {
    ghost var story := session.Told();
    var ok, victim := router.FinishResponse(session, e.source, e.cookie, e.nonce, e.now);
    d := Done(e, ok, None, false, victim);
    ProvingTells(d, session.watch, session.openedAt, story, session.Told());
  }

  lemma ProvingTells(d: Done, watch: Cookie, openedAt: real, before: Story, after: Story)
    requires d.event.Response? && before.active in before.paths && !d.limited && Timely(d.event.cookie, d.event.now)
    requires if d.ok then MakesWay(before.paths, before.active, d.event.source, d.event.now, d.victim)
             else d.victim == None
    requires after.active == if d.ok then d.event.source else before.active
    requires after.paths == if d.ok then Switched(before.paths, before.active, d.event.source, d.event.now, d.victim)
                            else before.paths
    requires after.uses == if d.ok && d.event.cookie == watch then before.uses + [d.event.now] else before.uses
    requires after.calls == before.calls && after.last <= Max(before.last, d.event.now)
    requires before.forward && before.last <= d.event.now ==> after.forward
    ensures Right(d, openedAt, before) && Advances(d, watch, before, after)
  {
  }

  method OnResponse(router: Router, session: Session, e: Event) returns (d: Done)
    requires router.Valid() && session in router.members && e.Response?
    modifies router`sources, session`paths, session`active, session`cookies, session`uses, session`last, session`forward
    ensures router.Valid() && d.event == e && d.evicted == None && d.ok == old(GrantsTo(router, session, e))
    ensures forall s :: s in router.sources ==> s in old(router.sources) || (Brings(d) && s == e.source)
    ensures Right(d, session.openedAt, old(session.Told()))
    ensures Advances(d, session.watch, old(session.Told()), session.Told())
  {
    d := Done(e, false, None);
    if session.allowAdditional && InTime(e.cookie, e.now)
       && Bound(router.tag, e.cookie, session.key, session.id, e.source, e.nonce) {
      d := OnProof(router, session, e);
    }
  }

  /** Traffic of a session is checked or noted. */
  method OnTraffic(router: Router, session: Session, e: Event) returns (d: Done)
    requires router.Valid() && session in router.members && (e.Check? || e.Traffic?)
    modifies router`sources, session`paths
    ensures router.Valid() && d.event == e && d.evicted == None && d.ok == old(GrantsTo(router, session, e))
    ensures forall s :: s in router.sources ==> s in old(router.sources) || (Brings(d) && s == e.source)
    ensures Right(d, session.openedAt, old(session.Told()))
    ensures Advances(d, session.watch, old(session.Told()), session.Told())
  {
    var ok;
    if e.Check? {
      ok := router.Authorize(session, e.source, e.now);
    } else {
      ok := e.source in session.paths;
      router.Observe(session, e.source, e.now);
    }
    d := Done(e, ok, None);
  }

  method OnPath(router: Router, session: Session, e: Event) returns (d: Done)
    requires router.Valid() && session in router.members && (e.Request? || e.Response? || e.Check? || e.Traffic?)
    modifies router`sources, session
    ensures router.Valid() && d.event == e && d.ok == old(GrantsTo(router, session, e)) && d.evicted == None
    ensures forall s :: s in router.sources ==> s in old(router.sources) || (Brings(d) && s == e.source)
    ensures Right(d, session.openedAt, old(session.Told()))
    ensures Advances(d, session.watch, old(session.Told()), session.Told())
  {
    if e.Request? {
      d := OnRequest(router, session, e);
    } else if e.Response? {
      d := OnResponse(router, session, e);
    } else {
      d := OnTraffic(router, session, e);
    }
  }

  /** And nothing else about the router changes. */
  method OnPaths(router: Router, session: Session, e: Event) returns (d: Done)
    requires router.Valid() && session in router.members && (e.Request? || e.Response? || e.Check? || e.Traffic?)
    modifies router`sources, session
    ensures router.Valid() && d.event == e && d.ok == old(GrantsTo(router, session, e))
    ensures Books(router.watch, d, router.ledger, router.ledger)
    ensures Alters(d, None, old(TablesOf(router)), TablesOf(router))
    ensures Right(d, session.openedAt, old(session.Told()))
    ensures Advances(d, session.watch, old(session.Told()), session.Told())
  {
    ghost var t := TablesOf(router);
    d := OnPath(router, session, e);
    PathsAreApart(router.watch, d, router.ledger, t, TablesOf(router));
  }

  method OnDeparture(router: Router, session: Session, e: Event) returns (d: Done)
    requires router.Valid() && session in router.members && e.Departure?
    modifies router`sessions, router`sources, router`tombstones, router`replays, router`ledger
    ensures router.Valid() && d.event == e && d.ok == old(router.Registered(session)) && !d.limited
    ensures Books(router.watch, d, old(router.ledger), router.ledger)
    ensures Alters(d, if d.ok then Some(session.id) else None, old(TablesOf(router)), TablesOf(router))
    ensures session.Told() == old(session.Told())
    ensures Right(d, session.openedAt, session.Told()) && Advances(d, session.watch, session.Told(), session.Told())
  {
    d := Leaves(router, session, e);
    router.StillHealthy();
    DepartingTellsNothing(d, session.watch, session.openedAt, session.Told());
  }

  method Leaves(router: Router, session: Session, e: Event) returns (d: Done)
    requires router.Owned() && router.Tracked() && e.Departure?
    modifies router`sessions, router`sources, router`tombstones, router`replays, router`ledger
    ensures router.Owned() && router.Tracked() && d.event == e && d.ok == old(router.Registered(session)) && !d.limited
    ensures Books(router.watch, d, old(router.ledger), router.ledger)
    ensures Alters(d, if d.ok then Some(session.id) else None, old(TablesOf(router)), TablesOf(router))
  {
    ghost var ledger, t := router.ledger, TablesOf(router);
    var ok := router.Registered(session);
    var evicted := router.Unregister(session, e.now);
    d := Done(e, ok, evicted);
    DepartureBooks(router.watch, d, session.id, ledger, router.ledger);
    DepartureAlters(d, session.id, t, TablesOf(router));
  }

  method OnSession(router: Router, session: Session, e: Event) returns (d: Done)
    requires router.Valid() && session in router.members
    requires e.Departure? || e.Request? || e.Response? || e.Check? || e.Traffic?
    modifies router`sessions, router`sources, router`tombstones, router`replays, router`ledger, session
    ensures router.Valid() && d.event == e && d.ok == old(GrantsTo(router, session, e))
    ensures Books(router.watch, d, old(router.ledger), router.ledger)
    ensures Alters(d, if d.ok && e.Departure? then Some(session.id) else None, old(TablesOf(router)), TablesOf(router))
    ensures Right(d, session.openedAt, old(session.Told()))
    ensures Advances(d, session.watch, old(session.Told()), session.Told())
  {
    if e.Departure? {
      d := OnDeparture(router, session, e);
    } else {
      d := OnPaths(router, session, e);
    }
  }

  lemma DepartingTellsNothing(d: Done, watch: Cookie, openedAt: real, story: Story)
    requires d.event.Departure? && !d.limited && story.active in story.paths
    ensures Advances(d, watch, story, story) && Right(d, openedAt, story)
  {
  }

  /** What goes on within a session changes nothing for the router but the sources in use. */
  lemma PathsAreApart(watch: Hello, d: Done, ledger: Ledger, t: Tables, t': Tables)
    requires (d.event.Request? || d.event.Response? || d.event.Check? || d.event.Traffic?) && d.evicted == None
    requires t' == t.(sources := t'.sources)
    requires forall s :: s in t'.sources ==> s in t.sources || (Brings(d) && s == d.event.source)
    ensures Books(watch, d, ledger, ledger) && Alters(d, None, t, t')
  {
  }

  /** What is known of the router's tables. */
  ghost function TablesOf(router: Router): Tables
    reads router`sessions, router`sources, router`tombstones, router`closed
  {
    Tables(router.sessions.Keys, router.sources.Keys, router.tombstones, router.closed)
  }

  lemma ExposedIfGranted(router: Router, e: Event)
    requires router.Valid() && e.Greeting?
    ensures var l := router.ledger;
            Grants(router, e) && e.hello == router.watch && l.sessions > 0 && l.forward && l.clock <= e.now ==>
              l.exposed
  {
    if Grants(router, e) && e.hello == router.watch && router.ledger.sessions > 0 && router.ledger.forward
       && router.ledger.clock <= e.now {
      router.ReopensIfExposed(e.source, e.now);
    }
  }

  /** A greeting; if it is accepted it brings a new session. */
  method OnGreeting(router: Router, e: Event, ghost cookie: Cookie) returns (d: Done, r: Option<Session>)
    requires router.Valid() && e.Greeting?
    modifies router
    ensures router.Valid() && old(router.members) <= router.members && fresh(router.members - old(router.members))
    ensures d.event == e && d.ok == old(Grants(router, e))
    ensures Books(router.watch, d, old(router.ledger), router.ledger)
    ensures Alters(d, if d.ok && !e.written then Some(e.hello.id) else None, old(TablesOf(router)), TablesOf(router))
    ensures r.Some? <==> Accepts(d)
    ensures r.Some? ==> fresh(r.value) && r.value in router.members
                        && IsNew(r.value, e.hello.id, e.source, e.key, e.allowAdditional, e.now, cookie)
  {
    ExposedIfGranted(router, e);
    ghost var ledger, t, sessions := router.ledger, TablesOf(router), router.sessions;
    var opens, evicted;
    r, opens, evicted := router.Accept(e.hello, e.source, e.authentic, e.admitted, e.key, e.allowAdditional, e.written,
                                       e.now, cookie);
    d := Done(e, opens, evicted);
    GreetingBooks(router.watch, d, ledger, router.ledger);
    WithKeys(sessions, e.hello.id, r);
    GreetingAlters(d, t, TablesOf(router));
  }

  /** An event about the router itself. */
  method OnRouter(router: Router, e: Event, ghost cookie: Cookie) returns (d: Done, r: Option<Session>)
    requires router.Valid() && (e.Greeting? || e.Repeat? || e.Shutdown?)
    modifies router
    ensures router.Valid() && old(router.members) <= router.members && fresh(router.members - old(router.members))
    ensures d.event == e && d.ok == old(Grants(router, e))
    ensures Books(router.watch, d, old(router.ledger), router.ledger)
    ensures Alters(d, if d.ok && e.Greeting? && !e.written then Some(e.hello.id) else None, old(TablesOf(router)),
                   TablesOf(router))
    ensures r.Some? <==> Accepts(d)
    ensures r.Some? ==> fresh(r.value) && r.value in router.members
                        && IsNew(r.value, e.hello.id, e.source, e.key, e.allowAdditional, e.now, cookie)
  {
    if e.Greeting? {
      d, r := OnGreeting(router, e, cookie);
    } else {
      r := None;
      d := OnOther(router, e);
    }
  }

  /** A hello that asks for its acknowledgement again, or the shutdown. */
  method OnOther(router: Router, e: Event) returns (d: Done)
    requires router.Valid() && (e.Repeat? || e.Shutdown?)
    modifies router`replays, router`ledger, router`closed, router`sessions, router`sources
    ensures router.Valid() && d.event == e && d.ok == old(Grants(router, e))
    ensures Books(router.watch, d, old(router.ledger), router.ledger)
    ensures Alters(d, None, old(TablesOf(router)), TablesOf(router))
  {
    if e.Repeat? {
      var sent := router.ReplayAck(e.hello, e.source, e.now);
      router.StillHealthy();
      d := Done(e, sent, None);
    } else {
      router.Close();
      d := Done(e, true, None);
    }
  }

  /** The sessions accepted so far, and what has happened to each. */
  ghost predicate Kept(router: Router, accepted: seq<Session>, stories: seq<Story>)
    reads router`members, accepted
  {
    && |stories| == |accepted| && Distinct(accepted)
    && forall n :: 0 <= n < |accepted| ==> accepted[n] in router.members && stories[n] == accepted[n].Told()
  }

  /** The sessions accepted before stay what they are. */
  method OnRouterKeeping(router: Router, accepted: seq<Session>, ghost stories: seq<Story>, e: Event,
                         ghost cookie: Cookie)
    returns (d: Done, r: Option<Session>)
    requires router.Valid() && (e.Greeting? || e.Repeat? || e.Shutdown?)
    requires Kept(router, accepted, stories)
    modifies router
    ensures router.Valid() && old(router.members) <= router.members && fresh(router.members - old(router.members))
    ensures Kept(router, accepted, stories)
    ensures d.event == e && d.ok == old(Grants(router, e))
    ensures Books(router.watch, d, old(router.ledger), router.ledger)
    ensures Alters(d, if d.ok && e.Greeting? && !e.written then Some(e.hello.id) else None, old(TablesOf(router)),
                   TablesOf(router))
    ensures r.Some? <==> Accepts(d)
    ensures r.Some? ==> fresh(r.value) && r.value in router.members
                        && IsNew(r.value, e.hello.id, e.source, e.key, e.allowAdditional, e.now, cookie)
  {
    d, r := OnRouter(router, e, cookie);
    assert Kept(router, accepted, stories) by {
      assert unchanged(accepted);
    }
  }

  /** All that a log tells of. */
  datatype Moment = Moment(accepted: seq<Session>, stories: seq<Story>, ledger: Ledger, tables: Tables)

  ghost function MomentOf(router: Router, accepted: seq<Session>, stories: seq<Story>): Moment
    reads router
  {
    Moment(accepted, stories, router.ledger, TablesOf(router))
  }

  /** The session that left with an event. */
  ghost function Leaving(d: Done, accepted: seq<Session>): Option<nat> {
    if d.ok && d.event.Greeting? && !d.event.written then Some(d.event.hello.id)
    else if d.ok && d.event.Departure? && d.event.session < |accepted| then Some(accepted[d.event.session].id)
    else None
  }

  /** What one event does. */
  ghost predicate Steps(watch: Hello, cookie: Cookie, tag: Tagger, d: Done, m: Moment, m': Moment) {
    match m
    case Moment(accepted, stories, ledger, tables) =>
      && |accepted| == |stories| && accepted <= m'.accepted && |m'.accepted| == |m'.stories|
      && Books(watch, d, ledger, m'.ledger) && Alters(d, Leaving(d, accepted), tables, m'.tables)
      && Moves(d, accepted, stories, m'.stories) && InRange(d, |accepted|)
      && (d.ok && d.event.Response? ==> Proves(tag, accepted[d.event.session], d.event))
      && (forall n :: 0 <= n < |accepted| && About(d.event, n) ==> Right(d, accepted[n].openedAt, stories[n]))
      && (Accepts(d) ==> Begins(m'.accepted[|accepted|], d.event, cookie))
  }

  /** A session begins as its greeting says. */
  ghost predicate Begins(s: Session, e: Event, cookie: Cookie)
    requires e.Greeting?
  {
    && s.id == e.hello.id && s.key == e.key && s.allowAdditional == e.allowAdditional
    && s.openedAt == Seconds(e.now) && s.watch == cookie
  }

  lemma NewIsKept(router: Router, accepted: seq<Session>, stories: seq<Story>, s: Session, e: Event, cookie: Cookie)
    requires Kept(router, accepted, stories) && s in router.members && s !in accepted && e.Greeting?
    requires IsNew(s, e.hello.id, e.source, e.key, e.allowAdditional, e.now, cookie)
    ensures Kept(router, accepted + [s], stories + [NewStory(e.source, e.now)]) && Begins(s, e, cookie)
  {
    s.NewIsValid(e.source, e.now);
  }

  /** Any event about a session: if it is not among those accepted, nothing happens. */
  method StepOnSession(router: Router, accepted: seq<Session>, ghost stories: seq<Story>, e: Event,
                       ghost cookie: Cookie)
    returns (d: Done, ghost stories': seq<Story>)
    requires router.Valid() && Kept(router, accepted, stories)
    requires e.Departure? || e.Request? || e.Response? || e.Check? || e.Traffic?
    modifies router`sessions, router`sources, router`tombstones, router`replays, router`ledger, accepted
    ensures router.Valid() && Kept(router, accepted, stories')
    ensures d.event == e && d.ok == old(e.session < |accepted| && GrantsTo(router, accepted[e.session], e))
    ensures Steps(router.watch, cookie, router.tag, d, old(MomentOf(router, accepted, stories)),
                  MomentOf(router, accepted, stories'))
  {
    d, stories' := Done(e, false, None), stories;
    ghost var m := MomentOf(router, accepted, stories);
    if e.session < |accepted| {
      d, stories' := OnAccepted(router, accepted, stories, e);
    }
    SessionSteps(router.watch, cookie, router.tag, d, m, MomentOf(router, accepted, stories'));
  }

  /** An event about one of the sessions accepted; the others stay what they are. */
  method OnAccepted(router: Router, accepted: seq<Session>, ghost stories: seq<Story>, e: Event)
    returns (d: Done, ghost stories': seq<Story>)
    requires router.Valid() && Kept(router, accepted, stories)
    requires (e.Departure? || e.Request? || e.Response? || e.Check? || e.Traffic?) && e.session < |accepted|
    modifies router`sessions, router`sources, router`tombstones, router`replays, router`ledger, accepted
    ensures router.Valid() && Kept(router, accepted, stories')
    ensures d.event == e && d.ok == old(GrantsTo(router, accepted[e.session], e))
    ensures Books(router.watch, d, old(router.ledger), router.ledger)
    ensures Alters(d, if d.ok && e.Departure? then Some(accepted[e.session].id) else None, old(TablesOf(router)),
                   TablesOf(router))
    ensures |stories'| == |stories| && stories' == stories[e.session := stories'[e.session]]
    ensures Right(d, accepted[e.session].openedAt, stories[e.session])
    ensures Advances(d, accepted[e.session].watch, stories[e.session], stories'[e.session])
  {
    var session := accepted[e.session];
    d := OnSession(router, session, e);
    stories' := stories[e.session := session.Told()];
    forall i | 0 <= i < |accepted| && i != e.session
      ensures stories'[i] == accepted[i].Told()
    {
      assert accepted[i] != session && unchanged(accepted[i]);
    }
  }

  lemma SessionSteps(watch: Hello, cookie: Cookie, tag: Tagger, d: Done, m: Moment, m': Moment)
    requires !d.event.Greeting? && !d.event.Repeat? && !d.event.Shutdown? && |m.accepted| == |m.stories|
    requires m'.accepted == m.accepted && |m'.stories| == |m.stories|
    requires if d.event.session < |m.accepted|
             then
               var n := d.event.session;
               && Books(watch, d, m.ledger, m'.ledger)
               && Alters(d, if d.ok && d.event.Departure? then Some(m.accepted[n].id) else None, m.tables, m'.tables)
               && Advances(d, m.accepted[n].watch, m.stories[n], m'.stories[n])
               && m'.stories == m.stories[n := m'.stories[n]] && Right(d, m.accepted[n].openedAt, m.stories[n])
               && (d.ok && d.event.Response? ==> Proves(tag, m.accepted[n], d.event))
             else m' == m && !d.ok && !d.limited && d.evicted == None
    ensures Steps(watch, cookie, tag, d, m, m')
  {
  }

  lemma RouterSteps(watch: Hello, cookie: Cookie, tag: Tagger, d: Done, m: Moment, m': Moment)
    requires (d.event.Greeting? || d.event.Repeat? || d.event.Shutdown?) && |m.accepted| == |m.stories|
    requires Books(watch, d, m.ledger, m'.ledger)
    requires Alters(d, if d.ok && d.event.Greeting? && !d.event.written then Some(d.event.hello.id) else None, m.tables,
                    m'.tables)
    requires if Accepts(d)
             then
               && |m'.accepted| == |m.accepted| + 1 && m.accepted <= m'.accepted
               && m'.stories == m.stories + [NewStory(d.event.source, d.event.now)]
               && Begins(m'.accepted[|m.accepted|], d.event, cookie)
             else m'.accepted == m.accepted && m'.stories == m.stories
    ensures Steps(watch, cookie, tag, d, m, m')
  {
  }

  method StepOnRouter(router: Router, accepted: seq<Session>, ghost stories: seq<Story>, e: Event, ghost cookie: Cookie)
    returns (d: Done, accepted': seq<Session>, ghost stories': seq<Story>)
    requires router.Valid() && Kept(router, accepted, stories) && (e.Greeting? || e.Repeat? || e.Shutdown?)
    modifies router
    ensures router.Valid() && old(router.members) <= router.members && fresh(router.members - old(router.members))
    ensures Kept(router, accepted', stories') && d.event == e && d.ok == old(Grants(router, e))
    ensures Steps(router.watch, cookie, router.tag, d, old(MomentOf(router, accepted, stories)),
                  MomentOf(router, accepted', stories'))
  {
    ghost var m := MomentOf(router, accepted, stories);
    var r;
    d, r := OnRouterKeeping(router, accepted, stories, e, cookie);
    if r.Some? {
      NewIsKept(router, accepted, stories, r.value, e, cookie);
      accepted', stories' := accepted + [r.value], stories + [NewStory(e.source, e.now)];
    } else {
      accepted', stories' := accepted, stories;
    }
    RouterSteps(router.watch, cookie, router.tag, d, m, MomentOf(router, accepted', stories'));
  }

  method Step(router: Router, accepted: seq<Session>, ghost stories: seq<Story>, e: Event, ghost cookie: Cookie)
    returns (d: Done, accepted': seq<Session>, ghost stories': seq<Story>)
    requires router.Valid() && Kept(router, accepted, stories)
    modifies router, router.members
    ensures router.Valid() && old(router.members) <= router.members && fresh(router.members - old(router.members))
    ensures Kept(router, accepted', stories') && d.event == e
    ensures d.ok == old(if e.Greeting? || e.Repeat? || e.Shutdown? then Grants(router, e)
                        else e.session < |accepted| && GrantsTo(router, accepted[e.session], e))
    ensures Steps(router.watch, cookie, router.tag, d, old(MomentOf(router, accepted, stories)),
                  MomentOf(router, accepted', stories'))
  {
    if e.Greeting? || e.Repeat? || e.Shutdown? {
      d, accepted', stories' := StepOnRouter(router, accepted, stories, e, cookie);
    } else {
      accepted' := accepted;
      d, stories' := StepOnSession(router, accepted, stories, e, cookie);
    }
  }

  /** The log is of what led to this moment. */
  ghost predicate Logged(start: int, log: seq<Done>, watch: Hello, tag: Tagger, cookie: Cookie, m: Moment) {
    match m
    case Moment(accepted, stories, ledger, tables) =>
      && Mirrors(log, accepted, tables) && Booked(watch, start, log, ledger)
      && AllTell(start, log, cookie, accepted, stories) && Grounded(log) && Proven(tag, log, accepted)
      && AllPermitted(log)
  }

  /** A response was accepted only from a source that proved itself to that session. */
  ghost predicate Proven(tag: Tagger, log: seq<Done>, accepted: seq<Session>) {
    forall i :: 0 <= i < |log| && log[i].ok && log[i].event.Response? ==>
      log[i].event.session < |accepted| && Proves(tag, accepted[log[i].event.session], log[i].event)
  }

  lemma SteppingIsPermitted(start: int, log: seq<Done>, watch: Hello, tag: Tagger, cookie: Cookie, d: Done, m: Moment,
                            m': Moment)
    requires Steps(watch, cookie, tag, d, m, m') && Logged(start, log, watch, tag, cookie, m)
    ensures AllPermitted(log + [d])
  {
    assert Front(log + [d]) == log && Back(log + [d]) == d;
    if (d.event.Check? || d.event.Traffic? || d.event.Request? || d.event.Response?)
       && d.event.session < Accepted(log) {
      var n := d.event.session;
      assert About(d.event, n) && Tells(start, log, n, cookie, m.stories[n]);
      RightIsPermitted(log, d, m.stories[n]);
    }
  }

  lemma SteppingKeepsLogged(start: int, log: seq<Done>, watch: Hello, tag: Tagger, cookie: Cookie, d: Done, m: Moment,
                            m': Moment)
    requires Steps(watch, cookie, tag, d, m, m') && Logged(start, log, watch, tag, cookie, m)
    ensures Logged(start, log + [d], watch, tag, cookie, m')
  {
    BookingKeepsBooked(watch, start, log, d, m.ledger, m'.ledger);
    MovingKeepsTold(start, log, cookie, d, m.accepted, m.stories, m'.accepted, m'.stories);
    AlteringKeepsMirrored(log, d, m.accepted, m'.accepted, m.tables, m'.tables);
    SteppingIsPermitted(start, log, watch, tag, cookie, d, m, m');
  }

  /** The next event of a run, logged. */
  method Log(router: Router, accepted: seq<Session>, ghost stories: seq<Story>, log: seq<Done>, e: Event, start: int,
             ghost cookie: Cookie)
    returns (d: Done, accepted': seq<Session>, ghost stories': seq<Story>)
    requires router.Valid() && Kept(router, accepted, stories)
    requires Logged(start, log, router.watch, router.tag, cookie, MomentOf(router, accepted, stories))
    modifies router, router.members
    ensures router.Valid() && old(router.members) <= router.members && fresh(router.members - old(router.members))
    ensures d.event == e && Kept(router, accepted', stories')
    ensures Logged(start, log + [d], router.watch, router.tag, cookie, MomentOf(router, accepted', stories'))
  {
    ghost var m := MomentOf(router, accepted, stories);
    d, accepted', stories' := Step(router, accepted, stories, e, cookie);
    SteppingKeepsLogged(start, log, router.watch, router.tag, cookie, d, m, MomentOf(router, accepted', stories'));
  }

  /** What a log tells of a session. */
  ghost predicate Sound(start: int, log: seq<Done>, n: nat, cookie: Cookie)
    requires n < Accepted(log)
  {
    var uses := UsesOf(log, n, cookie);
    && (Ordered(start, log) ==> |uses| <= 2 && (uses != [] && uses[0] > cookie.issued * SECOND ==> |uses| == 1))
    && ChallengesOf(log, n) as real
       <= Allowance(REQUESTS_PER_SECOND, REQUEST_BURST, Seconds(OpenedAt(log, n)),
                    Seconds(RelayLogs.Latest(start, log)))
  }

  lemma SessionIsSound(router: Router, start: int, log: seq<Done>, accepted: seq<Session>, stories: seq<Story>,
                       cookie: Cookie, n: nat)
    requires router.Healthy() && Kept(router, accepted, stories) && AllTell(start, log, cookie, accepted, stories)
    requires n < |accepted| && Grounded(log)
    ensures n < Accepted(log) && Sound(start, log, n, cookie)
  {
    var s := accepted[n];
    assert s.Valid() && Tells(start, log, n, cookie, s.Told());
    if s.forward {
      s.CookiesAreUsedOnce();
    }
    s.RequestsAreFair(0.0);
    CallsCount(start, log, n, s.openedAt);
    AllowanceGrows(REQUESTS_PER_SECOND, REQUEST_BURST, s.openedAt, TokenBuckets.Latest(s.openedAt, s.calls),
                   Seconds(RelayLogs.Latest(start, log)));
  }

  /** What a log tells of the router it is the log of. */
  lemma Account(router: Router, start: int, log: seq<Done>, accepted: seq<Session>, stories: seq<Story>, cookie: Cookie)
    requires router.Valid() && Kept(router, accepted, stories)
    requires Logged(start, log, router.watch, router.tag, cookie, MomentOf(router, accepted, stories))
    ensures Limited(start, log, router.watch) && AllAnswered(log) && EvictsWhenFull(log)
    ensures |accepted| == Accepted(log) && Proven(router.tag, log, accepted) && AllPermitted(log)
    ensures forall n :: 0 <= n < |accepted| ==> accepted[n].active == ActiveOf(log, n) && Sound(start, log, n, cookie)
  {
    HelloIsLimited(start, log, router.watch, router.ledger);
    OnlyFullEvicts(log);
    forall n | 0 <= n < |accepted|
      ensures accepted[n].active == ActiveOf(log, n) && Sound(start, log, n, cookie)
    {
      assert Tells(start, log, n, cookie, accepted[n].Told());
      SessionIsSound(router, start, log, accepted, stories, cookie, n);
    }
  }

  /** An answer for each event. */
  ghost predicate EachAnswered(events: seq<Event>, log: seq<Done>) {
    |log| == |events| && forall i :: 0 <= i < |events| ==> log[i].event == events[i]
  }

  lemma OneMoreAnswered(events: seq<Event>, i: nat, log: seq<Done>, d: Done)
    requires i < |events| && EachAnswered(events[..i], log) && d.event == events[i]
    ensures EachAnswered(events[..i] + [events[i]], log + [d])
    ensures events[..i + 1] == events[..i] + [events[i]] && events[..|events|] == events
  {
  }

  /** A new router, nothing logged. */
  method Begin(tag: Tagger, ghost watch: Hello, ghost cookie: Cookie, start: int) returns (router: Router)
    ensures fresh(router) && router.Valid() && router.watch == watch && router.tag == tag && router.members == {}
    ensures Logged(start, [], watch, tag, cookie, MomentOf(router, [], []))
  {
    router := new Router(tag, watch, start);
  }

  /** The events of a run, one by one. */
  method Play(tag: Tagger, ghost watch: Hello, ghost cookie: Cookie, start: int, events: seq<Event>)
    returns (router: Router, accepted: seq<Session>, ghost stories: seq<Story>, log: seq<Done>)
    ensures router.Valid() && router.watch == watch && router.tag == tag && Kept(router, accepted, stories)
    ensures |log| == |events| && forall i :: 0 <= i < |events| ==> log[i].event == events[i]
    ensures Logged(start, log, watch, tag, cookie, MomentOf(router, accepted, stories))
  {
    router := Begin(tag, watch, cookie, start);
    accepted, stories, log := [], [], [];
    ghost var past: seq<Event> := [];
    for i := 0 to |events|
      invariant fresh(router) && fresh(router.members) && router.watch == watch && router.tag == tag && router.Valid()
      invariant past == events[..i] && EachAnswered(past, log)
      invariant Kept(router, accepted, stories)
      invariant Logged(start, log, watch, tag, cookie, MomentOf(router, accepted, stories))
    {
      var d;
      d, accepted, stories := Log(router, accepted, stories, log, events[i], start, cookie);
      OneMoreAnswered(events, i, log, d);
      log, past := log + [d], past + [events[i]];
    }
  }

  /** Every run, whatever the order of events, for any hello and any cookie. Ownership of sources holds
      throughout. A hello gets at most four acknowledgements for each session it opens. If the clock only goes
      forward, it opens one session, unless more than 4096 sessions close within the lifetime of a tombstone;
      and then it opens another one only after its own tombstone was evicted. Replies go to the source of the
      greeting or of the last response accepted, which proved itself; a cookie is accepted once on a session, at
      most twice if it was used at the instant it was issued; and challenges keep their rate. Every answer to a
      greeting is the right one, and a tombstone is evicted only from a full table. */
  method Run(tag: Tagger, ghost watch: Hello, ghost cookie: Cookie, start: int, events: seq<Event>)
    returns (router: Router, accepted: seq<Session>, log: seq<Done>)
    ensures router.Valid() && |log| == |events| && forall i :: 0 <= i < |events| ==> log[i].event == events[i]
    ensures Limited(start, log, watch) && AllAnswered(log)
    ensures EvictsWhenFull(log)
    ensures |accepted| == Accepted(log) && Proven(tag, log, accepted) && AllPermitted(log)
    ensures forall n :: 0 <= n < |accepted| ==> accepted[n].active == ActiveOf(log, n) && Sound(start, log, n, cookie)
  {
    ghost var stories;
    router, accepted, stories, log := Play(tag, watch, cookie, start, events);
    Account(router, start, log, accepted, stories, cookie);
  }
}
