/** The relay's router: who owns which source address, where replies go, and which hellos open sessions.
    Every step runs under the router's mutex; steps that release it in between are two methods. */
module Relays {
  import opened Common
  import opened PathSessions
  import opened HelloLedgers
  import opened TokenBuckets

  const REQUEST_LIFETIME := 10 * SECOND

  /** A path request's nonce starts with the second it was made in: at most one ahead and ten behind. */
  predicate RequestInTime(nonce: nat, now: int) {
    var issued := nonce / 0x1_0000_0000_0000_0000;
    issued < 0x8000_0000_0000_0000 && issued * SECOND <= now + SECOND && now - issued * SECOND <= REQUEST_LIFETIME
  }

  predicate Usable(source: Source) {
    source.network != "" && source.address != ""
  }

  /** Sources with those of `gone` that belong to the session removed. */
  function Released(sources: map<Source, Session>, gone: set<Source>, session: Session): map<Source, Session> {
    map s | s in sources && !(s in gone && sources[s] == session) :: sources[s]
  }

  /** The table with an entry more, if there is one. */
  function With<K, V>(table: map<K, V>, key: K, value: Option<V>): map<K, V> {
    if value.Some? then table[key := value.value] else table
  }

  lemma WithKeys<K, V>(table: map<K, V>, key: K, value: Option<V>)
    ensures With(table, key, value).Keys == table.Keys + if value.Some? then {key} else {}
  {
  }

  method Open(id: nat, key: nat, source: Source, allowAdditional: bool, now: int, ghost cookie: Cookie)
    returns (session: Session)
    ensures fresh(session) && IsNew(session, id, source, key, allowAdditional, now, cookie)
  {
    session := new Session(id, key, source, allowAdditional, now, cookie);
  }

  /** A session nothing has happened to yet. */
  ghost predicate IsNew(session: Session, id: nat, source: Source, key: nat, allowAdditional: bool, now: int,
                        cookie: Cookie)
    reads session
  {
    && session.id == id && session.key == key && session.allowAdditional == allowAdditional
    && session.watch == cookie && session.openedAt == Seconds(now) && session.Now() == NewState(source, now)
  }

  class Router {
    const tag: Tagger
    var sessions: map<nat, Session>
    var sources: map<Source, Session>
    var tombstones: map<nat, int>
    var replays: map<nat, Replay>
    var closed: bool
    /** Every session ever registered. */
    ghost var members: set<Session>
    /** The watched hello and what became of it. */
    ghost const watch: Hello
    ghost var ledger: Ledger

    predicate Registered(session: Session)
      reads `sessions
    {
      session.id in sessions && sessions[session.id] == session
    }

    /** The source table is exactly the disjoint union of the registered sessions' paths. */
    ghost predicate Owned()
      reads `sessions, `sources, `members, members`paths
    {
      && (forall id :: id in sessions ==> sessions[id].id == id && sessions[id] in members)
      && (forall s :: s in sources ==> Registered(sources[s]) && s in sessions[sources[s].id].paths)
      && (forall id :: id in sessions ==> Owns(sessions[id]))
    }

    /** Every path of the session is a source of its own. */
    ghost predicate Owns(session: Session)
      reads `sources, session`paths
    {
      forall s :: s in session.paths ==> s in sources && sources[s] == session
    }

    ghost predicate Healthy()
      reads `members, members
    {
      forall s :: s in members ==> s.Valid()
    }

    /** Sessions that were not touched stay as they are. */
    twostate lemma StillHealthy()
      requires old(Healthy()) && unchanged(old(members)) && old(members) <= members
      requires forall s :: s in members && s !in old(members) ==> s.Valid()
      ensures Healthy()
    {
    }

    ghost predicate Tracked()
      reads `sessions, `tombstones, `replays, `closed, `ledger
    {
      LedgerOk(watch, sessions.Keys, tombstones, replays, closed, ledger)
    }

    ghost predicate Valid()
      reads this, members
    {
      Owned() && Healthy() && Tracked()
    }

    constructor (tag: Tagger, ghost watch: Hello, ghost start: int)
      ensures Valid() && this.tag == tag && this.watch == watch && sessions == map[] && sources == map[]
      ensures ledger == Ledger(0, 0, start, true, false) && !closed && tombstones == map[] && members == {}
    {
      this.tag, this.watch := tag, watch;
      sessions, sources, tombstones, replays, closed := map[], map[], map[], map[], false;
      members := {};
      ledger := Ledger(0, 0, start, true, false);
    }

    method Prune(now: int)
      requires Owned() && Tracked()
      modifies `tombstones, `ledger
      ensures Owned() && Tracked() && tombstones == Unexpired(old(tombstones), now) && ledger == old(ledger).Tick(now)
    {
      var kept := DropExpired(tombstones, now);
      PruningKeepsLedger(watch, sessions.Keys, tombstones, replays, closed, ledger, now);
      tombstones := kept;
      ledger := ledger.Tick(now);
    }

    /** What registration refuses. */
    predicate Refuses(id: nat, source: Source, now: int)
      reads `closed, `tombstones, `sessions, `sources
    {
      || closed || Blocks(tombstones, id, now) || id in sessions
      || !Usable(source) || source in sources
    }

    /** Tombstones that have expired blocked nothing. */
    method PruneFor(id: nat, source: Source, now: int)
      requires Owned() && Tracked()
      modifies `tombstones, `ledger
      ensures Owned() && Tracked() && tombstones == Unexpired(old(tombstones), now) && ledger == old(ledger).Tick(now)
      ensures Refuses(id, source, now) == old(Refuses(id, source, now))
    {
      UnexpiredBlocks(tombstones, id, now);
      Prune(now);
    }

    /** A session enters with its one path, whose source was nobody's. */
    method Enter(session: Session, source: Source)
      requires Owned() && session.id !in sessions && source !in sources
      requires session in members && session.paths.Keys == {source}
      modifies `sessions, `sources
      ensures Owned()
      ensures sessions == old(sessions)[session.id := session] && sources == old(sources)[source := session]
    {
      sessions := sessions[session.id := session];
      sources := sources[source := session];
    }

    /** Registers a session unless the router is closed, the id blocked or in use, or the source taken. */
    method Register(id: nat, source: Source, key: nat, allowAdditional: bool, now: int, ghost cookie: Cookie)
      returns (r: Option<Session>)
      requires Owned() && Tracked()
      modifies `sessions, `sources, `members, `tombstones, `ledger
      ensures Owned() && LedgerOk(watch, old(sessions).Keys, tombstones, replays, closed, ledger)
      ensures members == old(members) + if r.Some? then {r.value} else {}
      ensures ledger == if closed then old(ledger) else old(ledger).Tick(now)
      ensures tombstones == if closed then old(tombstones) else Unexpired(old(tombstones), now)
      ensures r.Some? <==> !old(Refuses(id, source, now))
      ensures r.Some? ==> id !in tombstones && id !in old(sessions) && sessions.Keys == old(sessions).Keys + {id}
      ensures sessions == With(old(sessions), id, r) && sources == With(old(sources), source, r)
      ensures r.Some? ==> fresh(r.value) && IsNew(r.value, id, source, key, allowAdditional, now, cookie)
    {
      if closed {
        return None;
      }
      PruneFor(id, source, now);
      r := TryEnter(id, source, key, allowAdditional, now, cookie);
    }

    method TryEnter(id: nat, source: Source, key: nat, allowAdditional: bool, now: int, ghost cookie: Cookie)
      returns (r: Option<Session>)
      requires Owned()
      modifies `sessions, `sources, `members
      ensures Owned() && members == old(members) + if r.Some? then {r.value} else {}
      ensures r.Some? <==> !old(Refuses(id, source, now))
      ensures r.Some? ==> id !in old(sessions) && sessions.Keys == old(sessions).Keys + {id}
      ensures sessions == With(old(sessions), id, r) && sources == With(old(sources), source, r)
      ensures r.Some? ==> fresh(r.value) && IsNew(r.value, id, source, key, allowAdditional, now, cookie)
    {
      if Refuses(id, source, now) {
        return None;
      }
      var session := Open(id, key, source, allowAdditional, now, cookie);
      Enlist(session);
      Enter(session, source);
      WithKeys(old(sessions), id, Some(session));
      r := Some(session);
    }

    ghost method Enlist(session: Session)
      requires Owned()
      modifies `members
      ensures Owned() && members == old(members) + {session}
    {
      members := members + {session};
    }

    /** A session leaves: its sources are freed, and if it was still registered its id is blocked. */
    method Unregister(session: Session, now: int) returns (evicted: Option<nat>)
      requires Owned() && Tracked()
      modifies `sessions, `sources, `tombstones, `replays, `ledger
      ensures Owned() && Tracked() && !Registered(session)
      ensures forall s :: s in sources ==> s in old(sources)
      ensures !old(Registered(session)) ==> evicted == None && sessions == old(sessions) && sources == old(sources)
                                            && tombstones == old(tombstones)
      ensures ledger == if old(Registered(session)) then old(ledger).Closing(watch, session.id, now, evicted)
                        else old(ledger)
      ensures old(Registered(session)) ==>
                sessions == old(sessions) - {session.id} && Evicts(old(tombstones), now, evicted)
                && tombstones == Without(Unexpired(old(tombstones), now), evicted)[
                                   session.id := now + HANDSHAKE_TIMEOUT]
    {
      evicted := None;
      if Registered(session) {
        evicted := Depart(session, now);
      } else {
        assert Released(sources, session.paths.Keys, session) == sources;
        sources := Released(sources, session.paths.Keys, session);
      }
    }

    method Depart(session: Session, now: int) returns (evicted: Option<nat>)
      requires Owned() && Tracked() && Registered(session)
      modifies `sessions, `sources, `tombstones, `replays, `ledger
      ensures Owned() && Tracked() && forall s :: s in sources ==> s in old(sources)
      ensures sessions == old(sessions) - {session.id} && Evicts(old(tombstones), now, evicted)
      ensures ledger == old(ledger).Closing(watch, session.id, now, evicted)
      ensures tombstones == Without(Unexpired(old(tombstones), now), evicted)[session.id := now + HANDSHAKE_TIMEOUT]
    {
      evicted := Entomb(session, now);
      Leave(session);
      assert sessions.Keys == old(sessions).Keys - {session.id};
    }

    /** Blocks the id of a session that is about to leave. */
    method Entomb(session: Session, now: int) returns (evicted: Option<nat>)
      requires Tracked() && Registered(session)
      modifies `tombstones, `replays, `ledger
      ensures LedgerOk(watch, sessions.Keys - {session.id}, tombstones, replays, closed, ledger)
      ensures Evicts(old(tombstones), now, evicted) && ledger == old(ledger).Closing(watch, session.id, now, evicted)
      ensures tombstones == Without(Unexpired(old(tombstones), now), evicted)[session.id := now + HANDSHAKE_TIMEOUT]
    {
      var after;
      after, evicted := AddTombstone(tombstones, session.id, now + HANDSHAKE_TIMEOUT, now);
      ClosingKeepsLedger(watch, sessions.Keys, tombstones, replays, closed, ledger, session.id, now, evicted, after);
      tombstones, replays := after, replays - {session.id};
      ledger := ledger.Closing(watch, session.id, now, evicted);
    }

    method Leave(session: Session)
      requires Owned() && Registered(session)
      modifies `sessions, `sources
      ensures Owned() && sessions == old(sessions) - {session.id}
      ensures sessions.Keys == old(sessions).Keys - {session.id} && forall s :: s in sources ==> s in old(sources)
    {
      Vacate(session);
      sessions := sessions - {session.id};
    }

    /** Frees every source of a session. */
    method Vacate(session: Session)
      requires Owned() && Registered(session)
      modifies `sources
      ensures OwnedBut(session, {}) && forall s :: s in sources ==> s in old(sources)
    {
      sources := Released(sources, session.paths.Keys, session);
      forall id | id in sessions && sessions[id] != session
        ensures Owns(sessions[id])
      {
        assert old(Owns(sessions[id]));
      }
    }

    /** One hello from the queue, as one step. Only a fresh, authentic hello of an id that is neither blocked
        nor in use opens a session; `admitted` is the relay's own check of its session table and of the
        datagram size, and `written` whether the acknowledgement could be sent: if not, the session is taken
        down again. */
    method Accept(hello: Hello, source: Source, authentic: bool, admitted: bool, key: nat, allowAdditional: bool,
                  written: bool, now: int, ghost cookie: Cookie)
      returns (r: Option<Session>, opens: bool, evicted: Option<nat>)
      requires Valid()
      modifies `sessions, `sources, `members, `tombstones, `ledger, `replays
      ensures Valid() && old(members) <= members && fresh(members - old(members))
      ensures opens <==> authentic && admitted && hello.IsFresh(now) && !old(Refuses(hello.id, source, now))
      ensures r.Some? <==> opens && written
      ensures r.Some? ==> fresh(r.value) && Registered(r.value) && r.value in members
                          && IsNew(r.value, hello.id, source, key, allowAdditional, now, cookie)
      ensures r.Some? ==> replays == old(replays)[hello.id := Replay(hello, source, hello.unixMilli * 1_000_000, 3)]
      ensures sessions == With(old(sessions), hello.id, r)
      ensures forall s :: s in sources ==> s in old(sources) || (opens && s == source)
      ensures if opens && !written then Evicts(old(tombstones), now, evicted) else evicted == None
      ensures if closed || !(authentic && admitted && hello.IsFresh(now))
              then tombstones == old(tombstones) && ledger == old(ledger)
              else
                && tombstones == Entombed(old(tombstones), now, if opens && !written then Some(hello.id) else None,
                                          evicted)
                && ledger == Greeted(old(ledger), watch, hello, opens, written, now, evicted)
    {
      if !hello.IsFresh(now) || !authentic || !admitted {
        return None, false, None;
      }
      ghost var made;
      r, opens, evicted, made := Welcome(hello, source, key, allowAdditional, written, now, cookie);
      if opens {
        made.value.NewIsValid(source, now);
      }
      StillHealthy();
    }

    /** A fresh hello. */
    method Welcome(hello: Hello, source: Source, key: nat, allowAdditional: bool, written: bool, now: int,
                   ghost cookie: Cookie)
      returns (r: Option<Session>, opens: bool, evicted: Option<nat>, ghost made: Option<Session>)
      requires Owned() && Tracked() && hello.IsFresh(now)
      modifies `sessions, `sources, `members, `tombstones, `ledger, `replays
      ensures Owned() && Tracked()
      ensures opens <==> made.Some?
      ensures members == old(members) + if opens then {made.value} else {}
      ensures opens ==> fresh(made.value) && IsNew(made.value, hello.id, source, key, allowAdditional, now, cookie)
      ensures opens <==> !old(Refuses(hello.id, source, now))
      ensures r == if written then made else None
      ensures r.Some? ==> replays == old(replays)[hello.id := Replay(hello, source, hello.Expiry(), REPLAY_LIMIT)]
      ensures sessions == With(old(sessions), hello.id, r)
      ensures forall s :: s in sources ==> s in old(sources) || (opens && s == source)
      ensures if opens && !written then Evicts(old(tombstones), now, evicted) else evicted == None
      ensures if closed then tombstones == old(tombstones) && ledger == old(ledger)
              else
                && tombstones == Entombed(old(tombstones), now, if opens && !written then Some(hello.id) else None,
                                          evicted)
                && ledger == Greeted(old(ledger), watch, hello, opens, written, now, evicted)
    {
      ghost var before := tombstones;
      r := Establish(hello, source, key, allowAdditional, written, now, cookie);
      opens, evicted, made := r.Some?, None, r;
      if opens && !written {
        evicted := TakeDown(r.value, now, old(sessions), before);
        r := None;
      }
    }

    /** A session whose acknowledgement could not be written leaves again. */
    method TakeDown(session: Session, now: int, ghost was: map<nat, Session>, ghost stones: map<nat, int>)
      returns (evicted: Option<nat>)
      requires Owned() && Tracked() && session.id !in was && sessions == was[session.id := session]
      requires tombstones == Unexpired(stones, now)
      modifies `sessions, `sources, `tombstones, `replays, `ledger
      ensures Owned() && Tracked() && sessions == was && forall s :: s in sources ==> s in old(sources)
      ensures Evicts(stones, now, evicted) && tombstones == Entombed(stones, now, Some(session.id), evicted)
      ensures ledger == old(ledger).Closing(watch, session.id, now, evicted)
    {
      UnexpiredTwice(stones, now);
      assert sessions - {session.id} == was;
      evicted := Depart(session, now);
    }

    /** A fresh hello opens a session and is acknowledged; if that went out it may be repeated. */
    method Establish(hello: Hello, source: Source, key: nat, allowAdditional: bool, written: bool, now: int,
                     ghost cookie: Cookie)
      returns (r: Option<Session>)
      requires Owned() && Tracked() && hello.IsFresh(now)
      modifies `sessions, `sources, `members, `tombstones, `ledger, `replays
      ensures Owned() && Tracked() && members == old(members) + if r.Some? then {r.value} else {}
      ensures r.Some? <==> !old(Refuses(hello.id, source, now))
      ensures tombstones == if closed then old(tombstones) else Unexpired(old(tombstones), now)
      ensures sessions == With(old(sessions), hello.id, r) && sources == With(old(sources), source, r)
      ensures r.Some? ==> fresh(r.value) && IsNew(r.value, hello.id, source, key, allowAdditional, now, cookie)
      ensures r.Some? && written ==>
                replays == old(replays)[hello.id := Replay(hello, source, hello.Expiry(), REPLAY_LIMIT)]
      ensures ledger == if closed then old(ledger)
                        else if r.Some? then old(ledger).Tick(now).Opening(watch, hello)
                        else old(ledger).Tick(now)
    {
      r := Register(hello.id, source, key, allowAdditional, now, cookie);
      if r.Some? {
        Acknowledge(hello, source, written, now, old(sessions).Keys);
      }
    }

    method Acknowledge(hello: Hello, source: Source, written: bool, now: int, ghost live: set<nat>)
      requires LedgerOk(watch, live, tombstones, replays, false, ledger) && !closed && hello.IsFresh(now)
      requires ledger.clock >= now && (ledger.forward ==> ledger.clock == now)
      requires sessions.Keys == live + {hello.id} && hello.id !in live && hello.id !in tombstones
      requires Owned()
      modifies `ledger, `replays
      ensures Owned() && Tracked() && ledger == old(ledger).Opening(watch, hello)
      ensures replays == if written then old(replays)[hello.id := Replay(hello, source, hello.Expiry(), REPLAY_LIMIT)]
                         else old(replays)
    {
      Book(hello, source, written, now, live);
    }

    method Book(hello: Hello, source: Source, written: bool, now: int, ghost live: set<nat>)
      requires LedgerOk(watch, live, tombstones, replays, false, ledger) && !closed && hello.IsFresh(now)
      requires ledger.clock >= now && (ledger.forward ==> ledger.clock == now)
      requires sessions.Keys == live + {hello.id} && hello.id !in live && hello.id !in tombstones
      modifies `ledger, `replays
      ensures Tracked() && ledger == old(ledger).Opening(watch, hello)
      ensures replays == if written then old(replays)[hello.id := Replay(hello, source, hello.Expiry(), REPLAY_LIMIT)]
                         else old(replays)
    {
      OpeningKeepsLedger(watch, live, tombstones, replays, ledger, hello, source, now);
      ledger := ledger.Opening(watch, hello);
      if written {
        replays := replays[hello.id := Replay(hello, source, hello.Expiry(), REPLAY_LIMIT)];
      }
    }

    /** With a clock that goes forward, a live hello that has opened a session opens another one if and only if
        its tombstone was evicted, the relay is open, and the source it comes from is usable and nobody's. */
    lemma ReopensIfExposed(source: Source, now: int)
      requires Valid() && ledger.forward && ledger.sessions > 0 && ledger.clock <= now && watch.IsFresh(now)
      ensures !Refuses(watch.id, source, now) <==> ledger.exposed && !closed && Usable(source) && source !in sources
    {
      BlockedUnlessExposed(watch, sessions.Keys, tombstones, replays, closed, ledger, now);
    }

    /** A hello that already opened a session is acknowledged again, three times at most. */
    method ReplayAck(hello: Hello, source: Source, now: int) returns (sent: bool)
      requires Tracked()
      modifies `replays, `ledger
      ensures Tracked() && ledger == old(ledger).(acks := old(ledger).acks + if sent && hello == watch then 1 else 0)
      ensures sent <==> && hello.id in old(replays) && old(replays)[hello.id].remaining > 0
                        && now < old(replays)[hello.id].expiresAt
                        && old(replays)[hello.id].peer == source && old(replays)[hello.id].hello == hello
    {
      if hello.id !in replays {
        return false;
      }
      ReplayingKeepsLedger(watch, sessions.Keys, tombstones, replays, closed, ledger, hello);
      var replay := replays[hello.id];
      if replay.remaining == 0 || !(now < replay.expiresAt) {
        replays := replays - {hello.id};
        return false;
      }
      if source != replay.peer || hello != replay.hello {
        return false;
      }
      replays := replays[hello.id := replay.(remaining := replay.remaining - 1)];
      ledger := ledger.(acks := ledger.acks + if hello == watch then 1 else 0);
      return true;
    }

    /** Nobody else owns the source. */
    predicate Available(source: Source, session: Session)
      reads `sources
    {
      source in sources ==> sources[source] == session
    }

    /** A path request whose time and tag have been checked: a cookie bound to session, source and nonce, as
        long as the session's allowance lasts: eight requests, and two a second more. Nothing else changes. */
    method Challenge(session: Session, source: Source, nonce: nat, now: nat)
      returns (r: Option<Cookie>, limited: bool)
      requires Valid() && session in members
      modifies session`bucket, session`calls
      ensures Valid() && (limited ==> r.None?)
      ensures r.Some? || limited <==>
                && session.id in sessions && sessions[session.id] == session && session.allowAdditional
                && session.active != source && (source !in sources || sources[source] == session)
      ensures r.Some? || limited ==> (r.Some? <==> old(session.bucket).Refill(Seconds(now)).Covers(1.0))
      ensures r.Some? ==> r.value == IssueCookie(tag, session.key, session.id, source, nonce, now)
      ensures session.calls == old(session.calls) +
                               if r.Some? || limited then [Call(Seconds(now), 1.0, r.Some?)] else []
    {
      if !Registered(session) || !session.allowAdditional || session.active == source || !Available(source, session) {
        return None, false;
      }
      var ok := session.ConsumeToken(now);
      r := if ok then Some(IssueCookie(tag, session.key, session.id, source, nonce, now)) else None;
      limited := !ok;
    }

    /** The second half of a path response, after its tag and cookie were verified without the lock. The
        active source changes here and nowhere else. */
    method FinishResponse(session: Session, source: Source, cookie: Cookie, nonce: nat, now: int)
      returns (ok: bool, victim: Option<Source>)
      requires Valid() && session in members
      requires InTime(cookie, now) && Bound(tag, cookie, session.key, session.id, source, nonce)
      modifies `sources, session`paths, session`active, session`cookies, session`uses, session`last, session`forward
      ensures Valid()
      ensures ok <==> && session.id in sessions && sessions[session.id] == session
                      && (source !in old(sources) || old(sources)[source] == session)
                      && old(session.CanUse(cookie, now))
      ensures session.active == if ok then source else old(session.active)
      ensures if ok then old(session.active) in session.paths
              else session.paths == old(session.paths) && sources == old(sources)
      ensures forall s :: s in sources ==> s in old(sources) || s == source
      ensures if ok then MakesWay(old(session.paths), old(session.active), source, now, victim) else victim == None
      ensures ok ==> old(session.active) in old(session.paths)
                     && session.paths == Switched(old(session.paths), old(session.active), source, now, victim)
      ensures session.uses == if ok && cookie == session.watch then old(session.uses) + [now] else old(session.uses)
      ensures session.last <= Max(old(session.last), now)
      ensures old(session.forward) && old(session.last) <= now ==> session.forward
    {
      if !Registered(session) || !Available(source, session) {
        return false, None;
      }
      ok, victim := SwitchTo(session, source, cookie, now);
    }

    method SwitchTo(session: Session, source: Source, cookie: Cookie, now: int)
      returns (ok: bool, victim: Option<Source>)
      requires Owned() && Healthy() && Registered(session) && Available(source, session) && InTime(cookie, now)
      modifies `sources, session`paths, session`active, session`cookies, session`uses, session`last, session`forward
      ensures Owned() && Healthy() && (ok <==> old(session.CanUse(cookie, now)))
      ensures session.active == if ok then source else old(session.active)
      ensures if ok then old(session.active) in session.paths
              else session.paths == old(session.paths) && sources == old(sources)
      ensures forall s :: s in sources ==> s in old(sources) || s == source
      ensures if ok then MakesWay(old(session.paths), old(session.active), source, now, victim) else victim == None
      ensures ok ==> old(session.active) in old(session.paths)
                     && session.paths == Switched(old(session.paths), old(session.active), source, now, victim)
      ensures session.uses == if ok && cookie == session.watch then old(session.uses) + [now] else old(session.uses)
      ensures session.last <= Max(old(session.last), now)
      ensures old(session.forward) && old(session.last) <= now ==> session.forward
    {
      var was := session.paths.Keys;
      ok, victim := RespondTo(session, source, cookie, now);
      if ok {
        Rehome(session, was, source);
      }
    }

    /** Ownership apart from one session, whose paths have just changed. */
    ghost predicate OwnedBut(session: Session, before: set<Source>)
      reads `sessions, `sources, `members, members`paths
    {
      && (forall id :: id in sessions ==> sessions[id].id == id && sessions[id] in members)
      && (forall s :: s in sources ==> Registered(sources[s]))
      && (forall s :: s in sources && sources[s] != session ==> s in sessions[sources[s].id].paths)
      && (forall s :: s in sources && sources[s] == session ==> s in before)
      && (forall id :: id in sessions && sessions[id] != session ==> Owns(sessions[id]))
      && (forall s :: s in before ==> s in sources && sources[s] == session)
    }

    /** The source table follows a session whose paths have changed. */
    method Rehome(session: Session, before: set<Source>, source: Source)
      requires Registered(session) && OwnedBut(session, before) && Available(source, session)
      requires source in session.paths && session.paths.Keys <= before + {source}
      modifies `sources
      ensures Owned() && forall s :: s in sources ==> s in old(sources) || s == source
    {
      sources := Released(sources, before - session.paths.Keys, session)[source := session];
      forall id | id in sessions && sessions[id] != session
        ensures Owns(sessions[id])
      {
        assert old(Owns(sessions[id]));
      }
    }

    method RespondTo(session: Session, source: Source, cookie: Cookie, now: int)
      returns (ok: bool, victim: Option<Source>)
      requires Owned() && Healthy() && Registered(session) && InTime(cookie, now)
      modifies session`paths, session`active, session`cookies, session`uses, session`last, session`forward
      ensures ok <==> old(session.CanUse(cookie, now))
      ensures Healthy() && if ok then OwnedBut(session, old(session.paths).Keys) else Owned()
      ensures !ok ==> session.active == old(session.active) && session.paths == old(session.paths)
      ensures ok ==> session.active == source && old(session.active) in session.paths && source in session.paths
                     && session.paths.Keys <= old(session.paths).Keys + {source}
      ensures if ok then MakesWay(old(session.paths), old(session.active), source, now, victim) else victim == None
      ensures ok ==> old(session.active) in old(session.paths)
                     && session.paths == Switched(old(session.paths), old(session.active), source, now, victim)
      ensures session.uses == if ok && cookie == session.watch then old(session.uses) + [now] else old(session.uses)
      ensures session.last <= Max(old(session.last), now)
      ensures old(session.forward) && old(session.last) <= now ==> session.forward
    {
      ok, victim := session.Respond(source, cookie, now);
    }

    /** Whether a source may send for the session; stale paths are dropped first. */
    method Authorize(session: Session, source: Source, now: int) returns (ok: bool)
      requires Valid() && session in members
      modifies `sources, session`paths
      ensures Valid() && session.active in session.paths && forall s :: s in sources ==> s in old(sources)
      ensures session.paths == Current(old(session.paths), session.active, now)
      ensures ok <==> || source == session.active
                      || (source in old(session.paths) && now - old(session.paths)[source].lastSeen < 45_000_000_000)
    {
      if Registered(session) {
        PurgeRegistered(session, now);
      } else {
        PurgeDeparted(session, now);
      }
      ok := source in session.paths;
    }

    method PurgeRegistered(session: Session, now: int)
      requires Owned() && Healthy() && Registered(session)
      modifies `sources, session`paths
      ensures Owned() && Healthy() && session.paths == Current(old(session.paths), session.active, now)
      ensures forall s :: s in sources ==> s in old(sources)
    {
      var was := session.paths.Keys;
      session.PurgePaths(now);
      assert OwnedBut(session, was);
      Rehome(session, was, session.active);
    }

    /** A session that has left owns no source, so none is freed. */
    method PurgeDeparted(session: Session, now: int)
      requires Owned() && !Registered(session) && session.Valid()
      modifies `sources, session`paths
      ensures Owned() && session.Valid() && sources == old(sources)
      ensures session.paths == Current(old(session.paths), session.active, now)
    {
      var was := session.paths.Keys;
      session.PurgePaths(now);
      var kept := Released(sources, was - session.paths.Keys, session);
      assert kept == sources;
      sources := kept;
    }

    method Observe(session: Session, source: Source, now: int)
      requires Owned() && Healthy() && session in members
      modifies session`paths
      ensures Owned() && Healthy()
      ensures session.paths == if source in old(session.paths)
                               then old(session.paths)[source := old(session.paths)[source].(lastSeen := now)]
                               else old(session.paths)
    {
      session.Observe(source, now);
    }

    /** A data packet goes to the session that owns its source. */
    method Route(source: Source) returns (r: Option<Session>)
      requires Valid()
      ensures r.Some? <==> Usable(source) && source in sources
      ensures r.Some? ==> Registered(r.value) && source in r.value.paths
      ensures forall id :: id in sessions && Usable(source) && source in sessions[id].paths ==> r == Some(sessions[id])
    {
      r := if Usable(source) && source in sources then Some(sources[source]) else None;
    }

    /** Shutdown: everything is dropped and nothing can register any more. */
    method Close()
      requires Valid()
      modifies `closed, `sessions, `sources
      ensures Valid() && closed && sessions == map[] && sources == map[]
    {
      closed, sessions, sources := true, map[], map[];
    }
  }
}
