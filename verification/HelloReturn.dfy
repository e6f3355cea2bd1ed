/** How a hello can open a second session although its first one blocks it. */
module HelloReturns {
  import opened Common
  import opened PathSessions
  import opened HelloLedgers
  import opened Relays

  /** The tombstone table is full, a hello that has opened a session comes first in it, and another session
      closes: the hello opens a second session. */
  method FullTable(router: Router, hello: Hello, source: Source, other: Session, now: int, ghost cookie: Cookie)
    returns (r: Option<Session>)
    requires router.Valid() && !router.closed && router.watch == hello && router.ledger.sessions == 1
    requires router.Registered(other) && other.id != hello.id
    requires hello.IsFresh(now) && hello.id !in router.sessions
    requires Usable(source) && source !in router.sources
    requires var kept := Unexpired(router.tombstones, now);
             && |kept| == MAX_TOMBSTONES && hello.id in kept
             && forall id :: id in kept && id != hello.id ==> kept[hello.id] < kept[id]
    modifies router
    ensures r.Some? && r.value.id == hello.id && router.ledger.sessions == 2
  {
    var evicted := router.Unregister(other, now);
    assert evicted == Some(hello.id);
    assert hello.id !in router.tombstones;
    router.StillHealthy();
    var opens;
    r, opens, evicted := router.Accept(hello, source, true, true, 0, true, true, now, cookie);
  }

  /** A session that is opened and closed at once, on a router that has no other. */
  method OpenAndClose(router: Router, hello: Hello, source: Source, now: int, ghost cookie: Cookie)
    returns (evicted: Option<nat>)
    requires router.Valid() && !router.closed && router.sessions == map[] && Usable(source) && hello.IsFresh(now)
    requires !Blocks(router.tombstones, hello.id, now)
    modifies router
    ensures router.Valid() && !router.closed && router.sessions == map[]
    ensures Evicts(old(router.tombstones), now, evicted)
    ensures router.tombstones == Entombed(old(router.tombstones), now, Some(hello.id), evicted)
    ensures router.ledger.sessions == old(router.ledger).sessions + if hello == router.watch then 1 else 0
  {
    NoSessionNoSource(router);
    ghost var tombstones := router.tombstones;
    UnexpiredTwice(tombstones, now);
    var r, opens, _ := router.Accept(hello, source, true, true, 0, true, true, now, cookie);
    evicted := router.Unregister(r.value, now);
    router.StillHealthy();
  }

  lemma NoSessionNoSource(router: Router)
    requires router.Owned() && router.sessions == map[]
    ensures router.sources == map[]
  {
    assert forall s :: s in router.sources ==> router.sources[s].id in router.sessions;
  }

  /** The tombstones of `first`, closed at `at`, and of `n` sessions with the next ids, closed right after, up to 4096
      in all; once there were more, the first has made way. */
  ghost predicate Rowed(first: nat, at: int, n: nat, tombstones: map<nat, int>) {
    if n == MAX_TOMBSTONES then first !in tombstones
    else
      && |tombstones| == n + 1 && first in tombstones && tombstones[first] == at + HANDSHAKE_TIMEOUT
      && forall id :: id in tombstones ==>
           first <= id <= first + n && (id != first ==> tombstones[id] == at + 1 + HANDSHAKE_TIMEOUT)
  }

  /** None of them expires soon, so the next one finds a free place until 4096 are there, and then the first
      makes way. */
  lemma RowGrows(first: nat, at: int, n: nat, evicted: Option<nat>, before: map<nat, int>, after: map<nat, int>)
    requires n < MAX_TOMBSTONES && Rowed(first, at, n, before) && Evicts(before, at + 1, evicted)
    requires after == Entombed(before, at + 1, Some(first + n + 1), evicted)
    ensures Rowed(first, at, n + 1, after)
  {
    assert Unexpired(before, at + 1) == before;
    if n + 1 < MAX_TOMBSTONES {
      MapSizes(before, first + n + 1, at + 1 + HANDSHAKE_TIMEOUT);
    } else {
      assert evicted == Some(first);
    }
  }

  lemma RowIsFree(first: nat, at: int, n: nat, tombstones: map<nat, int>)
    requires n < MAX_TOMBSTONES && Rowed(first, at, n, tombstones)
    ensures !Blocks(tombstones, first + n + 1, at + 1)
  {
  }

  lemma OthersAreFresh(hello: Hello, id: nat, now: int)
    requires hello.IsFresh(now)
    ensures Hello(id, hello.unixMilli, 1, 0).IsFresh(now)
  {
  }

  /** The next of the other sessions opens and closes. */
  method NextCloses(router: Router, hello: Hello, source: Source, at: int, n: nat, ghost cookie: Cookie)
    requires router.Valid() && !router.closed && router.sessions == map[] && Usable(source) && hello.IsFresh(at + 1)
    requires router.watch == hello && router.ledger.sessions == 1 && n < MAX_TOMBSTONES
    requires Rowed(hello.id, at, n, router.tombstones)
    modifies router
    ensures router.Valid() && !router.closed && router.sessions == map[] && router.ledger.sessions == 1
    ensures Rowed(hello.id, at, n + 1, router.tombstones)
  {
    ghost var before := router.tombstones;
    RowIsFree(hello.id, at, n, before);
    OthersAreFresh(hello, hello.id + n + 1, at + 1);
    var evicted := OpenAndClose(router, Hello(hello.id + n + 1, hello.unixMilli, 1, 0), source, at + 1, cookie);
    RowGrows(hello.id, at, n, evicted, before, router.tombstones);
  }

  /** The 4096 other sessions open and close, one after the other. */
  method CloseOthers(router: Router, hello: Hello, source: Source, at: int, ghost cookie: Cookie)
    requires router.Valid() && !router.closed && router.sessions == map[] && Usable(source) && hello.IsFresh(at + 1)
    requires router.watch == hello && router.ledger.sessions == 1 && Rowed(hello.id, at, 0, router.tombstones)
    modifies router
    ensures router.Valid() && !router.closed && router.sessions == map[] && router.ledger.sessions == 1
    ensures hello.id !in router.tombstones
  {
    for n := 0 to MAX_TOMBSTONES
      invariant router.Valid() && !router.closed && router.sessions == map[] && router.ledger.sessions == 1
      invariant Rowed(hello.id, at, n, router.tombstones)
    {
      NextCloses(router, hello, source, at, n, cookie);
    }
  }

  /** From a new router on: a hello opens a session, which closes, then 4096 other sessions open and close, and
      the hello opens a second session. */
  method Run(tag: Tagger, hello: Hello, source: Source, at: int, ghost cookie: Cookie)
    returns (router: Router, r: Option<Session>)
    requires hello.IsFresh(at) && hello.IsFresh(at + 1) && Usable(source)
    ensures router.Valid() && router.watch == hello && r.Some? && r.value.id == hello.id && router.ledger.sessions == 2
  {
    router := new Router(tag, hello, at);
    assert Unexpired(router.tombstones, at) == map[];
    var _ := OpenAndClose(router, hello, source, at, cookie);
    CloseOthers(router, hello, source, at, cookie);
    NoSessionNoSource(router);
    var opens, evicted;
    r, opens, evicted := router.Accept(hello, source, true, true, 0, true, true, at + 1, cookie);
  }
}
