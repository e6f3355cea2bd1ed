/** Which handshake hellos may still open a session: freshness, tombstones of closed sessions, and the
    bounded replay of acknowledgements. Times are in nanoseconds. */
module HelloLedgers {
  import opened Common
  import opened PathSessions

  const HANDSHAKE_TIMEOUT := 30 * SECOND
  const REPLAY_LIMIT := 3
  const MAX_TOMBSTONES := 4096

  /** A hello packet: its session, its expiry in Unix milliseconds, its nonce and everything else in it. */
  datatype Hello = Hello(id: nat, unixMilli: int, nonce: nat, rest: nat) {
    function Expiry(): int {
      unixMilli * 1_000_000
    }

    predicate IsFresh(now: int) {
      nonce != 0 && unixMilli > 0 && now < Expiry() <= now + HANDSHAKE_TIMEOUT
    }
  }

  datatype Replay = Replay(hello: Hello, peer: Source, expiresAt: int, remaining: nat)

  /** What has happened to one watched hello: the sessions it opened and the acknowledgements it got, the
      latest clock reading and whether the clock only went forward, and whether the tombstone of its id was
      evicted before the hello expired, with no session of that id since. */
  datatype Ledger = Ledger(sessions: nat, acks: nat, clock: int, forward: bool, exposed: bool) {
    function Tick(now: int): Ledger {
      this.(clock := Max(clock, now), forward := forward && clock <= now)
    }

    /** A ledger no later than the previous one and a reading allow, forward if both are. */
    predicate Since(before: Ledger, now: int) {
      clock <= Max(before.clock, now) && (before.forward && before.clock <= now ==> forward)
    }

    /** A session was opened by a hello. */
    function Opening(watch: Hello, hello: Hello): Ledger {
      var opens := if hello == watch then 1 else 0;
      this.(sessions := sessions + opens, acks := acks + opens, exposed := exposed && hello.id != watch.id)
    }

    /** A session has left, and its tombstone may have pushed out another. */
    function Closing(watch: Hello, id: nat, now: int, evicted: Option<nat>): Ledger {
      Tick(now).(exposed := id != watch.id && (exposed || Exposes(watch, now, evicted)))
    }
  }

  /** What a hello that was looked at does to the ledger: it may open a session, which is taken down again if
      its acknowledgement cannot be written. */
  function Greeted(ledger: Ledger, watch: Hello, hello: Hello, opens: bool, written: bool, now: int,
                   evicted: Option<nat>): Ledger
  {
    var ticked := ledger.Tick(now);
    if !opens then ticked
    else if written then ticked.Opening(watch, hello)
    else ticked.Opening(watch, hello).Closing(watch, hello.id, now, evicted)
  }

  /** The hello's own tombstone makes way while the hello is still alive. */
  predicate Exposes(watch: Hello, now: int, evicted: Option<nat>) {
    evicted == Some(watch.id) && now < watch.Expiry()
  }

  ghost function Left(watch: Hello, replays: map<nat, Replay>): nat {
    if watch.id in replays && replays[watch.id].hello == watch then replays[watch.id].remaining else 0
  }

  /** The watched hello cannot open a session any more. */
  ghost predicate Spent(watch: Hello, live: set<nat>, tombstones: map<nat, int>, closed: bool, clock: int) {
    || closed || watch.id in live || clock >= watch.Expiry()
    || (watch.id in tombstones && tombstones[watch.id] >= watch.Expiry())
  }

  ghost predicate LedgerOk(watch: Hello, live: set<nat>, tombstones: map<nat, int>, replays: map<nat, Replay>,
                           closed: bool, ledger: Ledger)
  {
    && |tombstones| <= MAX_TOMBSTONES && live !! tombstones.Keys
    && ledger.acks + Left(watch, replays) <= (REPLAY_LIMIT + 1) * ledger.sessions
    && (ledger.exposed ==> watch.id !in live && watch.id !in tombstones)
    && (ledger.forward && ledger.sessions > 0 ==>
          && watch.Expiry() <= ledger.clock + HANDSHAKE_TIMEOUT
          && (!ledger.exposed ==> Spent(watch, live, tombstones, closed, ledger.clock)))
  }

  /** The exact condition: as long as the clock goes forward, a hello that has opened a session and is still
      alive is blocked if and only if its tombstone was not evicted, or the relay is closed. */
  lemma BlockedUnlessExposed(watch: Hello, live: set<nat>, tombstones: map<nat, int>, replays: map<nat, Replay>,
                             closed: bool, ledger: Ledger, now: int)
    requires LedgerOk(watch, live, tombstones, replays, closed, ledger)
    requires ledger.forward && ledger.sessions > 0 && ledger.clock <= now && watch.IsFresh(now)
    ensures closed || watch.id in live || (watch.id in tombstones && now < tombstones[watch.id])
            <==> closed || !ledger.exposed
  {
  }

  /** The least recently expiring entry. */
  method Oldest(table: map<nat, int>) returns (oldest: nat)
    requires table != map[]
    ensures oldest in table && forall id :: id in table ==> table[oldest] <= table[id]
  {
    var todo := table.Keys;
    oldest :| oldest in todo;
    while todo != {}
      invariant todo <= table.Keys && oldest in table
      invariant forall id :: id in table ==> id in todo || table[oldest] <= table[id]
      decreases todo
    {
      var id :| id in todo;
      todo := todo - {id};
      if table[id] < table[oldest] {
        oldest := id;
      }
    }
  }

  function Without(table: map<nat, int>, id: Option<nat>): map<nat, int> {
    if id.Some? then table - {id.value} else table
  }

  /** With no room left the entry that expires first makes way. */
  method MakeRoom(table: map<nat, int>) returns (evicted: Option<nat>)
    requires |table| <= MAX_TOMBSTONES
    ensures evicted.Some? <==> |table| == MAX_TOMBSTONES
    ensures evicted.Some? ==> evicted.value in table && forall i :: i in table ==> table[evicted.value] <= table[i]
    ensures |Without(table, evicted)| < MAX_TOMBSTONES
  {
    if |table| < MAX_TOMBSTONES {
      return None;
    }
    var oldest := Oldest(table);
    MapSizes(table, oldest, 0);
    return Some(oldest);
  }

  /** Which tombstone makes way for a new one: none while there is room, else the first to expire. */
  ghost predicate Evicts(tombstones: map<nat, int>, now: int, evicted: Option<nat>) {
    var kept := Unexpired(tombstones, now);
    && (evicted.Some? <==> |kept| == MAX_TOMBSTONES)
    && (evicted.Some? ==> evicted.value in kept && forall i :: i in kept ==> kept[evicted.value] <= kept[i])
  }

  /** The tombstones once the expired ones are gone and, if a session left, the one evicted is and the new one
      is there. */
  ghost function Entombed(tombstones: map<nat, int>, now: int, left: Option<nat>, evicted: Option<nat>): map<nat, int> {
    var kept := Unexpired(tombstones, now);
    if left.Some? then Without(kept, evicted)[left.value := now + HANDSHAKE_TIMEOUT] else kept
  }

  /** The id has a tombstone that has not expired. */
  predicate Blocks(tombstones: map<nat, int>, id: nat, now: int) {
    id in tombstones && now < tombstones[id]
  }

  lemma UnexpiredBlocks(tombstones: map<nat, int>, id: nat, now: int)
    ensures Blocks(Unexpired(tombstones, now), id, now) == Blocks(tombstones, id, now)
    ensures Blocks(tombstones, id, now) == (id in Unexpired(tombstones, now))
  {
  }

  lemma UnexpiredTwice(tombstones: map<nat, int>, now: int)
    ensures Unexpired(Unexpired(tombstones, now), now) == Unexpired(tombstones, now)
  {
  }

  /** Adds a tombstone. */
  method AddTombstone(tombstones: map<nat, int>, id: nat, expiresAt: int, now: int)
    returns (after: map<nat, int>, evicted: Option<nat>)
    requires |tombstones| <= MAX_TOMBSTONES
    ensures |after| <= MAX_TOMBSTONES
    ensures Evicts(tombstones, now, evicted) && after == Without(Unexpired(tombstones, now), evicted)[id := expiresAt]
  {
    var kept := DropExpired(tombstones, now);
    evicted := MakeRoom(kept);
    var roomy := Without(kept, evicted);
    MapSizes(roomy, id, expiresAt);
    after := roomy[id := expiresAt];
  }

  lemma PruningKeepsLedger(watch: Hello, live: set<nat>, tombstones: map<nat, int>, replays: map<nat, Replay>,
                           closed: bool, ledger: Ledger, now: int)
    requires LedgerOk(watch, live, tombstones, replays, closed, ledger)
    requires |Unexpired(tombstones, now)| <= |tombstones|
    ensures LedgerOk(watch, live, Unexpired(tombstones, now), replays, closed, ledger.Tick(now))
  {
  }

  /** A session closes: its id is blocked for longer than the hello that opened it can live. */
  lemma ClosingKeepsLedger(watch: Hello, live: set<nat>, tombstones: map<nat, int>, replays: map<nat, Replay>,
                           closed: bool, ledger: Ledger, id: nat, now: int, evicted: Option<nat>, after: map<nat, int>)
    requires LedgerOk(watch, live, tombstones, replays, closed, ledger) && id in live && |after| <= MAX_TOMBSTONES
    requires after == Without(Unexpired(tombstones, now), evicted)[id := now + HANDSHAKE_TIMEOUT]
    requires evicted.Some? ==> evicted.value in tombstones
    ensures LedgerOk(watch, live - {id}, after, replays - {id}, closed, ledger.Closing(watch, id, now, evicted))
  {
  }

  /** A fresh hello opens a session that nothing blocks: it cannot be a hello that already did, unless its
      tombstone was evicted. */
  lemma OpeningKeepsLedger(watch: Hello, live: set<nat>, tombstones: map<nat, int>, replays: map<nat, Replay>,
                           ledger: Ledger, hello: Hello, peer: Source, now: int)
    requires LedgerOk(watch, live, tombstones, replays, false, ledger)
    requires ledger.clock >= now && (ledger.forward ==> ledger.clock == now)
    requires hello.IsFresh(now) && hello.id !in live && hello.id !in tombstones
    ensures LedgerOk(watch, live + {hello.id}, tombstones, replays, false, ledger.Opening(watch, hello))
    ensures LedgerOk(watch, live + {hello.id}, tombstones,
                     replays[hello.id := Replay(hello, peer, hello.Expiry(), REPLAY_LIMIT)], false,
                     ledger.Opening(watch, hello))
  {
  }

  /** An acknowledgement is repeated, or the replay entry is dropped. */
  lemma ReplayingKeepsLedger(watch: Hello, live: set<nat>, tombstones: map<nat, int>, replays: map<nat, Replay>,
                             closed: bool, ledger: Ledger, hello: Hello)
    requires LedgerOk(watch, live, tombstones, replays, closed, ledger) && hello.id in replays
    ensures LedgerOk(watch, live, tombstones, replays - {hello.id}, closed, ledger)
    ensures var replay := replays[hello.id];
            replay.hello == hello && replay.remaining > 0 ==>
              LedgerOk(watch, live, tombstones, replays[hello.id := replay.(remaining := replay.remaining - 1)],
                       closed, ledger.(acks := ledger.acks + if hello == watch then 1 else 0))
  {
  }
}
