/** The write-ahead route journal and the machine state it protects.

    An Operator holds what the journal code can touch: the durable journal, the route table, the
    routes whose creation this protocol committed and that still exist unchanged, and the journal
    transition in progress. `trace` lists every machine state reached, one element per change of the
    durable journal or of the table, so an invariant of all its elements is an invariant at every
    point where the process can be killed. Every operating-system call may fail, an unsuccessful save
    may or may not have reached the disk, and outside programs may rewrite the table between calls. */
module RouteJournal {
  import opened Common
  import opened RoutePlan

  const JOURNAL_VERSION := 4
  const ROUTE_METRIC := 1
  const ROUTE_PROTOCOL := 3

  datatype EntryState = Pending | Active | Deleting | OtherState(text: string)

  datatype Destination = Parsed(prefix: Prefix) | Unparsable(text: string)

  datatype Entry = Entry(
    luid: nat, index: nat, destination: Destination, nextHop: string, metric: nat, protocol: nat,
    txn: string, baselineAbsent: bool, state: EntryState, createdAt: int)

  datatype Storage = Blank | Malformed | Journal(version: int, entries: seq<Entry>)

  datatype RouteKey = RouteKey(luid: nat, prefix: Prefix)

  datatype Row = Row(index: nat, metric: nat, protocol: nat)

  type Table = map<RouteKey, Row>

  datatype Route = Route(luid: nat, index: nat, prefix: Prefix) {
    function Key(): RouteKey {
      RouteKey(luid, prefix)
    }

    function Expected(): Row {
      Row(index, ROUTE_METRIC, ROUTE_PROTOCOL)
    }

    predicate PresentIn(table: Table) {
      Key() in table && table[Key()] == Expected()
    }

    /** The table without this route: a row of someone else under the same key stays. */
    function RemovedFrom(table: Table): Table {
      if PresentIn(table) then table - {Key()} else table
    }
  }

  /** One machine state: what survives a crash, plus the routes the protocol has to answer for. */
  datatype Snapshot = Snapshot(store: Storage, table: Table, owned: set<Route>)

  datatype Transition = Transition(prefix: Prefix, txn: string)

  datatype ForeignQuery = Exists | Gone | QueryFailed

  datatype RecordResult = Recorded | RecordFailed(rolledBack: bool)

  function NextHop(p: Prefix): string {
    if p.addr.V4? then "0.0.0.0" else "::"
  }

  predicate IsHexDigit(c: char) {
    '0' <= c <= '9' || 'a' <= c <= 'f' || 'A' <= c <= 'F'
  }

  /** The fixed signature every entry written by this program carries. */
  predicate SignatureOk(e: Entry) {
    && e.destination.Parsed? && e.destination.prefix.IsCanonical()
    && e.luid != 0 && e.index != 0
    && e.nextHop == NextHop(e.destination.prefix)
    && e.metric == ROUTE_METRIC && e.protocol == ROUTE_PROTOCOL
    && e.baselineAbsent
    && |e.txn| == 32 && forall i :: 0 <= i < 32 ==> IsHexDigit(e.txn[i])
  }

  function RouteOf(e: Entry): Route
    requires e.destination.Parsed?
  {
    Route(e.luid, e.index, e.destination.prefix)
  }

  predicate AccountsFor(e: Entry, r: Route) {
    SignatureOk(e) && RouteOf(e) == r
  }

  predicate Accounted(entries: seq<Entry>, r: Route) {
    exists e :: e in entries && AccountsFor(e, r)
  }

  predicate AllAccounted(entries: seq<Entry>, owned: set<Route>) {
    forall r :: r in owned ==> Accounted(entries, r)
  }

  predicate OnePerDestination(entries: seq<Entry>) {
    forall i, j :: 0 <= i < j < |entries| && entries[i].destination.Parsed? ==>
      entries[i].destination != entries[j].destination
  }

  function EntriesOf(store: Storage): seq<Entry> {
    if store.Journal? && store.version == JOURNAL_VERSION then store.entries else []
  }

  predicate DistinctTransactions(entries: seq<Entry>) {
    forall i, j :: 0 <= i < j < |entries| ==> entries[i].txn != entries[j].txn
  }

  ghost predicate Loadable(store: Storage) {
    || store.Blank?
    || (store.Journal? && store.version == JOURNAL_VERSION && DistinctTransactions(store.entries))
  }

  /** Write-ahead safety of one machine state. */
  predicate Safe(s: Snapshot) {
    && (forall r :: r in s.owned ==> r.PresentIn(s.table))
    && AllAccounted(EntriesOf(s.store), s.owned)
    && OnePerDestination(EntriesOf(s.store))
  }

  /** The only way to stop answering for a route is that the route is gone or changed. */
  predicate Keeps(before: Snapshot, after: Snapshot) {
    forall r :: r in before.owned && r.PresentIn(after.table) ==> r in after.owned
  }

  lemma StateChangeKeepsSafety(entries: seq<Entry>, i: nat, state: EntryState, owned: set<Route>)
    requires i < |entries|
    requires AllAccounted(entries, owned) && OnePerDestination(entries)
    ensures AllAccounted(entries[i := entries[i].(state := state)], owned)
    ensures OnePerDestination(entries[i := entries[i].(state := state)])
  {
    var changed := entries[i := entries[i].(state := state)];
    forall r | r in owned
      ensures Accounted(changed, r)
    {
      var e :| e in entries && AccountsFor(e, r);
      var k :| 0 <= k < |entries| && entries[k] == e;
      assert AccountsFor(changed[k], r) && changed[k] in changed;
    }
  }

  lemma AppendingKeepsSafety(entries: seq<Entry>, e: Entry, owned: set<Route>)
    requires AllAccounted(entries, owned) && OnePerDestination(entries)
    requires forall o :: o in entries ==> o.destination != e.destination
    ensures AllAccounted(entries + [e], owned) && OnePerDestination(entries + [e])
  {
    assert forall o :: o in entries ==> o in entries + [e];
  }

  /** Creating a row under a free key is safe once the journal accounts for it. */
  lemma AddingKeepsSafety(s: Snapshot, r: Route, claim: bool)
    requires Safe(s) && r.Key() !in s.table
    requires claim ==> Accounted(EntriesOf(s.store), r)
    ensures Safe(Snapshot(s.store, s.table[r.Key() := r.Expected()], s.owned + if claim then {r} else {}))
  {
    assert forall o :: o in s.owned ==> o.Key() != r.Key();
  }

  function NotUnder(owned: set<Route>, k: RouteKey): set<Route> {
    set o | o in owned && o.Key() != k
  }

  lemma RemovingKeepsSafety(s: Snapshot, k: RouteKey)
    requires Safe(s)
    ensures Safe(Snapshot(s.store, s.table - {k}, NotUnder(s.owned, k)))
  {
  }

  lemma DroppingKeepsSafety(entries: seq<Entry>, i: nat, owned: set<Route>)
    requires i < |entries|
    requires AllAccounted(entries, owned) && OnePerDestination(entries)
    requires SignatureOk(entries[i]) ==> RouteOf(entries[i]) !in owned
    ensures AllAccounted(entries[..i] + entries[i + 1..], owned)
    ensures OnePerDestination(entries[..i] + entries[i + 1..])
  {
    var kept := entries[..i] + entries[i + 1..];
    forall r | r in owned
      ensures Accounted(kept, r)
    {
      var e :| e in entries && AccountsFor(e, r);
      var k :| 0 <= k < |entries| && entries[k] == e;
      assert kept[if k < i then k else k - 1] == e;
    }
  }

  class Operator {
    const luid: nat
    const index: nat
    /** Whether this operator keeps a journal (the Windows operator does). */
    const journaled: bool
    /** Assumption switch: nobody else writes the route table or the journal. */
    const quiet: bool
    /** Assumption switch: no operating-system call fails. */
    const faultFree: bool
    /** Assumption switch: a delete that reports an error has removed nothing. */
    const honestDelete: bool
    const foreign: (nat, nat) -> ForeignQuery

    var store: Storage
    var table: Table
    var owned: set<Route>
    var transition: Option<Transition>
    var trace: seq<Snapshot>
    /** Some new transaction identifier was in the journal already. */
    var collided: bool

    function Now(): Snapshot
      reads this
    {
      Snapshot(store, table, owned)
    }

    predicate Names(e: Entry, t: Transition) {
      e.luid == luid && e.destination == Parsed(t.prefix) && e.txn == t.txn
    }

    ghost predicate Valid()
      reads this
    {
      && trace != [] && trace[|trace| - 1] == Now()
      && (forall i :: 0 <= i < |trace| ==> Safe(trace[i]))
      && (forall i :: 0 <= i < |trace| - 1 ==> Keeps(trace[i], trace[i + 1]))
      && (transition.Some? ==>
            forall e :: e in EntriesOf(store) && Names(e, transition.value) ==> e.index == index)
    }

    function Own(prefix: Prefix): Route {
      Route(luid, index, prefix.Masked())
    }

    /** A process starts on the machine state its predecessor left behind. */
    constructor Boot(s: Snapshot, luid: nat, index: nat, journaled: bool, quiet: bool, faultFree: bool,
                     honestDelete: bool, foreign: (nat, nat) -> ForeignQuery)
      requires Safe(s)
      ensures Valid() && Now() == s && transition == None && trace == [s] && !collided
      ensures this.luid == luid && this.index == index && this.journaled == journaled && this.quiet == quiet
      ensures this.faultFree == faultFree && this.honestDelete == honestDelete && this.foreign == foreign
    {
      this.luid, this.index, this.journaled := luid, index, journaled;
      this.quiet, this.faultFree, this.honestDelete, this.foreign := quiet, faultFree, honestDelete, foreign;
      store, table, owned := s.store, s.table, s.owned;
      transition, collided := None, false;
      trace := [s];
    }

    // ----- the operating system -----

    method MayFail() returns (failed: bool)
      ensures faultFree ==> !failed
    {
      failed := *;
      if faultFree {
        failed := false;
      }
    }

    /** The table moves on to a state that is safe and keeps answering for the routes still there. */
    method Advance(table': Table, owned': set<Route>)
      requires Valid()
      requires Safe(Snapshot(store, table', owned')) && Keeps(Now(), Snapshot(store, table', owned'))
      modifies `table, `owned, `trace
      ensures Valid() && table == table' && owned == owned' && trace == old(trace) + [Now()]
    {
      table, owned := table', owned';
      trace := trace + [Now()];
    }

    /** Outside programs rewrite the table; a route they changed is no longer ours. */
    method Interfere()
      requires Valid()
      modifies `table, `owned, `trace
      ensures Valid() && old(trace) <= trace
      ensures owned <= old(owned)
      ensures quiet ==> Now() == old(Now()) && trace == old(trace)
    {
      if !quiet {
        var table': Table := *;
        Advance(table', set r | r in owned && r.PresentIn(table'));
      }
    }

    /** Waiting for the machine lock: other processes running this protocol may leave any safe state. */
    method Lock() returns (ok: bool)
      requires Valid()
      modifies `store, `table, `owned, `trace
      ensures Valid() && old(trace) <= trace
      ensures ok ==> transition.None?
      ensures faultFree && transition.None? ==> ok
      ensures transition.Some? || quiet ==> Now() == old(Now()) && trace == old(trace)
    {
      if transition.Some? {
        return false;
      }
      var failed := MayFail();
      ok := !failed;
      if !quiet {
        var s: Snapshot := *;
        if Safe(s) && Keeps(Now(), s) {
          store, table, owned := s.store, s.table, s.owned;
          trace := trace + [Now()];
        }
      }
    }

    method Read(r: Route) returns (failed: bool, present: bool, matches: bool)
      requires Valid()
      modifies `table, `owned, `trace
      ensures Valid() && old(trace) <= trace && owned <= old(owned)
      ensures quiet ==> Now() == old(Now()) && trace == old(trace)
      ensures faultFree ==> !failed
      ensures !failed ==> present == (r.Key() in table) && matches == r.PresentIn(table)
      ensures failed ==> !matches
    {
      Interfere();
      failed := MayFail();
      present, matches := false, false;
      if !failed {
        present, matches := r.Key() in table, r.PresentIn(table);
      }
    }

    method Add(r: Route) returns (committed: bool, failed: bool)
      requires Valid()
      requires journaled ==> Accounted(EntriesOf(store), r)
      modifies `table, `owned, `trace
      ensures Valid() && old(trace) <= trace
      ensures owned <= old(owned) + if committed && journaled then {r} else {}
      ensures committed ==> r.PresentIn(table) && (journaled ==> r in owned)
      ensures quiet ==> table == if committed then old(table)[r.Key() := r.Expected()] else old(table)
      ensures quiet && committed ==> r.Key() !in old(table)
      ensures quiet && faultFree ==> committed == (r.Key() !in old(table)) && failed == !committed
    {
      Interfere();
      failed := MayFail();
      var cancelled := MayFail();
      if failed || r.Key() in table {
        return false, true;
      }
      AddingKeepsSafety(Now(), r, journaled);
      Advance(table[r.Key() := r.Expected()], owned + if journaled then {r} else {});
      committed, failed := true, cancelled;
    }

    method Delete(r: Route) returns (committed: bool, failed: bool)
      requires Valid()
      modifies `table, `owned, `trace
      ensures Valid() && old(trace) <= trace && owned <= old(owned)
      ensures committed || !failed ==> r !in owned
      ensures quiet ==> trace == old(trace) || trace == old(trace) + [Now()]
      ensures quiet ==> table == old(table) || (r.PresentIn(old(table)) && table == old(table) - {r.Key()})
      ensures quiet && (committed || !failed) ==> table == r.RemovedFrom(old(table)) && r.Key() !in table
      ensures quiet && honestDelete && !committed ==> table == old(table)
      ensures quiet && faultFree && r.PresentIn(old(table)) ==> committed && !failed
    {
      Interfere();
      failed := MayFail();
      if failed {
        return false, true;
      }
      if r.Key() !in table {
        return false, false;
      }
      if !r.PresentIn(table) {
        return false, true;
      }
      committed, failed := DeleteRow(r);
    }

    /** The platform delete call: it removes whatever row has the key, and may fail after removing it. */
    method DeleteRow(r: Route) returns (committed: bool, failed: bool)
      requires Valid()
      modifies `table, `owned, `trace
      ensures Valid() && old(trace) <= trace && owned <= old(owned)
      ensures committed || failed
      ensures committed ==> r !in owned
      ensures faultFree ==> committed && !failed
      ensures quiet ==> (trace == old(trace) && table == old(table))
                        || (trace == old(trace) + [Now()] && table == old(table) - {r.Key()})
      ensures quiet && committed ==> table == old(table) - {r.Key()}
      ensures quiet && honestDelete && !committed ==> table == old(table)
    {
      Interfere();
      var refused := MayFail();
      var removed := true;
      if refused {
        removed := *;
        if honestDelete {
          removed := false;
        }
      }
      if removed {
        RemovingKeepsSafety(Now(), r.Key());
        Advance(table - {r.Key()}, NotUnder(owned, r.Key()));
      }
      if refused {
        return false, true;
      }
      var cancelled := MayFail();
      return true, cancelled;
    }

    // ----- durable storage -----

    /** Reads and checks the journal: only a blank or well-formed journal of this version with distinct
        transaction identifiers is accepted. */
    method Load() returns (r: Result<seq<Entry>, string>)
      requires Valid()
      ensures r.Ok? ==> r.value == EntriesOf(store) && Loadable(store)
      ensures faultFree && Loadable(store) ==> r.Ok?
    {
      var failed := MayFail();
      if failed {
        return Err("read");
      }
      match store
      case Blank => return Ok([]);
      case Malformed => return Err("parse");
      case Journal(version, entries) =>
        if version != JOURNAL_VERSION {
          return Err("version");
        }
        var seen: set<string> := {};
        for i := 0 to |entries|
          invariant seen == set k | 0 <= k < i :: entries[k].txn
          invariant forall a, b :: 0 <= a < b < i ==> entries[a].txn != entries[b].txn
        {
          if entries[i].txn in seen {
            var k :| 0 <= k < i && entries[k].txn == entries[i].txn;
            return Err("duplicate transaction");
          }
          seen := seen + {entries[i].txn};
        }
        return Ok(entries);
    }

    /** Replaces the journal. An error does not tell whether the new value reached the disk. */
    method Save(entries: seq<Entry>) returns (ok: bool)
      requires Valid() && transition.None?
      requires AllAccounted(entries, owned) && OnePerDestination(entries)
      modifies `store, `table, `owned, `trace
      ensures Valid() && old(trace) <= trace && owned <= old(owned)
      ensures ok ==> store == Journal(JOURNAL_VERSION, entries)
      ensures !ok ==> store == old(store) || store == Journal(JOURNAL_VERSION, entries)
      ensures faultFree ==> ok
      ensures quiet ==> table == old(table) && (trace == old(trace) || trace == old(trace) + [Now()])
    {
      Interfere();
      var failed := MayFail();
      var written: bool := *;
      if !failed || written {
        Write(entries);
      }
      return !failed;
    }

    method Write(entries: seq<Entry>)
      requires Valid() && transition.None?
      requires AllAccounted(entries, owned) && OnePerDestination(entries)
      modifies `store, `trace
      ensures Valid() && store == Journal(JOURNAL_VERSION, entries) && trace == old(trace) + [Now()]
    {
      store := Journal(JOURNAL_VERSION, entries);
      trace := trace + [Now()];
    }

    // ----- journal operations -----

    /** The journal with the entry named by a transition moved to another state. */
    function Restated(entries: seq<Entry>, t: Transition, state: EntryState): seq<Entry> {
      seq(|entries|, i requires 0 <= i < |entries| =>
        if Names(entries[i], t) then entries[i].(state := state) else entries[i])
    }

    /** The journal without the entries named by a transition. */
    function Unnamed(entries: seq<Entry>, t: Transition): seq<Entry> {
      if entries == [] then []
      else
        var e := entries[|entries| - 1];
        Unnamed(entries[..|entries| - 1], t) + if Names(e, t) then [] else [e]
    }

    method TakeTransition(prefix: Prefix) returns (t: Option<Transition>)
      modifies `transition
      ensures t.Some? ==> old(transition) == t && t.value.prefix == prefix.Masked() && transition == None
      ensures t.None? ==> transition == old(transition)
      ensures t.Some? <==> old(transition).Some? && old(transition).value.prefix == prefix.Masked()
    {
      if transition.Some? && transition.value.prefix == prefix.Masked() {
        t := transition;
        transition := None;
      } else {
        t := None;
      }
    }

    /** The entry named by the transition, or |entries|. */
    method Find(entries: seq<Entry>, t: Transition) returns (i: nat)
      ensures i <= |entries|
      ensures i < |entries| ==> Names(entries[i], t)
      ensures forall k :: 0 <= k < i ==> !Names(entries[k], t)
    {
      i := 0;
      while i < |entries| && !Names(entries[i], t)
        invariant i <= |entries|
        invariant forall k :: 0 <= k < i ==> !Names(entries[k], t)
      {
        i := i + 1;
      }
    }

    /** Writes the intent to create a route, under the lock, when the route and its prefix are free. */
    method Prepare(prefix: Prefix) returns (ok: bool)
      requires Valid()
      modifies `store, `table, `owned, `trace, `transition, `collided
      ensures old(collided) ==> collided
      ensures Valid() && old(trace) <= trace
      ensures ok ==> transition.Some? && transition.value.prefix == prefix.Masked()
      ensures ok ==> Own(prefix) !in owned
      ensures ok && prefix.Masked().IsCanonical() && luid != 0 && index != 0 ==>
                Accounted(EntriesOf(store), Own(prefix))
      ensures !ok ==> transition == old(transition)
      ensures quiet ==> table == old(table)
      ensures quiet && ok ==> Own(prefix).Key() !in table
      ensures quiet && ok ==> Intent(old(EntriesOf(store)), EntriesOf(store), transition.value)
      ensures ok && !collided ==> Loadable(store)
      ensures quiet && faultFree && old(transition).None? && Loadable(old(store))
              && Own(prefix).Key() !in old(table) ==>
                (ok <==> Frees(old(EntriesOf(store)), prefix.Masked())) && (ok || store == old(store))
    {
      var unproven := MayFail();
      if unproven {
        return false;
      }
      var locked := Lock();
      if !locked || transition.Some? {
        return false;
      }
      var masked := prefix.Masked();
      MaskedIsIdempotent(prefix);
      var unread, present, matches := Read(Own(prefix));
      if unread || present {
        return false;
      }
      ok := Intend(masked);
    }

    /** One pending entry of the transition has been appended. */
    ghost predicate Intent(before: seq<Entry>, entries: seq<Entry>, t: Transition) {
      && |entries| == |before| + 1 && entries[..|before|] == before
      && var e := entries[|before|];
         Names(e, t) && e.index == index && e.state == Pending
         && (t.prefix.IsCanonical() && luid != 0 && index != 0 ==> SignatureOk(e))
    }

    /** The route is free: loads the journal and, if the prefix is free there too, writes the intent. */
    method Intend(masked: Prefix) returns (ok: bool)
      requires Valid() && transition.None?
      modifies `store, `table, `owned, `trace, `transition, `collided
      ensures old(collided) ==> collided
      ensures Valid() && old(trace) <= trace && owned <= old(owned)
      ensures ok ==> transition.Some? && transition.value.prefix == masked
                     && Intent(old(EntriesOf(store)), EntriesOf(store), transition.value)
      ensures ok && masked.IsCanonical() && luid != 0 && index != 0 ==>
                Accounted(EntriesOf(store), Route(luid, index, masked))
      ensures !ok ==> transition.None?
      ensures quiet ==> table == old(table)
      ensures ok && !collided ==> Loadable(store)
      ensures faultFree && Loadable(old(store)) ==>
                (ok <==> Frees(old(EntriesOf(store)), masked)) && (ok
                || store == old(store))
    {
      var loaded := Load();
      if loaded.Err? {
        return false;
      }
      var free := DestinationFree(loaded.value, masked);
      var txn := NewTransactionId();
      if !free || txn.None? {
        return false;
      }
      ok := WriteIntent(masked, loaded.value, txn.value);
    }

    method WriteIntent(masked: Prefix, entries: seq<Entry>, txn: string) returns (ok: bool)
      requires Valid() && transition.None?
      requires entries == EntriesOf(store)
      requires forall e :: e in entries ==> e.destination != Parsed(masked)
      requires |txn| == 32 && forall i :: 0 <= i < 32 ==> IsHexDigit(txn[i])
      modifies `store, `table, `owned, `trace, `transition, `collided
      ensures old(collided) ==> collided
      ensures Valid() && old(trace) <= trace && owned <= old(owned)
      ensures ok ==> transition == Some(Transition(masked, txn)) && Intent(entries, EntriesOf(store), transition.value)
      ensures ok && masked.IsCanonical() && luid != 0 && index != 0 ==>
                Accounted(EntriesOf(store), Route(luid, index, masked))
      ensures !ok ==> transition.None?
      ensures faultFree ==> ok
      ensures quiet ==> table == old(table)
      ensures ok && !collided ==> Loadable(store)
    {
      var createdAt: int := *;
      var entry := Entry(luid, index, Parsed(masked), NextHop(masked), ROUTE_METRIC, ROUTE_PROTOCOL,
                         txn, true, Pending, createdAt);
      AppendedIntent(entries, entry);
      collided := collided || !DistinctTransactions(entries + [entry]);
      ok := SaveIntent(entries, entry);
    }

    method SaveIntent(entries: seq<Entry>, entry: Entry) returns (ok: bool)
      requires Valid() && transition.None? && entries == EntriesOf(store)
      requires entry.luid == luid && entry.index == index && entry.destination.Parsed?
      requires forall e :: e in entries ==> e.destination != entry.destination
      requires forall e :: e in entries + [entry] && e.destination == entry.destination ==> e == entry
      modifies `store, `table, `owned, `trace, `transition
      ensures Valid() && old(trace) <= trace && owned <= old(owned)
      ensures ok ==> && transition == Some(Transition(entry.destination.prefix, entry.txn))
                     && store == Journal(JOURNAL_VERSION, entries + [entry])
      ensures !ok ==> transition.None?
      ensures faultFree ==> ok
      ensures quiet ==> table == old(table)
    {
      AppendingKeepsSafety(entries, entry, owned);
      ok := Save(entries + [entry]);
      if ok {
        transition := Some(Transition(entry.destination.prefix, entry.txn));
      }
    }

    /** The journal with a new entry at its end. */
    lemma AppendedIntent(entries: seq<Entry>, e: Entry)
      requires e.luid == luid && e.index == index && e.state == Pending && e.destination.Parsed?
      requires forall o :: o in entries ==> o.destination != e.destination
      requires e.destination.prefix.IsCanonical() && luid != 0 && index != 0 ==> SignatureOk(e)
      ensures Intent(entries, entries + [e], Transition(e.destination.prefix, e.txn))
      ensures SignatureOk(e) ==> Accounted(entries + [e], Route(luid, index, e.destination.prefix))
      ensures forall o :: o in entries + [e] && o.destination == e.destination ==> o == e
    {
      assert (entries + [e])[|entries|] == e && e in entries + [e];
      assert SignatureOk(e) ==> AccountsFor(e, Route(luid, index, e.destination.prefix));
    }

    /** Every destination is canonical and none is the given one. */
    ghost predicate Frees(entries: seq<Entry>, masked: Prefix) {
      forall e :: e in entries ==>
        e.destination.Parsed? && e.destination.prefix.IsCanonical() && e.destination != Parsed(masked)
    }

    method DestinationFree(entries: seq<Entry>, masked: Prefix) returns (free: bool)
      ensures free <==> Frees(entries, masked)
    {
      for i := 0 to |entries|
        invariant forall e :: e in entries[..i] ==>
                    e.destination.Parsed? && e.destination.prefix.IsCanonical() && e.destination != Parsed(masked)
      {
        if !entries[i].destination.Parsed? || !entries[i].destination.prefix.IsCanonical()
           || entries[i].destination.prefix == masked {
          return false;
        }
      }
      return true;
    }

    method NewTransactionId() returns (id: Option<string>)
      ensures id.Some? ==> |id.value| == 32 && forall i :: 0 <= i < 32 ==> IsHexDigit(id.value[i])
      ensures faultFree ==> id.Some?
    {
      var failed := MayFail();
      if failed {
        return None;
      }
      var s: string := *;
      if |s| == 32 && forall i :: 0 <= i < 32 ==> IsHexDigit(s[i]) {
        return Some(s);
      }
      return Some(seq(32, _ => '0'));
    }

    /** The journal holds the pending intent of a transition. */
    ghost predicate Intended(entries: seq<Entry>, t: Transition) {
      exists e :: e in entries && Names(e, t) && SignatureOk(e) && e.index == index && e.state == Pending
    }

    /** Letting go of the machine lock may fail too, and turns what was done into an error. */
    method Unlock() returns (failed: bool)
      ensures faultFree ==> !failed
    {
      failed := MayFail();
    }

    /** Marks a created route active; when that cannot be saved, removes the route again. */
    method Record(prefix: Prefix) returns (r: RecordResult)
      requires Valid()
      modifies `store, `table, `owned, `trace, `transition
      ensures Valid() && old(trace) <= trace && owned <= old(owned)
      ensures old(transition).None? ==> transition.None?
      ensures r == RecordFailed(true) ==> Own(prefix) !in owned
      ensures quiet ==> table == old(table) || table == Own(prefix).RemovedFrom(old(table))
      ensures quiet && r == RecordFailed(true) ==> table == Own(prefix).RemovedFrom(old(table))
      ensures quiet && r == Recorded ==> table == old(table)
      ensures r == Recorded ==> old(transition).Some? && old(transition).value.prefix == prefix.Masked()
                                && EntriesOf(store) == Restated(old(EntriesOf(store)), old(transition).value, Active)
      ensures (faultFree && Loadable(old(store)) && old(transition).Some?
              && old(transition).value.prefix == prefix.Masked()
               && Intended(old(EntriesOf(store)), old(transition).value)) ==>
                         r == Recorded && transition.None?
                         && Loadable(store)
      ensures (old(transition).Some? ==>
                 forall e :: e in old(EntriesOf(store)) && Names(e, old(transition).value) ==> e.state != Pending) ==>
                r == RecordFailed(false) && store == old(store) && table == old(table)
    {
      var t := TakeTransition(prefix);
      if t.None? {
        return RecordFailed(false);
      }
      var loaded := Load();
      if loaded.Err? {
        return RecordFailed(false);
      }
      var entries := loaded.value;
      var i := Find(entries, t.value);
      if i == |entries| || !SignatureOk(entries[i]) || entries[i].index != index || entries[i].state != Pending {
        return RecordFailed(false);
      }
      StateChangeKeepsSafety(entries, i, Active, owned);
      var changed := entries[i := entries[i].(state := Active)];
      assert changed == Restated(entries, t.value, Active);
      var saved := Save(changed);
      if saved {
        var stuck := Unlock();
        return if stuck then RecordFailed(false) else Recorded;
      }
      var rolledBack := RollbackFailedRecord(prefix, t.value);
      return RecordFailed(rolledBack);
    }

    method RollbackFailedRecord(prefix: Prefix, t: Transition) returns (rolledBack: bool)
      requires Valid() && transition.None? && t.prefix == prefix.Masked()
      modifies `store, `table, `owned, `trace
      ensures Valid() && old(trace) <= trace && owned <= old(owned)
      ensures rolledBack ==> Own(prefix) !in owned
      ensures quiet ==> table == old(table) || table == Own(prefix).RemovedFrom(old(table))
      ensures quiet && rolledBack ==> table == Own(prefix).RemovedFrom(old(table))
    {
      var loaded := Load();
      if loaded.Err? {
        return false;
      }
      var entries := loaded.value;
      var i := Find(entries, t);
      if i == |entries| || !SignatureOk(entries[i]) || entries[i].index != index
         || (entries[i].state != Pending && entries[i].state != Active) {
        return false;
      }
      rolledBack := RemoveRecorded(prefix);
      if rolledBack {
        DroppingKeepsSafety(entries, i, owned);
        var saved := Save(entries[..i] + entries[i + 1..]);
      }
    }

    /** Deletes the route if it is still ours; true once it is known to be gone. */
    method RemoveRecorded(prefix: Prefix) returns (gone: bool)
      requires Valid()
      modifies `table, `owned, `trace
      ensures Valid() && old(trace) <= trace && owned <= old(owned)
      ensures gone ==> Own(prefix) !in owned
      ensures quiet ==> table == old(table) || table == Own(prefix).RemovedFrom(old(table))
      ensures quiet && gone ==> table == Own(prefix).RemovedFrom(old(table))
    {
      var unread, present, matches := Read(Own(prefix));
      if unread || !matches {
        return !unread;
      }
      var committed, failed := Delete(Own(prefix));
      if committed || !failed {
        return true;
      }
      var unverified, present', matches' := Read(Own(prefix));
      return !unverified && !matches';
    }

    method FindDestination(entries: seq<Entry>, masked: Prefix) returns (i: nat)
      ensures i <= |entries|
      ensures i < |entries| ==> entries[i].luid == luid && entries[i].destination == Parsed(masked)
      ensures forall k :: 0 <= k < i ==> !(entries[k].luid == luid && entries[k].destination == Parsed(masked))
    {
      i := 0;
      while i < |entries| && !(entries[i].luid == luid && entries[i].destination == Parsed(masked))
        invariant i <= |entries|
        invariant forall k :: 0 <= k < i ==> !(entries[k].luid == luid && entries[k].destination == Parsed(masked))
      {
        i := i + 1;
      }
    }

    /** The journal holds a well-formed entry of this adapter's route that may be deleted. */
    ghost predicate Deletable(entries: seq<Entry>, masked: Prefix) {
      exists e :: e in entries && e.luid == luid && e.destination == Parsed(masked) && SignatureOk(e)
                  && e.index == index
                  && (e.state == Active || e.state == Deleting)
    }

    /** Writes the intent to delete a route this adapter owns. */
    method PrepareDeletion(prefix: Prefix) returns (ok: bool)
      requires Valid()
      modifies `store, `table, `owned, `trace, `transition
      ensures Valid() && old(trace) <= trace
      ensures ok ==> transition.Some? && transition.value.prefix == prefix.Masked()
      ensures !ok ==> transition == old(transition)
      ensures quiet ==> table == old(table)
      ensures quiet && ok ==> EntriesOf(store) == Restated(old(EntriesOf(store)), transition.value, Deleting)
      ensures (quiet && faultFree && old(transition).None? && Loadable(old(store))
               && Deletable(old(EntriesOf(store)), prefix.Masked())) ==> ok && Loadable(store)
      ensures ok ==> exists e :: e in EntriesOf(store) && Names(e, transition.value)
    {
      var unproven := MayFail();
      if unproven {
        return false;
      }
      var locked := Lock();
      if !locked || transition.Some? {
        return false;
      }
      var cancelled := MayFail();
      if cancelled {
        return false;
      }
      var masked := prefix.Masked();
      var loaded := Load();
      if loaded.Err? {
        return false;
      }
      var entries := loaded.value;
      var i := FindDestination(entries, masked);
      if i == |entries| || !SignatureOk(entries[i]) || entries[i].index != index
         || (entries[i].state != Active && entries[i].state != Deleting) {
        return false;
      }
      ok := MarkDeleting(entries, i);
    }

    method MarkDeleting(entries: seq<Entry>, i: nat) returns (ok: bool)
      requires Valid() && transition.None?
      requires entries == EntriesOf(store) && i < |entries|
      requires entries[i].destination.Parsed? && entries[i].index == index && entries[i].luid == luid
      modifies `store, `table, `owned, `trace, `transition
      ensures Valid() && old(trace) <= trace && owned <= old(owned)
      ensures ok ==> transition == Some(Transition(entries[i].destination.prefix, entries[i].txn))
                     && EntriesOf(store) == Restated(entries, transition.value, Deleting)
      ensures ok ==> exists e :: e in EntriesOf(store) && Names(e, transition.value)
      ensures ok && DistinctTransactions(entries) ==> Loadable(store)
      ensures !ok ==> transition.None?
      ensures faultFree ==> ok
      ensures quiet ==> table == old(table)
    {
      StateChangeKeepsSafety(entries, i, Deleting, owned);
      var changed := entries[i := entries[i].(state := Deleting)];
      ok := Save(changed);
      if ok {
        assert forall k :: 0 <= k < |changed| && changed[k].destination == entries[i].destination ==> k == i;
        transition := Some(Transition(entries[i].destination.prefix, entries[i].txn));
        assert changed == Restated(entries, transition.value, Deleting);
        assert changed[i] in changed;
      }
    }

    /** Forgets the entry of the transition in progress; the route must be known not to be ours. */
    method Release(prefix: Prefix) returns (ok: bool)
      requires Valid()
      requires transition.Some? && transition.value.prefix == prefix.Masked() ==> Own(prefix) !in owned
      modifies `store, `table, `owned, `trace, `transition
      ensures Valid() && old(trace) <= trace && owned <= old(owned)
      ensures old(transition).None? ==> transition.None?
      ensures quiet ==> table == old(table)
      ensures ok ==> old(transition).Some? && old(transition).value.prefix == prefix.Masked()
                     && EntriesOf(store) == Unnamed(old(EntriesOf(store)), old(transition).value)
      ensures (faultFree && Loadable(old(store)) && old(transition).Some?
               && old(transition).value.prefix == prefix.Masked()) ==> ok && transition.None? && Loadable(store)
    {
      var t := TakeTransition(prefix);
      if t.None? {
        return false;
      }
      var loaded := Load();
      if loaded.Err? {
        return false;
      }
      var kept := WithoutNamed(loaded.value, t.value);
      UnnamedIsFilter(loaded.value, t.value);
      assert AllAccounted(kept, owned);
      UnnamedStaysDistinct(loaded.value, t.value);
      ok := Save(kept);
      var stuck := Unlock();
      ok := ok && !stuck;
    }

    method WithoutNamed(entries: seq<Entry>, t: Transition) returns (kept: seq<Entry>)
      ensures kept == Unnamed(entries, t)
    {
      kept := [];
      for i := 0 to |entries|
        invariant kept == Unnamed(entries[..i], t)
      {
        assert entries[..i + 1][..i] == entries[..i];
        if !Names(entries[i], t) {
          kept := kept + [entries[i]];
        }
      }
      assert entries[..|entries|] == entries;
    }

    lemma {:induction false} UnnamedStaysDistinct(entries: seq<Entry>, t: Transition)
      requires DistinctTransactions(entries)
      ensures DistinctTransactions(Unnamed(entries, t))
      ensures forall e :: e in Unnamed(entries, t) ==> e in entries
    {
      if entries != [] {
        var front, last := entries[..|entries| - 1], entries[|entries| - 1];
        UnnamedStaysDistinct(front, t);
        forall x | x in Unnamed(front, t)
          ensures x.txn != last.txn
        {
          var i :| 0 <= i < |front| && front[i] == x;
          assert entries[i] == x;
        }
      }
    }

    lemma {:induction false} UnnamedIsFilter(entries: seq<Entry>, t: Transition)
      requires OnePerDestination(entries)
      ensures forall e :: e in Unnamed(entries, t) <==> e in entries && !Names(e, t)
      ensures OnePerDestination(Unnamed(entries, t))
    {
      if entries != [] {
        var front, last := entries[..|entries| - 1], entries[|entries| - 1];
        UnnamedIsFilter(front, t);
        assert entries == front + [last];
        forall x | x in Unnamed(front, t) && x.destination.Parsed?
          ensures x.destination != last.destination
        {
          var i :| 0 <= i < |front| && front[i] == x;
          assert entries[i] == x;
        }
      }
    }
  }
}
