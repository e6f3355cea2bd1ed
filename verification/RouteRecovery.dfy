/** Startup recovery: what `Reconcile` must reach, that every state it passes through leads there,
    and write-ahead safety over whole histories of crashing processes. */
module RouteRecovery {
  import opened Common
  import opened RoutePlan
  import opened RouteJournal

  /** What recovery knows about its own adapter and about the others. */
  datatype Site = Site(luid: nat, index: nat, foreign: (nat, nat) -> ForeignQuery)

  function SiteOf(op: Operator): Site {
    Site(op.luid, op.index, op.foreign)
  }

  /** A well-formed entry of the current adapter or of an adapter that no longer exists. */
  predicate Removable(site: Site, e: Entry) {
    && SignatureOk(e)
    && (e.state.Active? || e.state.Deleting? || e.state.Pending?)
    && if e.luid == site.luid then e.index == site.index else site.foreign(e.luid, e.index) == Gone
  }

  /** The entries recovery has to leave in the journal, unchanged and in order. */
  function Retained(site: Site, entries: seq<Entry>): seq<Entry> {
    if entries == [] then []
    else (if Removable(site, entries[0]) then [] else [entries[0]]) + Retained(site, entries[1..])
  }

  /** Row `k` is the route of some entry that recovery has to remove. */
  ghost predicate Doomed(site: Site, entries: seq<Entry>, table: Table, k: RouteKey)
    requires k in table
  {
    exists e :: e in entries && Removable(site, e) && RouteOf(e).Key() == k && RouteOf(e).PresentIn(table)
  }

  /** The table recovery has to reach. */
  ghost function Cleared(site: Site, entries: seq<Entry>, table: Table): Table {
    map k | k in table && !Doomed(site, entries, table, k) :: table[k]
  }

  /** The machine state recovery leads to from a state: its journal entries and its table. */
  ghost function Settled(site: Site, s: Snapshot): (seq<Entry>, Table) {
    (Retained(site, EntriesOf(s.store)), Cleared(site, EntriesOf(s.store), s.table))
  }

  lemma {:induction false} RetainedConcat(site: Site, a: seq<Entry>, b: seq<Entry>)
    ensures Retained(site, a + b) == Retained(site, a) + Retained(site, b)
  {
    if a == [] {
      assert a + b == b;
    } else {
      assert (a + b)[1..] == a[1..] + b;
      RetainedConcat(site, a[1..], b);
    }
  }

  /** `Retained` is exactly the filter it is meant to be. */
  lemma {:induction false} RetainedIsFilter(site: Site, entries: seq<Entry>)
    ensures forall e :: e in Retained(site, entries) <==> e in entries && !Removable(site, e)
    ensures |Retained(site, entries)| <= |entries|
  {
    if entries != [] {
      RetainedIsFilter(site, entries[1..]);
    }
  }

  lemma RetainedSplice(site: Site, kept: seq<Entry>, middle: seq<Entry>, rest: seq<Entry>)
    ensures Retained(site, kept + middle + rest)
         == Retained(site, kept) + Retained(site, middle) + Retained(site, rest)
  {
    RetainedConcat(site, kept + middle, rest);
    RetainedConcat(site, kept, middle);
  }

  /** Changing the state of a removable entry to another valid state changes nothing recovery leads to. */
  lemma RestatingKeepsSettled(site: Site, kept: seq<Entry>, e: Entry, state: EntryState, rest: seq<Entry>, table: Table)
    requires Removable(site, e) && (state.Active? || state.Deleting?)
    ensures Retained(site, kept + [e.(state := state)] + rest) == Retained(site, kept + [e] + rest)
    ensures Cleared(site, kept + [e.(state := state)] + rest, table) == Cleared(site, kept + [e] + rest, table)
  {
    var e' := e.(state := state);
    RetainedSplice(site, kept, [e], rest);
    RetainedSplice(site, kept, [e'], rest);
    assert Retained(site, [e]) == [] && Retained(site, [e']) == [];
    var before, after := kept + [e] + rest, kept + [e'] + rest;
    assert e in before && e' in after;
    forall k | k in table
      ensures Doomed(site, before, table, k) <==> Doomed(site, after, table, k)
    {
      if x :| x in before && Removable(site, x) && RouteOf(x).Key() == k && RouteOf(x).PresentIn(table) {
        var y := if x == e then e' else x;
        assert y in after;
      }
      if x :| x in after && Removable(site, x) && RouteOf(x).Key() == k && RouteOf(x).PresentIn(table) {
        var y := if x == e' then e else x;
        assert y in before;
      }
    }
  }

  /** Forgetting a removable entry whose route is not in the table changes nothing recovery leads to. */
  lemma ForgettingKeepsSettled(site: Site, kept: seq<Entry>, e: Entry, rest: seq<Entry>, table: Table)
    requires Removable(site, e) && !RouteOf(e).PresentIn(table)
    ensures Retained(site, kept + rest) == Retained(site, kept + [e] + rest)
    ensures Cleared(site, kept + rest, table) == Cleared(site, kept + [e] + rest, table)
  {
    RetainedSplice(site, kept, [e], rest);
    RetainedConcat(site, kept, rest);
    var before, after := kept + [e] + rest, kept + rest;
    forall x | x in before && x != e
      ensures x in after
    {
      var i :| 0 <= i < |before| && before[i] == x;
      assert after[if i < |kept| then i else i - 1] == x;
    }
    assert forall x :: x in after ==> x in before;
    forall k | k in table
      ensures Doomed(site, before, table, k) <==> Doomed(site, after, table, k)
    {
      if x :| x in before && Removable(site, x) && RouteOf(x).Key() == k && RouteOf(x).PresentIn(table) {
        assert x in after;
      }
    }
  }

  /** Removing the route of a removable entry that the journal still lists changes nothing either. */
  lemma RemovingKeepsSettled(site: Site, entries: seq<Entry>, e: Entry, table: Table)
    requires e in entries && Removable(site, e) && RouteOf(e).PresentIn(table)
    ensures Cleared(site, entries, table - {RouteOf(e).Key()}) == Cleared(site, entries, table)
  {
    var key := RouteOf(e).Key();
    var after := table - {key};
    assert Doomed(site, entries, table, key);
    forall k | k in after
      ensures Doomed(site, entries, table, k) <==> Doomed(site, entries, after, k)
    {
    }
  }

  lemma NothingLeftToClear(site: Site, entries: seq<Entry>, table: Table)
    requires forall e :: e in entries ==> !Removable(site, e)
    ensures Cleared(site, entries, table) == table
  {
  }

  /** Recovery can read this state's journal and leads from here to `goal`. */
  ghost predicate Settles(site: Site, s: Snapshot, goal: (seq<Entry>, Table)) {
    Loadable(s.store) && Settled(site, s) == goal
  }

  /** An entry recovery accepts without complaint. */
  ghost predicate Understood(site: Site, e: Entry) {
    && SignatureOk(e) && !e.state.OtherState?
    && if e.luid == site.luid then e.index == site.index else site.foreign(e.luid, e.index) != QueryFailed
  }

  /** Half way through recovery: `view` is the journal as the loop sees it (entries kept so far, then
      those not yet visited). It accounts for every owned route; and on a quiet machine the view, the
      durable journal and every state reached since `from` all settle to `goal`. */
  ghost predicate On(op: Operator, view: seq<Entry>, goal: (seq<Entry>, Table), from: nat)
    reads op
  {
    && op.Valid() && op.transition.None?
    && AllAccounted(view, op.owned) && OnePerDestination(view)
    && from <= |op.trace|
    && (op.quiet ==>
          && (Retained(SiteOf(op), view), Cleared(SiteOf(op), view, op.table)) == goal
          && DistinctTransactions(view)
          && Settles(SiteOf(op), op.Now(), goal)
          && forall i :: from <= i < |op.trace| ==> Settles(SiteOf(op), op.trace[i], goal))
  }

  /** Saves the view with entry `e` moved to another state; the view moves with it either way. */
  method Stage(op: Operator, kept: seq<Entry>, e: Entry, state: EntryState, rest: seq<Entry>,
               ghost goal: (seq<Entry>, Table), ghost from: nat)
    returns (ok: bool)
    requires On(op, kept + [e] + rest, goal, from)
    requires Removable(SiteOf(op), e) && (state.Active? || state.Deleting?)
    modifies op`store, op`table, op`owned, op`trace
    ensures On(op, kept + [e.(state := state)] + rest, goal, from)
    ensures old(op.trace) <= op.trace && op.owned <= old(op.owned)
    ensures op.faultFree ==> ok
    ensures ok ==> op.store == Journal(JOURNAL_VERSION, kept + [e.(state := state)] + rest)
    ensures op.quiet ==> op.table == old(op.table)
  {
    var staged := kept + [e.(state := state)] + rest;
    assert staged == (kept + [e] + rest)[|kept| := e.(state := state)];
    StateChangeKeepsSafety(kept + [e] + rest, |kept|, state, op.owned);
    RestatingKeepsSettled(SiteOf(op), kept, e, state, rest, op.table);
    ok := op.Save(staged);
  }

  lemma StillDistinct(kept: seq<Entry>, e: Entry, rest: seq<Entry>)
    requires DistinctTransactions(kept + [e] + rest)
    ensures DistinctTransactions(kept + rest)
  {
    var before, after := kept + [e] + rest, kept + rest;
    assert forall i :: 0 <= i < |after| ==> after[i] == before[if i < |kept| then i else i + 1];
  }

  /** Dropping an entry from the view is sound once its route is known to be gone. */
  lemma Drop(op: Operator, kept: seq<Entry>, e: Entry, rest: seq<Entry>, goal: (seq<Entry>, Table), from: nat)
    requires On(op, kept + [e] + rest, goal, from)
    requires Removable(SiteOf(op), e) && RouteOf(e) !in op.owned
    requires op.quiet ==> !RouteOf(e).PresentIn(op.table)
    ensures On(op, kept + rest, goal, from)
  {
    var view := kept + [e] + rest;
    assert view[|kept|] == e && view[..|kept|] + view[|kept| + 1..] == kept + rest;
    DroppingKeepsSafety(view, |kept|, op.owned);
    if op.quiet {
      StillDistinct(kept, e, rest);
      ForgettingKeepsSettled(SiteOf(op), kept, e, rest, op.table);
    }
  }

  /** One removable entry of the recovery loop: reads, claims and deletes its route, and decides whether
      the entry stays in the journal. */
  method ReconcileEntry(op: Operator, kept: seq<Entry>, e: Entry, rest: seq<Entry>,
                        ghost goal: (seq<Entry>, Table), ghost from: nat)
    returns (kept': seq<Entry>, ok: bool)
    requires On(op, kept + [e] + rest, goal, from)
    requires Removable(SiteOf(op), e)
    modifies op`store, op`table, op`owned, op`trace
    ensures On(op, kept' + rest, goal, from)
    ensures old(op.trace) <= op.trace && op.owned <= old(op.owned)
    ensures op.faultFree && op.quiet ==> ok && kept' == kept
  {
    var route := RouteOf(e);
    var unread, present, matches := op.Read(route);
    if unread {
      return kept + [e], false;
    }
    if !matches {
      Drop(op, kept, e, rest, goal, from);
      return kept, true;
    }
    var current := e;
    if e.state == Pending {
      current := e.(state := Active);
      var claimed := Stage(op, kept, e, Active, rest, goal, from);
      if !claimed {
        return kept + [current], false;
      }
    }
    var doomed := current.(state := Deleting);
    var staged := Stage(op, kept, current, Deleting, rest, goal, from);
    if !staged {
      return kept + [doomed], false;
    }
    kept', ok := DeleteStaged(op, kept, doomed, rest, goal, from);
  }

  method DeleteStaged(op: Operator, kept: seq<Entry>, e: Entry, rest: seq<Entry>,
                      ghost goal: (seq<Entry>, Table), ghost from: nat)
    returns (kept': seq<Entry>, ok: bool)
    requires On(op, kept + [e] + rest, goal, from)
    requires Removable(SiteOf(op), e)
    requires op.store == Journal(JOURNAL_VERSION, kept + [e] + rest)
    requires op.quiet ==> RouteOf(e).PresentIn(op.table)
    modifies op`store, op`table, op`owned, op`trace
    ensures On(op, kept' + rest, goal, from)
    ensures old(op.trace) <= op.trace && op.owned <= old(op.owned)
    ensures op.faultFree && op.quiet ==> ok && kept' == kept
  {
    var route := RouteOf(e);
    assert (kept + [e] + rest)[|kept|] == e;
    if op.quiet {
      RemovingKeepsSettled(SiteOf(op), kept + [e] + rest, e, op.table);
    }
    var committed, failed := op.Delete(route);
    assert On(op, kept + [e] + rest, goal, from);
    if committed || !failed {
      Drop(op, kept, e, rest, goal, from);
      return kept, true;
    }
    var unverified, present, matches := op.Read(route);
    if unverified || matches {
      return kept + [e], false;
    }
    Drop(op, kept, e, rest, goal, from);
    return kept, false;
  }

  /** Whether the loop treats an entry as its own to remove; a failing adapter query keeps the entry. */
  method IsRemovable(op: Operator, e: Entry) returns (remove: bool, ok: bool)
    ensures remove ==> Removable(SiteOf(op), e)
    ensures op.faultFree ==> remove == Removable(SiteOf(op), e)
    ensures op.faultFree ==> (ok <==> Understood(SiteOf(op), e))
  {
    if !SignatureOk(e) || !(e.state.Active? || e.state.Deleting? || e.state.Pending?) {
      return false, false;
    }
    if e.luid == op.luid {
      return e.index == op.index, e.index == op.index;
    }
    var failed := op.MayFail();
    if failed || op.foreign(e.luid, e.index) == QueryFailed {
      return false, false;
    }
    return op.foreign(e.luid, e.index) == Gone, true;
  }

  // ----- what recovery comes to, in plain terms -----

  /** The signature of an entry this program writes, field by field. */
  ghost predicate Signed(e: Entry) {
    && e.destination.Parsed? && Tidy(e.destination.prefix)
    && e.nextHop == (if e.destination.prefix.addr.V4? then "0.0.0.0" else "::")
    && e.luid > 0 && e.index > 0 && e.metric == 1 && e.protocol == 3 && e.baselineAbsent
    && |e.txn| == 32
    && forall i :: 0 <= i < 32 ==> '0' <= e.txn[i] <= '9' || 'a' <= e.txn[i] <= 'f' || 'A' <= e.txn[i] <= 'F'
  }

  lemma SignedMeansSigned(e: Entry)
    ensures SignatureOk(e) <==> Signed(e)
  {
    if e.destination.Parsed? {
      CanonicalMeans(e.destination.prefix);
    }
  }

  /** The row an entry stands for is in the table. */
  ghost predicate HasRow(table: Table, e: Entry) {
    && e.destination.Parsed?
    && var k := RouteKey(e.luid, e.destination.prefix); k in table && table[k] == Row(e.index, 1, 3)
  }

  /** Some of these entries are left, unchanged and in order. */
  ghost predicate Picked(all: seq<Entry>, some: seq<Entry>) {
    exists at: seq<nat> ::
      && |at| == |some| && (forall i, j :: 0 <= i < j < |at| ==> at[i] < at[j])
      && forall i :: 0 <= i < |at| ==> at[i] < |all| && some[i] == all[at[i]]
  }

  /** What recovery does to a journal and a route table. Entries it does not understand, those of this adapter
      under another index, and those of other adapters that are still there, or of which that is not known, stay
      in the journal, and rows under no other entry's key stay in the table. Entries of this adapter and those of
      adapters that are gone leave the journal, and their routes the table. */
  ghost predicate Recovered(luid: nat, index: nat, foreign: (nat, nat) -> ForeignQuery, before: seq<Entry>,
                            table: Table, after: seq<Entry>, table': Table)
  {
    && Picked(before, after)
    && (forall e :: e in before && (!Signed(e) || e.state.OtherState?) ==> e in after)
    && (forall e :: e in before && e.luid != luid && foreign(e.luid, e.index) != Gone ==> e in after)
    && (forall e :: e in before && e.luid == luid && e.index != index ==> e in after)
    && (forall e :: e in before && Leaves(luid, index, foreign, e) ==> e !in after && !HasRow(table', e))
    && (forall k :: k in table' ==> k in table && table'[k] == table[k])
    && (forall k :: k in table && k !in table' ==>
          exists e :: e in before && e !in after && e.destination.Parsed? && k == RouteKey(e.luid, e.destination.prefix)
                      && table[k] == Row(e.index, 1, 3))
  }

  /** An entry that recovery has nothing to say against. */
  ghost predicate Plausible(luid: nat, index: nat, foreign: (nat, nat) -> ForeignQuery, e: Entry) {
    && Signed(e) && (e.state.Pending? || e.state.Active? || e.state.Deleting?)
    && (e.luid == luid ==> e.index == index)
    && (e.luid != luid ==> foreign(e.luid, e.index) == Exists || foreign(e.luid, e.index) == Gone)
  }

  /** An entry that recovery removes: one it understands, of this adapter or of one that is gone. */
  ghost predicate Leaves(luid: nat, index: nat, foreign: (nat, nat) -> ForeignQuery, e: Entry) {
    && Signed(e) && !e.state.OtherState?
    && if e.luid == luid then e.index == index else foreign(e.luid, e.index) == Gone
  }

  lemma LeavingMeans(site: Site, e: Entry, table: Table)
    ensures Removable(site, e) <==> Leaves(site.luid, site.index, site.foreign, e)
    ensures Understood(site, e) <==> Plausible(site.luid, site.index, site.foreign, e)
    ensures e.destination.Parsed? ==> (RouteOf(e).PresentIn(table) <==> HasRow(table, e))
  {
    SignedMeansSigned(e);
  }

  lemma {:induction false} RetainedIsPicked(site: Site, entries: seq<Entry>) returns (at: seq<nat>)
    ensures |at| == |Retained(site, entries)| && (forall i, j :: 0 <= i < j < |at| ==> at[i] < at[j])
    ensures forall i :: 0 <= i < |at| ==> at[i] < |entries| && Retained(site, entries)[i] == entries[at[i]]
  {
    at := [];
    if entries != [] {
      var rest := RetainedIsPicked(site, entries[1..]);
      var first := if Removable(site, entries[0]) then [] else [0];
      at := first + seq(|rest|, i requires 0 <= i < |rest| => rest[i] + 1);
    }
  }

  /** The entries to retain and the table to reach are just that. */
  lemma SettledIsRecovered(site: Site, entries: seq<Entry>, table: Table)
    ensures Recovered(site.luid, site.index, site.foreign, entries, table, Retained(site, entries),
                      Cleared(site, entries, table))
    ensures forall e :: e in entries ==> (Understood(site, e) <==> Plausible(site.luid, site.index, site.foreign, e))
  {
    var after, table' := Retained(site, entries), Cleared(site, entries, table);
    RetainedIsFilter(site, entries);
    var at := RetainedIsPicked(site, entries);
    assert Picked(entries, after);
    forall e | e in entries
      ensures Removable(site, e) <==> Leaves(site.luid, site.index, site.foreign, e)
      ensures Understood(site, e) <==> Plausible(site.luid, site.index, site.foreign, e)
      ensures e.destination.Parsed? ==> (RouteOf(e).PresentIn(table) <==> HasRow(table, e))
    {
      LeavingMeans(site, e, table);
    }
    forall e | e in entries && Removable(site, e) ensures !HasRow(table', e) {
      if HasRow(table', e) {
        assert Doomed(site, entries, table, RouteOf(e).Key());
      }
    }
  }

  /** Startup recovery. Whatever fails, and wherever it is killed, a quiet machine keeps the settled
      state it started with; with no failure it reaches that state. */
  method Reconcile(op: Operator) returns (ok: bool)
    requires op.Valid()
    modifies op`store, op`table, op`owned, op`trace
    ensures op.Valid() && old(op.trace) <= op.trace
    ensures op.quiet && Loadable(old(op.store)) ==>
              forall i :: |old(op.trace)| <= i < |op.trace| ==>
                Settles(SiteOf(op), op.trace[i], Settled(SiteOf(op), old(op.Now())))
    ensures op.quiet && op.faultFree && op.transition.None? && Loadable(old(op.store)) ==>
              && op.store == Journal(JOURNAL_VERSION, Retained(SiteOf(op), EntriesOf(old(op.store))))
              && op.table == Cleared(SiteOf(op), EntriesOf(old(op.store)), old(op.table))
              && (ok <==> forall e :: e in EntriesOf(old(op.store)) ==> Understood(SiteOf(op), e))
    ensures op.quiet && op.faultFree && op.transition.None? && Loadable(old(op.store)) ==>
              && Recovered(op.luid, op.index, op.foreign, EntriesOf(old(op.store)), old(op.table), EntriesOf(op.store),
                           op.table)
              && (ok <==> forall e :: e in EntriesOf(old(op.store)) ==> Plausible(op.luid, op.index, op.foreign, e))
  {
    SettledIsRecovered(SiteOf(op), EntriesOf(op.store), op.table);
    var unproven := op.MayFail();
    if unproven {
      return false;
    }
    var locked := op.Lock();
    if !locked {
      return false;
    }
    var loaded := op.Load();
    if loaded.Err? {
      return false;
    }
    ghost var goal := Settled(SiteOf(op), op.Now());
    var clean := ReconcileEntries(op, loaded.value, goal, |op.trace|);
    var stuck := op.Unlock();
    ok := clean && !stuck;
  }

  /** The recovery loop after its first `i` entries; with nothing failing, the entries kept are exactly
      those to retain and the loop has complained exactly about the entries it did not understand. */
  ghost predicate Visited(op: Operator, entries: seq<Entry>, i: nat, kept: seq<Entry>, ok: bool,
                          goal: (seq<Entry>, Table), from: nat)
    requires i <= |entries|
    reads op
  {
    && On(op, kept + entries[i..], goal, from)
    && (op.faultFree && op.quiet ==>
          && kept == Retained(SiteOf(op), entries[..i])
          && (ok <==> forall e :: e in entries[..i] ==> Understood(SiteOf(op), e)))
  }

  method Visit(op: Operator, entries: seq<Entry>, i: nat, kept: seq<Entry>, ok: bool,
               ghost goal: (seq<Entry>, Table), ghost from: nat)
    returns (kept': seq<Entry>, ok': bool)
    requires i < |entries| && Visited(op, entries, i, kept, ok, goal, from)
    modifies op`store, op`table, op`owned, op`trace
    ensures Visited(op, entries, i + 1, kept', ok', goal, from) && old(op.trace) <= op.trace
  {
    var e, rest := entries[i], entries[i + 1..];
    assert kept + entries[i..] == kept + [e] + rest;
    RetainedConcat(SiteOf(op), entries[..i], [e]);
    assert entries[..i + 1] == entries[..i] + [e];
    var remove, fine := IsRemovable(op, e);
    if !remove {
      return kept + [e], ok && fine;
    }
    kept', fine := ReconcileEntry(op, kept, e, rest, goal, from);
    ok' := ok && fine;
  }

  method ReconcileEntries(op: Operator, entries: seq<Entry>, ghost goal: (seq<Entry>, Table), ghost from: nat)
    returns (ok: bool)
    requires On(op, entries, goal, from)
    requires op.quiet ==> goal.0 == Retained(SiteOf(op), entries)
    modifies op`store, op`table, op`owned, op`trace
    ensures op.Valid() && old(op.trace) <= op.trace
    ensures op.quiet ==> forall i :: from <= i < |op.trace| ==> Settles(SiteOf(op), op.trace[i], goal)
    ensures op.quiet && op.faultFree ==>
              && op.store == Journal(JOURNAL_VERSION, goal.0) && op.table == goal.1
              && (ok <==> forall e :: e in entries ==> Understood(SiteOf(op), e))
  {
    var kept: seq<Entry> := [];
    ok := true;
    assert kept + entries[0..] == entries;
    for i := 0 to |entries|
      invariant Visited(op, entries, i, kept, ok, goal, from) && old(op.trace) <= op.trace
    {
      kept, ok := Visit(op, entries, i, kept, ok, goal, from);
    }
    assert kept + entries[|entries|..] == kept && entries[..|entries|] == entries;
    RetainedIsFilter(SiteOf(op), entries);
    var saved := Finish(op, kept, goal, from);
    ok := ok && saved;
  }

  /** The last save of recovery. */
  method Finish(op: Operator, kept: seq<Entry>, ghost goal: (seq<Entry>, Table), ghost from: nat) returns (ok: bool)
    requires On(op, kept, goal, from)
    modifies op`store, op`table, op`owned, op`trace
    ensures On(op, kept, goal, from) && old(op.trace) <= op.trace
    ensures op.faultFree ==> ok && op.store == Journal(JOURNAL_VERSION, kept)
    ensures op.quiet && (forall e :: e in kept ==> !Removable(SiteOf(op), e)) ==> op.table == goal.1
  {
    ok := op.Save(kept);
    if forall e :: e in kept ==> !Removable(SiteOf(op), e) {
      NothingLeftToClear(SiteOf(op), kept, op.table);
    }
  }

  /** One attempt that may fail anywhere and be killed anywhere. */
  method Attempt(s: Snapshot, site: Site, ghost goal: (seq<Entry>, Table)) returns (state: Snapshot)
    requires Safe(s) && Settles(site, s, goal)
    ensures Safe(state) && Settles(site, state, goal)
  {
    state := s;
    var faultFree: bool, honest: bool := *, *;
    var op := new Operator.Boot(state, site.luid, site.index, true, true, faultFree, honest, site.foreign);
    var ok := Reconcile(op);
    var killedAt: int := *;
    if 0 <= killedAt < |op.trace| {
      state := op.trace[killedAt];
    }
  }

  /** And one that nothing disturbs. */
  method Undisturbed(s: Snapshot, site: Site, ghost goal: (seq<Entry>, Table)) returns (last: Snapshot)
    requires Safe(s) && Settles(site, s, goal)
    ensures Safe(last) && last.store == Journal(JOURNAL_VERSION, goal.0) && last.table == goal.1
  {
    var op := new Operator.Boot(s, site.luid, site.index, true, true, true, true, site.foreign);
    var ok := Reconcile(op);
    last := op.Now();
  }

  /** Recovery converges. After any number of recovery attempts, each failing anywhere or killed at any
      point, one undisturbed recovery reaches exactly what it would have reached at once: the retained
      entries unchanged, and none of the removable routes. */
  method RecoverAfterCrashes(s: Snapshot, site: Site, attempts: nat) returns (last: Snapshot)
    requires Safe(s) && Loadable(s.store)
    ensures last.store == Journal(JOURNAL_VERSION, Retained(site, EntriesOf(s.store)))
    ensures last.table == Cleared(site, EntriesOf(s.store), s.table)
    ensures Safe(last)
    ensures Recovered(site.luid, site.index, site.foreign, EntriesOf(s.store), s.table, EntriesOf(last.store),
                      last.table)
  {
    SettledIsRecovered(site, EntriesOf(s.store), s.table);
    var state := s;
    for n := 0 to attempts
      invariant Safe(state) && Settles(site, state, Settled(site, s))
    {
      state := Attempt(state, site, Settled(site, s));
    }
    last := Undisturbed(state, site, Settled(site, s));
  }
}
