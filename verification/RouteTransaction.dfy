/** The route transaction: install all planned routes or none, and remove owned routes in reverse order. */
module RouteTransactions {
  import opened Common
  import opened RoutePlan
  import opened RouteJournal
  import opened RouteRecovery

  /** The prefixes of `ps` that are in `kept`, in their original order. */
  function Restrict(ps: seq<Prefix>, kept: set<Prefix>): seq<Prefix> {
    if ps == [] then [] else (if ps[0] in kept then [ps[0]] else []) + Restrict(ps[1..], kept)
  }

  function Elements(ps: seq<Prefix>): set<Prefix> {
    set p | p in ps
  }

  function Reverse(ps: seq<Prefix>): seq<Prefix> {
    seq(|ps|, i requires 0 <= i < |ps| => ps[|ps| - 1 - i])
  }

  ghost function Keys(op: Operator, ps: seq<Prefix>): set<RouteKey> {
    set p | p in ps :: op.Own(p).Key()
  }

  /** What the planner returns: masked prefixes, none a default route, each once. */
  ghost predicate Planned(ps: seq<Prefix>) {
    Distinct(ps) && forall p :: p in ps ==> p.IsCanonical()
  }

  /** The routes a successful installation creates: those whose key was free when their turn came. */
  function Missing(op: Operator, plan: seq<Prefix>, table: Table): seq<Prefix> {
    if plan == [] then []
    else
      var r := op.Own(plan[0]);
      if r.Key() in table then Missing(op, plan[1..], table)
      else [plan[0]] + Missing(op, plan[1..], table[r.Key() := r.Expected()])
  }

  /** The table after creating the given routes. */
  function WithRoutes(op: Operator, ps: seq<Prefix>, table: Table): Table {
    if ps == [] then table
    else WithRoutes(op, ps[1..], table[op.Own(ps[0]).Key() := op.Own(ps[0]).Expected()])
  }

  /** `table` differs from `base` only by rows of the installed routes, none of which `base` has. */
  ghost predicate Extends(op: Operator, base: Table, table: Table, installed: seq<Prefix>) {
    && (forall k :: k in base ==> k in table && table[k] == base[k])
    && (forall k :: k in table && k !in base ==> k in Keys(op, installed))
    && (forall p :: p in installed ==>
          op.Own(p).Key() !in base && (op.Own(p).Key() in table ==> op.Own(p).PresentIn(table)))
  }

  /** ... and every installed route has its row. */
  ghost predicate Exact(op: Operator, base: Table, table: Table, installed: seq<Prefix>) {
    Extends(op, base, table, installed) && forall p :: p in installed ==> op.Own(p).PresentIn(table)
  }

  lemma ExtendsWithRow(op: Operator, base: Table, table: Table, installed: seq<Prefix>, p: Prefix)
    requires Exact(op, base, table, installed) && op.Own(p).Key() !in table
    ensures Exact(op, base, table[op.Own(p).Key() := op.Own(p).Expected()], installed + [p])
  {
    var r := op.Own(p);
    assert p in installed + [p];
    assert forall q :: q in installed ==> q in installed + [p] && op.Own(q).Key() != r.Key();
  }

  lemma ExtendsWithoutRow(op: Operator, base: Table, table: Table, front: seq<Prefix>, last: Prefix)
    requires Exact(op, base, table, front + [last]) && Planned(front + [last])
    ensures Extends(op, base, table - {op.Own(last).Key()}, front)
    ensures Extends(op, base, table - {op.Own(last).Key()}, front + [last])
    ensures op.Own(last).PresentIn(table)
  {
    KeysOfPlan(op, front, last);
    assert last in front + [last];
    assert forall p :: p in front ==> p in front + [last] && op.Own(p).Key() in Keys(op, front);
    assert Keys(op, front + [last]) == Keys(op, front) + {op.Own(last).Key()};
  }

  /** Different planned prefixes have different rows. */
  lemma KeysOfPlan(op: Operator, front: seq<Prefix>, last: Prefix)
    requires Planned(front + [last])
    ensures op.Own(last).Key() !in Keys(op, front)
  {
    var all := front + [last];
    forall p | p in front
      ensures op.Own(p).Key() != op.Own(last).Key()
    {
      var i :| 0 <= i < |front| && front[i] == p;
      assert all[i] == p && all[|front|] == last && p in all && last in all;
    }
  }

  lemma PlannedAppend(ps: seq<Prefix>, p: Prefix)
    requires Planned(ps) && p.IsCanonical() && p !in ps
    ensures Planned(ps + [p])
  {
  }

  lemma RestrictFresh(ps: seq<Prefix>, kept: set<Prefix>, p: Prefix)
    requires p !in ps
    ensures Restrict(ps, kept + {p}) == Restrict(ps, kept)
  {
    if ps != [] {
      RestrictFresh(ps[1..], kept, p);
    }
  }

  /** The loop that swaps a slice end for end. */
  method ReverseSlice(ps: seq<Prefix>) returns (r: seq<Prefix>)
    ensures r == Reverse(ps)
  {
    r := ps;
    var left, right := 0, |r| - 1;
    while left < right
      invariant 0 <= left <= right + 1 && left + right == |ps| - 1 && |r| == |ps|
      invariant forall k :: 0 <= k < |ps| && (k < left || k > right) ==> r[k] == ps[|ps| - 1 - k]
      invariant forall k :: left <= k <= right ==> r[k] == ps[k]
    {
      r := r[left := r[right]][right := r[left]];
      left, right := left + 1, right - 1;
    }
  }

  // ----- the journal of a transaction -----

  /** The journal's entry of an installed route. */
  ghost predicate Claimed(op: Operator, e: Entry, p: Prefix) {
    && e.luid == op.luid && e.index == op.index && e.destination == Parsed(p)
    && SignatureOk(e) && e.state == Active
  }

  /** `entries` is `front` and the entry of one installed route. */
  ghost predicate EndsWith(op: Operator, entries: seq<Entry>, front: seq<Entry>, p: Prefix) {
    |entries| == |front| + 1 && entries[..|front|] == front && Claimed(op, entries[|front|], p)
  }

  /** `entries` is what was there before and one entry for each installed route, in order. */
  ghost predicate Claims(op: Operator, before: seq<Entry>, entries: seq<Entry>, installed: seq<Prefix>) {
    && |entries| == |before| + |installed| && entries[..|before|] == before
    && forall i :: 0 <= i < |installed| ==> Claimed(op, entries[|before| + i], installed[i])
  }

  /** A journaled operator between calls on a machine where nothing interferes or fails. */
  ghost predicate Ready(op: Operator)
    reads op
  {
    op.journaled && op.quiet && op.faultFree && op.transition.None? && Loadable(op.store)
  }

  lemma ClaimsLast(op: Operator, before: seq<Entry>, entries: seq<Entry>, installed: seq<Prefix>, p: Prefix)
    requires Claims(op, before, entries, installed + [p])
    ensures |entries| > 0 && Claims(op, before, entries[..|entries| - 1], installed)
    ensures EndsWith(op, entries, entries[..|entries| - 1], p)
  {
    var all := installed + [p];
    assert all[|installed|] == p && forall i :: 0 <= i < |installed| ==> all[i] == installed[i];
  }

  lemma ClaimsMore(op: Operator, before: seq<Entry>, front: seq<Entry>, entries: seq<Entry>, installed: seq<Prefix>,
                   p: Prefix)
    requires Claims(op, before, front, installed) && EndsWith(op, entries, front, p)
    ensures Claims(op, before, entries, installed + [p])
  {
    assert entries[..|before|] == entries[..|front|][..|before|];
    forall i | 0 <= i < |installed + [p]|
      ensures Claimed(op, entries[|before| + i], (installed + [p])[i])
    {
      assert i < |installed| ==> entries[|before| + i] == front[|before| + i];
    }
  }

  /** No entry before the last has its name. */
  lemma OnlyLastNamed(op: Operator, entries: seq<Entry>, t: Transition)
    requires entries != [] && OnePerDestination(entries) && op.Names(entries[|entries| - 1], t)
    ensures forall i :: 0 <= i < |entries| - 1 ==> !op.Names(entries[i], t)
  {
  }

  /** Restating the last entry touches no other, and dropping it leaves the others. */
  lemma LastNamed(op: Operator, entries: seq<Entry>, t: Transition, state: EntryState)
    requires entries != [] && OnePerDestination(entries) && op.Names(entries[|entries| - 1], t)
    ensures var last := entries[|entries| - 1];
            && op.Restated(entries, t, state) == entries[..|entries| - 1] + [last.(state := state)]
            && op.Unnamed(entries, t) == entries[..|entries| - 1]
  {
    OnlyLastNamed(op, entries, t);
    UnnamedNone(op, entries[..|entries| - 1], t);
  }

  lemma {:induction false} UnnamedNone(op: Operator, entries: seq<Entry>, t: Transition)
    requires forall e :: e in entries ==> !op.Names(e, t)
    ensures op.Unnamed(entries, t) == entries
  {
    if entries != [] {
      UnnamedNone(op, entries[..|entries| - 1], t);
      assert entries == entries[..|entries| - 1] + [entries[|entries| - 1]];
    }
  }

  /** A destination free before is free as long as it is not installed. */
  lemma FreesClaims(op: Operator, before: seq<Entry>, entries: seq<Entry>, installed: seq<Prefix>, p: Prefix)
    requires Claims(op, before, entries, installed) && p !in installed
    ensures op.Frees(entries, p) <==> op.Frees(before, p)
  {
    assert forall e :: e in before ==> e in entries[..|before|] && e in entries;
    forall e | e in entries
      ensures e in before || (exists i :: 0 <= i < |installed| && Claimed(op, e, installed[i]))
    {
      var k :| 0 <= k < |entries| && entries[k] == e;
      if k < |before| {
        assert entries[..|before|][k] == e;
      } else {
        assert Claimed(op, entries[|before| + (k - |before|)], installed[k - |before|]);
      }
    }
  }

  /** Removes one route, or reports that it has to be kept for a later attempt. */
  method RollbackOne(op: Operator, prefix: Prefix, ghost front: seq<Entry>) returns (keep: bool, failed: bool)
    requires op.Valid()
    modifies op`store, op`table, op`owned, op`trace, op`transition
    ensures op.Valid() && old(op.trace) <= op.trace
    ensures keep ==> failed
    ensures op.quiet ==> op.table == old(op.table) || op.table == op.Own(prefix).RemovedFrom(old(op.table))
    ensures op.quiet && !keep ==> !op.Own(prefix).PresentIn(op.table)
    ensures op.quiet && keep && op.honestDelete ==> op.table == old(op.table)
    ensures op.quiet && op.faultFree && !op.journaled ==> !keep && !failed
    ensures old(Ready(op)) && EndsWith(op, old(EntriesOf(op.store)), front, prefix) ==>
              !keep && !failed && Ready(op) && EntriesOf(op.store) == front
    ensures !op.journaled ==> op.transition == old(op.transition)
  {
    if op.journaled {
      var prepared := Claim(op, prefix, front);
      if !prepared {
        return true, true;
      }
    }
    keep, failed := RemoveClaimed(op, prefix, front);
  }

  /** The journal notes the route as being deleted. */
  ghost predicate Marked(op: Operator, entries: seq<Entry>, front: seq<Entry>, prefix: Prefix, t: Transition) {
    && |entries| == |front| + 1 && entries[..|front|] == front && op.Names(entries[|front|], t)
    && t.prefix == prefix.Masked()
  }

  ghost predicate NonePending(op: Operator)
    reads op`store, op`transition
  {
    op.transition.Some? ==>
      forall e :: e in EntriesOf(op.store) && op.Names(e, op.transition.value) ==> e.state != Pending
  }

  method Claim(op: Operator, prefix: Prefix, ghost front: seq<Entry>) returns (ok: bool)
    requires op.Valid() && op.journaled
    modifies op`store, op`table, op`owned, op`trace, op`transition
    ensures op.Valid() && old(op.trace) <= op.trace
    ensures op.quiet ==> op.table == old(op.table) && (ok ==> NonePending(op))
    ensures old(Ready(op)) && EndsWith(op, old(EntriesOf(op.store)), front, prefix) ==>
              ok && Loadable(op.store) && op.transition.Some?
              && Marked(op, EntriesOf(op.store), front, prefix, op.transition.value)
  {
    ghost var before := EntriesOf(op.store);
    ghost var ready := Ready(op) && EndsWith(op, before, front, prefix);
    assert ready ==> before[|front|] in before;
    ok := op.PrepareDeletion(prefix);
    if ready {
      var e :| e in EntriesOf(op.store) && op.Names(e, op.transition.value);
      ClaimNamed(op, before, EntriesOf(op.store), front, prefix, op.transition.value, e);
    }
  }

  /** The entry named is the last one. */
  lemma ClaimNamed(op: Operator, before: seq<Entry>, entries: seq<Entry>, front: seq<Entry>, prefix: Prefix,
                   t: Transition, e: Entry)
    requires EndsWith(op, before, front, prefix) && OnePerDestination(entries)
    requires entries == op.Restated(before, t, Deleting) && t.prefix == prefix.Masked()
    requires e in entries && op.Names(e, t)
    ensures Marked(op, entries, front, prefix, t)
  {
    var k :| 0 <= k < |entries| && entries[k] == e;
    assert entries[|front|].destination == Parsed(prefix) == Parsed(prefix.Masked());
    assert k == |front|;
    forall i | 0 <= i < |front|
      ensures entries[i] == front[i]
    {
      assert entries[i].destination != e.destination && entries[i].destination == before[i].destination;
      assert before[..|front|][i] == front[i];
    }
  }

  method RemoveClaimed(op: Operator, prefix: Prefix, ghost front: seq<Entry>) returns (keep: bool, failed: bool)
    requires op.Valid() && (op.journaled && op.quiet ==> NonePending(op))
    modifies op`store, op`table, op`owned, op`trace, op`transition
    ensures op.Valid() && old(op.trace) <= op.trace
    ensures keep ==> failed
    ensures op.quiet ==> op.table == old(op.table) || op.table == op.Own(prefix).RemovedFrom(old(op.table))
    ensures op.quiet && !keep ==> !op.Own(prefix).PresentIn(op.table)
    ensures op.quiet && keep && op.honestDelete ==> op.table == old(op.table)
    ensures op.quiet && op.faultFree && !op.journaled ==> !keep && !failed
    ensures (op.journaled && op.quiet && op.faultFree && Loadable(old(op.store)) && old(op.transition).Some?
             && Marked(op, old(EntriesOf(op.store)), front, prefix, old(op.transition).value)) ==>
              !keep && !failed && Ready(op) && EntriesOf(op.store) == front
    ensures !op.journaled ==> op.transition == old(op.transition)
  {
    var route := op.Own(prefix);
    var unread, present, matches := op.Read(route);
    if unread {
      if op.journaled {
        var recorded := op.Record(prefix);
      }
      return true, true;
    }
    if !matches {
      failed := ReleaseOwned(op, prefix, front);
      return false, failed;
    }
    var committed, deleteFailed := op.Delete(route);
    if committed || !deleteFailed {
      failed := ReleaseOwned(op, prefix, front);
      return false, failed;
    }
    var unverified, present', matches' := op.Read(route);
    if unverified {
      return true, true;
    }
    if matches' {
      if op.journaled {
        var recorded := op.Record(prefix);
      }
      return true, true;
    }
    var releaseFailed := ReleaseOwned(op, prefix, front);
    return false, true;
  }

  method ReleaseOwned(op: Operator, prefix: Prefix, ghost front: seq<Entry>) returns (failed: bool)
    requires op.Valid() && op.Own(prefix) !in op.owned
    modifies op`store, op`table, op`owned, op`trace, op`transition
    ensures op.Valid() && old(op.trace) <= op.trace && op.owned <= old(op.owned)
    ensures op.quiet ==> op.table == old(op.table)
    ensures !op.journaled ==> op.transition == old(op.transition) && !failed
    ensures (op.journaled && op.quiet && op.faultFree && Loadable(old(op.store)) && old(op.transition).Some?
             && Marked(op, old(EntriesOf(op.store)), front, prefix, old(op.transition).value)) ==>
              !failed && Ready(op) && EntriesOf(op.store) == front
  {
    failed := false;
    if op.journaled {
      ghost var entries := EntriesOf(op.store);
      if op.transition.Some? && Marked(op, entries, front, prefix, op.transition.value) {
        LastNamed(op, entries, op.transition.value, Active);
      }
      var released := op.Release(prefix);
      failed := !released;
    }
  }

  class RouteTransaction {
    var op: Operator?
    var installed: seq<Prefix>

    ghost predicate Valid()
      reads this, op
    {
      op != null ==> op.Valid() && Planned(installed)
    }

    constructor (op: Operator)
      requires op.Valid()
      ensures Valid() && this.op == op && installed == []
    {
      this.op, installed := op, [];
    }

    /** Removes the installed routes in reverse order. What cannot be removed stays installed, in the
        original order, for a later attempt; when nothing is left the operator is given up. */
    method Rollback(ghost before: seq<Entry>) returns (ok: bool)
      requires Valid()
      modifies this, op
      ensures Valid()
      ensures old(op) != null ==> old(op).Valid() && old(op.trace) <= old(op).trace
      ensures op == old(op) || op == null
      ensures old(op) != null ==> old(op).collided == old(op.collided)
      ensures old(op) == null ==> ok && op == null && installed == old(installed)
      ensures old(op) != null ==> installed == Restrict(old(installed), Elements(installed))
      ensures old(op) != null && ok ==> op == null && installed == []
      ensures old(op) != null && old(op).quiet ==>
                Trimmed(old(op.table), old(op).table, Keys(old(op), old(installed)))
      ensures old(op) != null && old(op).quiet ==>
                forall p :: p in old(installed) && p !in installed ==> !old(op).Own(p).PresentIn(old(op).table)
      ensures old(op) != null && old(op).quiet && old(op).honestDelete
              && (forall p :: p in old(installed) ==> old(op).Own(p).PresentIn(old(op.table))) ==>
                forall p :: p in installed <==> p in old(installed) && old(op).Own(p).PresentIn(old(op).table)
      ensures old(op) != null && old(op).quiet && old(op).faultFree && !old(op).journaled
              && old(op.transition).None? ==>
                ok
      ensures old(op) != null && old(op != null && Ready(op) && Claims(op, before, EntriesOf(op.store), installed)) ==>
                ok && Ready(old(op)) && EntriesOf(old(op).store) == before
    {
      if op == null {
        return true;
      }
      var op0 := op;
      var left, clean := RollbackAll(op0, installed, before);
      installed := left;
      ok := clean;
      if installed == [] {
        var closeFailed := op0.MayFail();
        if closeFailed || op0.transition.Some? {
          ok := false;
        } else {
          op := null;
        }
      }
    }
  }

  /** Rows may have disappeared, but only under the given keys. */
  ghost predicate Trimmed(before: Table, after: Table, keys: set<RouteKey>) {
    && (forall k :: k in after ==> k in before && after[k] == before[k])
    && (forall k :: k in before && k !in keys ==> k in after)
  }

  /** The backward loop after the routes of `tail`: `remaining` lists, last first, those kept. */
  ghost predicate Unwound(op: Operator, before: Table, table: Table, tail: seq<Prefix>, remaining: seq<Prefix>) {
    && Reverse(remaining) == Restrict(tail, Elements(remaining))
    && (forall p :: p in remaining ==> p in tail)
    && (op.quiet ==> TailGone(op, before, table, tail, Elements(remaining)))
  }

  ghost predicate TailGone(op: Operator, before: Table, table: Table, tail: seq<Prefix>, kept: set<Prefix>) {
    && Trimmed(before, table, Keys(op, tail))
    && (forall p :: p in tail && p !in kept ==> !op.Own(p).PresentIn(table))
    && (op.honestDelete ==>
          forall p :: p in kept && op.Own(p).PresentIn(before) ==> op.Own(p).PresentIn(table))
  }

  lemma UnwindOne(op: Operator, before: Table, table: Table, table': Table, p: Prefix, tail: seq<Prefix>,
                  remaining: seq<Prefix>, keep: bool)
    requires Planned([p] + tail) && Unwound(op, before, table, tail, remaining)
    requires op.quiet ==> table' == table || table' == op.Own(p).RemovedFrom(table)
    requires op.quiet && !keep ==> !op.Own(p).PresentIn(table')
    requires op.quiet && keep && op.honestDelete ==> table' == table
    ensures Unwound(op, before, table', [p] + tail, remaining + if keep then [p] else [])
  {
    var all := [p] + tail;
    var remaining' := remaining + if keep then [p] else [];
    assert all[0] == p && all[1..] == tail;
    assert forall j :: 0 <= j < |tail| ==> all[j + 1] == tail[j];
    assert p !in tail;
    if op.quiet {
      TailGoneOne(op, before, table, table', p, tail, Elements(remaining), keep);
    }
    if keep {
      RestrictFresh(tail, Elements(remaining), p);
      assert Elements(remaining') == Elements(remaining) + {p};
      assert Reverse(remaining') == [p] + Reverse(remaining);
    } else {
      assert remaining' == remaining;
    }
  }

  lemma TailGoneOne(op: Operator, before: Table, table: Table, table': Table, p: Prefix, tail: seq<Prefix>,
                    kept: set<Prefix>, keep: bool)
    requires Planned([p] + tail) && p !in tail
    requires TailGone(op, before, table, tail, kept) && forall q :: q in kept ==> q in tail
    requires table' == table || table' == op.Own(p).RemovedFrom(table)
    requires !keep ==> !op.Own(p).PresentIn(table')
    requires keep && op.honestDelete ==> table' == table
    ensures TailGone(op, before, table', [p] + tail, kept + if keep then {p} else {})
  {
    var all := [p] + tail;
    assert all[0] == p && p in all;
    assert forall q :: q in tail ==> q in all;
    OtherKeys(op, p, tail);
    TrimmedOne(before, table, table', Keys(op, tail), op.Own(p).Key());
    assert Keys(op, all) == Keys(op, tail) + {op.Own(p).Key()};
  }

  lemma OtherKeys(op: Operator, p: Prefix, tail: seq<Prefix>)
    requires Planned([p] + tail) && p !in tail
    ensures forall q :: q in tail ==> op.Own(q).Key() != op.Own(p).Key()
  {
    var all := [p] + tail;
    assert all[0] == p && p in all;
    assert forall q :: q in tail ==> q in all;
  }

  lemma TrimmedOne(before: Table, table: Table, table': Table, keys: set<RouteKey>, key: RouteKey)
    requires Trimmed(before, table, keys) && (table' == table || table' == table - {key})
    ensures Trimmed(before, table', keys + {key})
  {
  }

  lemma {:induction false} RestrictSelf(ps: seq<Prefix>, kept: set<Prefix>)
    ensures forall p :: p in Restrict(ps, kept) <==> p in ps && p in kept
    ensures Distinct(ps) ==> Distinct(Restrict(ps, kept))
  {
    if ps != [] {
      RestrictSelf(ps[1..], kept);
      assert ps == [ps[0]] + ps[1..];
    }
  }

  /** One step of the backward loop. */
  method Unwind(op: Operator, installed: seq<Prefix>, idx: nat, remaining: seq<Prefix>, ghost base: Table,
                ghost before: seq<Entry>, ghost ready: bool)
    returns (remaining': seq<Prefix>, failed: bool)
    requires op.Valid() && Planned(installed) && idx < |installed|
    requires Unwound(op, base, op.table, installed[idx + 1..], remaining)
    requires ready ==> Ready(op) && Claims(op, before, EntriesOf(op.store), installed[..idx] + [installed[idx]])
    modifies op`store, op`table, op`owned, op`trace, op`transition
    ensures op.Valid() && old(op.trace) <= op.trace
    ensures Unwound(op, base, op.table, installed[idx..], remaining')
    ensures !failed ==> remaining' == remaining
    ensures op.quiet && op.faultFree && !op.journaled ==> !failed
    ensures ready ==> !failed && Ready(op) && Claims(op, before, EntriesOf(op.store), installed[..idx])
    ensures !op.journaled ==> op.transition == old(op.transition)
  {
    ghost var table, front := op.table, [];
    if ready {
      ClaimsLast(op, before, EntriesOf(op.store), installed[..idx], installed[idx]);
      front := EntriesOf(op.store)[..|EntriesOf(op.store)| - 1];
    }
    var keep;
    keep, failed := RollbackOne(op, installed[idx], front);
    assert installed[idx..] == [installed[idx]] + installed[idx + 1..];
    UnwindOne(op, base, table, op.table, installed[idx], installed[idx + 1..], remaining, keep);
    remaining' := if keep then remaining + [installed[idx]] else remaining;
    assert remaining + [] == remaining;
  }

  /** The backward loop over the installed routes. */
  method RollbackAll(op: Operator, installed: seq<Prefix>, ghost before: seq<Entry>)
    returns (left: seq<Prefix>, clean: bool)
    requires op.Valid() && Planned(installed)
    modifies op`store, op`table, op`owned, op`trace, op`transition
    ensures op.Valid() && old(op.trace) <= op.trace
    ensures Planned(left) && left == Restrict(installed, Elements(left))
    ensures clean ==> left == []
    ensures op.quiet ==> Trimmed(old(op.table), op.table, Keys(op, installed))
    ensures op.quiet ==> forall p :: p in installed && p !in left ==> !op.Own(p).PresentIn(op.table)
    ensures op.quiet && op.honestDelete
            && (forall p :: p in installed ==> op.Own(p).PresentIn(old(op.table))) ==>
              forall p :: p in left <==> p in installed && op.Own(p).PresentIn(op.table)
    ensures op.quiet && op.faultFree && !op.journaled ==> clean
    ensures old(Ready(op) && Claims(op, before, EntriesOf(op.store), installed)) ==>
              clean && Ready(op) && EntriesOf(op.store) == before
    ensures !op.journaled ==> op.transition == old(op.transition)
  {
    ghost var ready := Ready(op) && Claims(op, before, EntriesOf(op.store), installed);
    assert installed[..|installed|] == installed;
    var remaining: seq<Prefix> := [];
    clean := true;
    var idx := |installed|;
    while idx > 0
      invariant 0 <= idx <= |installed|
      invariant op.Valid() && old(op.trace) <= op.trace
      invariant Unwound(op, old(op.table), op.table, installed[idx..], remaining)
      invariant clean ==> remaining == []
      invariant op.quiet && op.faultFree && !op.journaled ==> clean
      invariant ready ==> clean && Ready(op) && Claims(op, before, EntriesOf(op.store), installed[..idx])
      invariant !op.journaled ==> op.transition == old(op.transition)
    {
      idx := idx - 1;
      assert installed[..idx + 1] == installed[..idx] + [installed[idx]];
      var failed;
      remaining, failed := Unwind(op, installed, idx, remaining, old(op.table), before, ready);
      clean := clean && !failed;
    }
    left := ReverseSlice(remaining);
    assert installed[0..] == installed;
    RestrictSelf(installed, Elements(remaining));
    assert Elements(left) == Elements(remaining);
  }

  /** Installs one planned route. On a quiet machine the table and the list of installed routes move
      together: whatever happened, every row the table has beyond `base` belongs to an installed route. */
  method InstallOne(txn: RouteTransaction, op: Operator, prefix: Prefix, ghost base: Table) returns (ok: bool)
    requires txn.Valid() && txn.op == op && Planned(txn.installed + [prefix])
    requires op.journaled ==> op.luid != 0 && op.index != 0
    requires op.quiet ==> Exact(op, base, op.table, txn.installed)
    modifies txn`installed, op`store, op`table, op`owned, op`trace, op`transition, op`collided
    ensures op.Valid() && old(op.trace) <= op.trace && (old(op.collided) ==> op.collided)
    ensures txn.installed == old(txn.installed) || txn.installed == old(txn.installed) + [prefix]
    ensures op.quiet ==> Extends(op, base, op.table, txn.installed)
    ensures op.quiet && ok ==>
              && Exact(op, base, op.table, txn.installed) && op.Own(prefix).PresentIn(op.table)
              && if op.Own(prefix).Key() in old(op.table)
                 then op.table == old(op.table) && txn.installed == old(txn.installed)
                 else op.table == old(op.table)[op.Own(prefix).Key() := op.Own(prefix).Expected()]
                      && txn.installed == old(txn.installed) + [prefix]
    ensures op.quiet && op.faultFree && !op.journaled ==>
              (ok <==> (op.Own(prefix).Key() in old(op.table) ==> op.Own(prefix).PresentIn(old(op.table))))
    ensures old(Ready(op)) && !op.collided ==>
              && Ready(op) && (ok <==> Installable(op, prefix, old(op.table), old(EntriesOf(op.store))))
              && if txn.installed == old(txn.installed) then EntriesOf(op.store) == old(EntriesOf(op.store))
                 else EndsWith(op, EntriesOf(op.store), old(EntriesOf(op.store)), prefix)
    ensures !op.journaled ==> op.transition == old(op.transition)
  {
    var route := op.Own(prefix);
    ghost var before := EntriesOf(op.store);
    assert prefix in txn.installed + [prefix];
    var cancelled := op.MayFail();
    if cancelled {
      return false;
    }
    var unread, present, matches := op.Read(route);
    if unread || (present && !matches) {
      return false;
    }
    if present {
      return true;
    }
    if op.journaled {
      var prepared := op.Prepare(prefix);
      if !prepared {
        return false;
      }
    }
    ok := CreateOne(txn, op, prefix, base, before);
  }

  /** The route is there already, or its key is free and so is its destination in the journal. */
  ghost predicate Installable(op: Operator, prefix: Prefix, table: Table, entries: seq<Entry>) {
    if op.Own(prefix).Key() in table then op.Own(prefix).PresentIn(table) else op.Frees(entries, prefix)
  }

  /** The intent to create the route has just been written, on a machine where nothing interferes or fails. */
  ghost predicate AboutTo(op: Operator, prefix: Prefix, before: seq<Entry>)
    reads op
  {
    && op.journaled && op.quiet && op.faultFree && Loadable(op.store) && op.transition.Some?
    && op.transition.value.prefix == prefix && prefix.IsCanonical() && op.luid != 0 && op.index != 0
    && op.Intent(before, EntriesOf(op.store), op.transition.value)
  }

  lemma AboutToClaim(op: Operator, prefix: Prefix, before: seq<Entry>)
    requires op.Valid() && AboutTo(op, prefix, before)
    ensures op.Intended(EntriesOf(op.store), op.transition.value)
    ensures EndsWith(op, op.Restated(EntriesOf(op.store), op.transition.value, Active), before, prefix)
  {
    var entries := EntriesOf(op.store);
    assert Safe(op.trace[|op.trace| - 1]) && entries[|before|] in entries;
    assert entries[..|entries| - 1] == before;
    LastNamed(op, entries, op.transition.value, Active);
  }

  /** Creates the route once its intent is in the journal, and records or releases the intent. */
  method CreateOne(txn: RouteTransaction, op: Operator, prefix: Prefix, ghost base: Table, ghost before: seq<Entry>)
    returns (ok: bool)
    requires op.Valid() && Planned(txn.installed + [prefix])
    requires op.journaled ==> op.Own(prefix) !in op.owned && Accounted(EntriesOf(op.store), op.Own(prefix))
    requires op.quiet ==> Exact(op, base, op.table, txn.installed) && op.Own(prefix).Key() !in op.table
    modifies txn`installed, op`store, op`table, op`owned, op`trace, op`transition
    ensures op.Valid() && old(op.trace) <= op.trace
    ensures txn.installed == old(txn.installed) || txn.installed == old(txn.installed) + [prefix]
    ensures op.quiet ==> Extends(op, base, op.table, txn.installed)
    ensures op.quiet && ok ==>
              && Exact(op, base, op.table, txn.installed)
              && op.table == old(op.table)[op.Own(prefix).Key() := op.Own(prefix).Expected()]
              && txn.installed == old(txn.installed) + [prefix]
    ensures op.quiet && op.faultFree && !op.journaled ==> ok
    ensures old(AboutTo(op, prefix, before)) ==>
              ok && Ready(op) && EndsWith(op, EntriesOf(op.store), before, prefix)
    ensures !op.journaled ==> op.transition == old(op.transition)
  {
    var route := op.Own(prefix);
    if AboutTo(op, prefix, before) {
      AboutToClaim(op, prefix, before);
    }
    if op.quiet {
      ExtendsWithRow(op, base, op.table, txn.installed, prefix);
      ExtendsWithoutRow(op, base, op.table[route.Key() := route.Expected()], txn.installed, prefix);
      assert (txn.installed + [prefix])[..|txn.installed|] == txn.installed;
    }
    var committed, failed := op.Add(route);
    if committed {
      txn.installed := txn.installed + [prefix];
      if op.journaled {
        var recorded := op.Record(prefix);
        if recorded.RecordFailed? {
          if recorded.rolledBack {
            txn.installed := txn.installed[..|txn.installed| - 1];
          }
          return false;
        }
      }
    }
    var unread, present, matches := op.Read(route);
    if !committed && op.journaled {
      var released := op.Release(prefix);
      if !released {
        return false;
      }
    }
    return !unread && !failed && matches;
  }

  /** Once every installed route is gone, the table is the one installation started from. */
  lemma NothingLeft(op: Operator, base: Table, before: Table, after: Table, installed: seq<Prefix>)
    requires Extends(op, base, before, installed) && Trimmed(before, after, Keys(op, installed))
    requires forall p :: p in installed ==> !op.Own(p).PresentIn(after)
    ensures after == base
  {
    assert forall k :: k in after ==> k in base;
    assert forall k :: k in base ==> k !in Keys(op, installed);
  }

  /** How far installation has come: the first `i` planned routes are in place, and creating the rest
      of the missing ones ends where creating all missing ones from `base` ends. */
  ghost predicate Progress(op: Operator, plan: seq<Prefix>, i: nat, base: Table, table: Table, installed: seq<Prefix>)
    requires i <= |plan|
  {
    && Exact(op, base, table, installed)
    && (forall p :: p in plan[..i] ==> op.Own(p).PresentIn(table))
    && installed + Missing(op, plan[i..], table) == Missing(op, plan, base)
    && table == WithRoutes(op, installed, base)
  }

  lemma ProgressOne(op: Operator, plan: seq<Prefix>, i: nat, base: Table,
                    table: Table, installed: seq<Prefix>, table': Table, installed': seq<Prefix>)
    requires i < |plan| && Progress(op, plan, i, base, table, installed)
    requires Exact(op, base, table', installed') && op.Own(plan[i]).PresentIn(table')
    requires if op.Own(plan[i]).Key() in table
             then table' == table && installed' == installed
             else table' == table[op.Own(plan[i]).Key() := op.Own(plan[i]).Expected()]
                  && installed' == installed + [plan[i]]
    ensures Progress(op, plan, i + 1, base, table', installed')
  {
    MissingOne(op, plan, i, table);
    PresentOne(op, plan, i, table, table');
    if op.Own(plan[i]).Key() !in table {
      WithRoutesAppend(op, installed, plan[i], base);
      assert installed + Missing(op, plan[i..], table) == installed' + Missing(op, plan[i + 1..], table');
    }
  }

  lemma PresentOne(op: Operator, plan: seq<Prefix>, i: nat, table: Table, table': Table)
    requires i < |plan| && (forall p :: p in plan[..i] ==> op.Own(p).PresentIn(table))
    requires op.Own(plan[i]).PresentIn(table')
    requires table' == table || (op.Own(plan[i]).Key() !in table
             && table' == table[op.Own(plan[i]).Key() := op.Own(plan[i]).Expected()])
    ensures forall p :: p in plan[..i + 1] ==> op.Own(p).PresentIn(table')
  {
    assert plan[..i + 1] == plan[..i] + [plan[i]];
  }

  lemma MissingOne(op: Operator, plan: seq<Prefix>, i: nat, table: Table)
    requires i < |plan|
    ensures var r := op.Own(plan[i]);
            Missing(op, plan[i..], table)
            == if r.Key() in table then Missing(op, plan[i + 1..], table)
               else [plan[i]] + Missing(op, plan[i + 1..], table[r.Key() := r.Expected()])
  {
    assert plan[i..][0] == plan[i] && plan[i..][1..] == plan[i + 1..];
  }

  lemma {:induction false} WithRoutesAppend(op: Operator, ps: seq<Prefix>, p: Prefix, table: Table)
    ensures WithRoutes(op, ps + [p], table) == WithRoutes(op, ps, table)[op.Own(p).Key() := op.Own(p).Expected()]
  {
    if ps == [] {
      assert ps + [p] == [p];
    } else {
      assert (ps + [p])[1..] == ps[1..] + [p];
      WithRoutesAppend(op, ps[1..], p, table[op.Own(ps[0]).Key() := op.Own(ps[0]).Expected()]);
    }
  }

  /** All or nothing. On a quiet machine, success has created exactly the planned routes whose key was
      free, and failure with a clean rollback leaves the table as it was. */
  method Install(op: Operator, plan: seq<Prefix>) returns (txn: RouteTransaction?, clean: bool)
    requires op.Valid() && Planned(plan)
    requires op.journaled ==> op.luid != 0 && op.index != 0
    modifies op
    ensures op.Valid() && old(op.trace) <= op.trace
    ensures txn != null ==> fresh(txn) && txn.Valid() && txn.op == op
    ensures op.quiet && txn != null ==>
              && txn.installed == Missing(op, plan, old(op.table))
              && op.table == WithRoutes(op, txn.installed, old(op.table))
              && Exact(op, old(op.table), op.table, txn.installed)
              && (forall p :: p in plan ==> op.Own(p).PresentIn(op.table))
    ensures op.quiet && txn == null && clean ==> op.table == old(op.table)
    ensures op.quiet && op.faultFree && !op.journaled && old(op.transition).None? ==>
              clean && (txn != null <==> Compatible(op, plan, old(op.table)))
    ensures old(op.collided) ==> op.collided
    ensures old(Ready(op)) && !op.collided ==>
              && clean && Ready(op)
              && (txn != null <==> AllInstallable(op, plan, old(op.table), old(EntriesOf(op.store))))
              && if txn != null then Claims(op, old(EntriesOf(op.store)), EntriesOf(op.store), txn.installed)
                 else EntriesOf(op.store) == old(EntriesOf(op.store))
  {
    txn := new RouteTransaction(op);
    ghost var base, before := op.table, EntriesOf(op.store);
    clean := true;
    for i := 0 to |plan|
      invariant fresh(txn) && txn.Valid() && txn.op == op && old(op.trace) <= op.trace
      invariant forall p :: p in txn.installed ==> p in plan[..i]
      invariant op.quiet ==> Progress(op, plan, i, base, op.table, txn.installed)
      invariant clean && (!op.journaled ==> op.transition == old(op.transition)) && (old(op.collided) ==> op.collided)
      invariant old(Ready(op)) && !op.collided ==>
                  && Ready(op) && Claims(op, before, EntriesOf(op.store), txn.installed)
                  && AllInstallable(op, plan[..i], base, before)
    {
      PlannedAppend(txn.installed, plan[i]);
      ghost var table, installed, entries := op.table, txn.installed, EntriesOf(op.store);
      var ok := InstallOne(txn, op, plan[i], base);
      if op.quiet {
        Conflict(op, base, table, installed, plan[i]);
      }
      ghost var ready := old(Ready(op)) && !op.collided;
      if ready {
        StepClaims(op, plan, i, base, before, table, installed, entries, txn.installed, EntriesOf(op.store), ok);
      }
      if !ok {
        clean := Abandon(txn, op, base, before);
        return null, clean;
      }
      if op.quiet {
        ProgressOne(op, plan, i, base, table, installed, op.table, txn.installed);
      }
    }
    assert plan[..|plan|] == plan;
  }

  /** Every planned route can be installed: its key is free and so is its destination in the journal, or it
      is there already. */
  ghost predicate AllInstallable(op: Operator, plan: seq<Prefix>, table: Table, entries: seq<Entry>) {
    forall p :: p in plan ==> Installable(op, p, table, entries)
  }

  /** One planned route more, as far as the journal is concerned. */
  lemma StepClaims(op: Operator, plan: seq<Prefix>, i: nat, base: Table, before: seq<Entry>, table: Table,
                   installed: seq<Prefix>, entries: seq<Entry>, installed': seq<Prefix>, entries': seq<Entry>, ok: bool)
    requires i < |plan| && plan[i] !in installed && Planned(installed + [plan[i]])
    requires Exact(op, base, table, installed) && Claims(op, before, entries, installed)
    requires AllInstallable(op, plan[..i], base, before)
    requires ok <==> Installable(op, plan[i], table, entries)
    requires if installed' == installed then entries' == entries
             else installed' == installed + [plan[i]] && EndsWith(op, entries', entries, plan[i])
    ensures Claims(op, before, entries', installed')
    ensures ok <==> Installable(op, plan[i], base, before)
    ensures ok ==> AllInstallable(op, plan[..i + 1], base, before)
  {
    FreesClaims(op, before, entries, installed, plan[i]);
    KeysOfPlan(op, installed, plan[i]);
    if installed' != installed {
      ClaimsMore(op, before, entries, entries', installed, plan[i]);
    }
    assert plan[..i + 1] == plan[..i] + [plan[i]];
  }

  /** No planned route's key is taken by a row that differs from it. */
  ghost predicate Compatible(op: Operator, plan: seq<Prefix>, table: Table) {
    forall p :: p in plan && op.Own(p).Key() in table ==> op.Own(p).PresentIn(table)
  }

  /** A row in the way of a planned route was there from the start. */
  lemma Conflict(op: Operator, base: Table, table: Table, installed: seq<Prefix>, p: Prefix)
    requires Exact(op, base, table, installed)
    ensures op.Own(p).Key() in table && !op.Own(p).PresentIn(table) ==>
              op.Own(p).Key() in base && !op.Own(p).PresentIn(base)
  {
  }

  // ----- what an installation comes to, row by row -----

  /** The table after an installation: every row that was there, and one row for each planned route whose key was
      free; these are the routes installed, each once. */
  ghost predicate Created(luid: nat, index: nat, plan: seq<Prefix>, before: Table, after: Table,
                          installed: seq<Prefix>)
  {
    && (forall k :: k in before ==> k in after && after[k] == before[k])
    && (forall k :: k in after ==> k in before || (k.luid == luid && k.prefix in plan))
    && (forall p :: p in plan ==> var k := RouteKey(luid, p); k in after && after[k] == Row(index, 1, 3))
    && (forall p :: p in installed <==> p in plan && RouteKey(luid, p) !in before)
    && forall i, j :: 0 <= i < j < |installed| ==> installed[i] != installed[j]
  }

  /** What can be installed: routes that are there already, and routes whose key is free and whose destination no
      journal entry has, as long as every entry's destination is a sound one. */
  ghost predicate Open(luid: nat, index: nat, plan: seq<Prefix>, table: Table, entries: seq<Entry>) {
    forall p :: p in plan ==>
      var k := RouteKey(luid, p);
      if k in table then table[k] == Row(index, 1, 3)
      else forall e :: e in entries ==> e.destination.Parsed? && Tidy(e.destination.prefix) && e.destination.prefix != p
  }

  lemma {:induction false} MissingMeans(op: Operator, plan: seq<Prefix>, table: Table)
    requires Planned(plan)
    ensures var m := Missing(op, plan, table);
            && (forall p :: p in m <==> p in plan && RouteKey(op.luid, p) !in table)
            && forall i, j :: 0 <= i < j < |m| ==> m[i] != m[j]
  {
    if plan != [] {
      var r, rest := op.Own(plan[0]), plan[1..];
      var table' := if r.Key() in table then table else table[r.Key() := r.Expected()];
      assert plan[0] in plan && plan[0].IsCanonical();
      assert plan == [plan[0]] + rest && Planned(rest) && plan[0] !in rest && r.Key() == RouteKey(op.luid, plan[0]);
      MissingMeans(op, rest, table');
      assert forall p :: p in rest ==> (RouteKey(op.luid, p) in table' <==> RouteKey(op.luid, p) in table);
      assert Missing(op, plan, table) == (if r.Key() in table then [] else [plan[0]]) + Missing(op, rest, table');
    }
  }

  /** A successful installation creates exactly that. */
  lemma InstalledMeans(op: Operator, plan: seq<Prefix>, before: Table, after: Table)
    requires Planned(plan) && Exact(op, before, after, Missing(op, plan, before))
    requires forall p :: p in plan ==> op.Own(p).PresentIn(after)
    ensures Created(op.luid, op.index, plan, before, after, Missing(op, plan, before))
  {
    MissingMeans(op, plan, before);
  }

  /** And it succeeds exactly then. */
  lemma InstallableMeans(op: Operator, plan: seq<Prefix>, table: Table, entries: seq<Entry>)
    requires Planned(plan)
    ensures AllInstallable(op, plan, table, entries) <==> Open(op.luid, op.index, plan, table, entries)
    ensures Compatible(op, plan, table) <==> forall p :: p in plan ==>
              var k := RouteKey(op.luid, p); k in table ==> table[k] == Row(op.index, 1, 3)
  {
    forall e | e in entries && e.destination.Parsed?
      ensures e.destination.prefix.IsCanonical() <==> Tidy(e.destination.prefix)
    {
      CanonicalMeans(e.destination.prefix);
    }
  }

  method Abandon(txn: RouteTransaction, op: Operator, ghost base: Table, ghost entries: seq<Entry>)
    returns (clean: bool)
    requires txn.Valid() && txn.op == op
    requires op.quiet ==> Extends(op, base, op.table, txn.installed)
    modifies txn, op
    ensures op.collided == old(op.collided)
    ensures op.Valid() && old(op.trace) <= op.trace
    ensures op.quiet && clean ==> op.table == base
    ensures op.quiet && op.faultFree && !op.journaled && old(op.transition).None? ==> clean
    ensures old(Ready(op) && Claims(op, entries, EntriesOf(op.store), txn.installed)) ==>
              clean && Ready(op) && EntriesOf(op.store) == entries
  {
    ghost var before, installed := op.table, txn.installed;
    clean := txn.Rollback(entries);
    if op.quiet && clean {
      NothingLeft(op, base, before, op.table, installed);
    }
  }

  /** Where a process gets that nothing disturbs: it recovers; if it understands every entry and can install
      the whole plan, the routes are there until it closes; otherwise, or once it has closed, only what
      recovery leaves. */
  ghost predicate Ended(op: Operator, plan: seq<Prefix>, closes: nat, start: Snapshot, end: Snapshot) {
    var site, old' := SiteOf(op), EntriesOf(start.store);
    var entries, table := Retained(site, old'), Cleared(site, old', start.table);
    var stays := closes == 0 && (forall e :: e in old' ==> Understood(site, e))
        && AllInstallable(op, plan, table, entries);
    Kept(op, plan, stays, table, entries, end)
  }

  /** Closes a transaction until nothing is left of it. */
  method CloseAll(txn: RouteTransaction, op: Operator, closes: nat, ghost base: Table, ghost before: seq<Entry>)
    requires txn.Valid() && txn.op == op && closes > 0 && (op.quiet ==> Extends(op, base, op.table, txn.installed))
    modifies txn, op
    ensures op.Valid() && old(op.trace) <= op.trace && op.collided == old(op.collided)
    ensures old(Ready(op) && Claims(op, before, EntriesOf(op.store), txn.installed)) ==>
              op.table == base && EntriesOf(op.store) == before
  {
    ghost var ready := Ready(op) && Claims(op, before, EntriesOf(op.store), txn.installed);
    ghost var table, installed := op.table, txn.installed;
    var closed := txn.Rollback(before);
    if ready {
      NothingLeft(op, base, table, op.table, installed);
    }
    for i := 1 to closes
      invariant txn.Valid() && (txn.op == op || txn.op == null) && op.Valid() && old(op.trace) <= op.trace
      invariant op.collided == old(op.collided)
      invariant ready ==> txn.op == null && op.table == base && EntriesOf(op.store) == before
    {
      closed := txn.Rollback([]);
    }
  }

  /** The routes are in place, or nothing has changed. */
  ghost predicate Kept(op: Operator, plan: seq<Prefix>, stays: bool, table: Table, entries: seq<Entry>, end: Snapshot) {
    if stays then
      && end.table == WithRoutes(op, Missing(op, plan, table), table)
      && Claims(op, entries, EntriesOf(end.store), Missing(op, plan, table))
    else end.table == table && EntriesOf(end.store) == entries
  }

  method InstallAndClose(op: Operator, plan: seq<Prefix>, closes: nat)
    requires op.Valid() && Planned(plan)
    requires op.journaled ==> op.luid != 0 && op.index != 0
    modifies op
    ensures op.Valid() && old(op.trace) <= op.trace
    ensures old(Ready(op)) && !op.collided ==>
              Kept(op, plan, closes == 0 && AllInstallable(op, plan, old(op.table), old(EntriesOf(op.store))),
                   old(op.table), old(EntriesOf(op.store)), op.Now())
  {
    ghost var base, before := op.table, EntriesOf(op.store);
    var txn, clean := Install(op, plan);
    if txn != null && closes > 0 {
      CloseAll(txn, op, closes, base, before);
    }
  }

  /** One process: recover, install the plan, then close as often as it likes. */
  method RunProcess(op: Operator, plan: seq<Prefix>, closes: nat)
    requires op.Valid() && Planned(plan)
    requires op.journaled ==> op.luid != 0 && op.index != 0
    modifies op
    ensures op.Valid() && old(op.trace) <= op.trace
    ensures old(Ready(op)) && !op.collided ==> Ended(op, plan, closes, old(op.Now()), op.Now())
  {
    if op.journaled {
      var recovered := Reconcile(op);
      if !recovered {
        return;
      }
    }
    InstallAndClose(op, plan, closes);
  }

  /** One process of a history: its adapter, what it wants routed, what it can learn about other adapters,
      what the machine is like while it runs, how often it closes, and where it is killed. */
  datatype Process = Process(
    luid: nat, index: nat, destinations: seq<Prefix>, relays: seq<RelayAddr>, foreign: (nat, nat) -> ForeignQuery,
    quiet: bool, faultFree: bool, honestDelete: bool, closes: nat, killedAt: nat)

  /** What became of a process: its plan was refused, or it went through these machine states. */
  datatype Life = Refused | Lived(op: Operator, plan: seq<Prefix>, trace: seq<Snapshot>, collided: bool)

  /** The state a process leaves the machine in: where it was killed, or its last. */
  function Left(p: Process, life: Life, start: Snapshot): Snapshot {
    if life.Refused? || life.trace == [] then start
    else if p.killedAt < |life.trace| then life.trace[p.killedAt]
    else life.trace[|life.trace| - 1]
  }

  /** The state process `n` starts in. */
  function Start(initial: Snapshot, processes: seq<Process>, lives: seq<Life>, n: nat): Snapshot
    requires n <= |processes| && n <= |lives|
  {
    if n == 0 then initial else Left(processes[n - 1], lives[n - 1], Start(initial, processes, lives, n - 1))
  }

  /** A life of the process that starts in this state: it is refused exactly for an unacceptable destination;
      every state it goes through is safe and answers for the routes of the one before that
      are still there; and undisturbed it ends where it should. */
  ghost predicate LifeOf(p: Process, start: Snapshot, life: Life) {
    && (life.Lived? <==> forall d :: d in p.destinations ==> Acceptable(d, p.relays))
    && (life.Lived? ==>
      && life.op.luid == p.luid && life.op.index == p.index && life.op.foreign == p.foreign
      && Planned(life.plan) && (forall a :: Covers(life.plan, a) <==> Covers(p.destinations, a))
      && life.trace != [] && life.trace[0] == start
      && (forall i :: 0 <= i < |life.trace| ==> Safe(life.trace[i]))
      && (forall i :: 0 <= i < |life.trace| - 1 ==> Keeps(life.trace[i], life.trace[i + 1]))
      && (p.quiet && p.faultFree && Loadable(start.store) && !life.collided ==>
            Ended(life.op, life.plan, p.closes, start, life.trace[|life.trace| - 1])))
  }

  /** Each process lives on from where its predecessor was killed. */
  ghost predicate Follow(initial: Snapshot, processes: seq<Process>, lives: seq<Life>) {
    && |lives| <= |processes|
    && forall n :: 0 <= n < |lives| ==> LifeOf(processes[n], Start(initial, processes, lives, n), lives[n])
  }

  lemma FollowMore(initial: Snapshot, processes: seq<Process>, lives: seq<Life>, life: Life)
    requires Follow(initial, processes, lives) && |lives| < |processes|
    requires LifeOf(processes[|lives|], Start(initial, processes, lives, |lives|), life)
    ensures Follow(initial, processes, lives + [life])
    ensures Start(initial, processes, lives + [life], |lives| + 1)
            == Left(processes[|lives|], life, Start(initial, processes, lives, |lives|))
  {
    var more := lives + [life];
    StartIgnoresLater(initial, processes, lives, life, |lives|);
    forall n | 0 <= n < |more|
      ensures LifeOf(processes[n], Start(initial, processes, more, n), more[n])
    {
      assert Start(initial, processes, more, n) == Start(initial, processes, lives, n);
      assert n < |lives| ==> more[n] == lives[n];
    }
  }

  /** A process lives on the machine state its predecessor left. */
  method Live(p: Process, start: Snapshot) returns (life: Life)
    requires Safe(start) && p.luid != 0 && p.index != 0
    ensures LifeOf(p, start, life) && Safe(Left(p, life, start))
  {
    var planned := PlanSelectiveRoutes(p.destinations, p.relays);
    if planned.Err? {
      return Refused;
    }
    var op := new Operator.Boot(start, p.luid, p.index, true, p.quiet, p.faultFree, p.honestDelete, p.foreign);
    RunProcess(op, planned.value, p.closes);
    life := Lived(op, planned.value, op.trace, op.collided);
  }

  /** Write-ahead safety over whole histories. Any number of processes run one after another, with outside
      programs and other processes interfering, and each killed at any point; each starts in the state its
      predecessor was killed in. Every machine state any of them reaches is safe: every route whose creation
      committed and that still exists unchanged has a journal entry, and no destination has two. And a
      process that nothing disturbs repairs whatever its predecessors left. */
  method CrashHistories(initial: Snapshot, processes: seq<Process>) returns (lives: seq<Life>)
    requires Safe(initial)
    requires forall p :: p in processes ==> p.luid != 0 && p.index != 0
    ensures |lives| == |processes| && Follow(initial, processes, lives)
  {
    lives := [];
    for n := 0 to |processes|
      invariant |lives| == n && Follow(initial, processes, lives) && Safe(Start(initial, processes, lives, n))
    {
      lives := LiveNext(initial, processes, lives);
    }
  }

  method LiveNext(initial: Snapshot, processes: seq<Process>, lives: seq<Life>) returns (lives': seq<Life>)
    requires |lives| < |processes| && Follow(initial, processes, lives)
    requires Safe(Start(initial, processes, lives, |lives|))
    requires processes[|lives|].luid != 0 && processes[|lives|].index != 0
    ensures |lives'| == |lives| + 1 && Follow(initial, processes, lives')
    ensures Safe(Start(initial, processes, lives', |lives'|))
  {
    var life := Live(processes[|lives|], Start(initial, processes, lives, |lives|));
    FollowMore(initial, processes, lives, life);
    lives' := lives + [life];
  }

  lemma {:induction false} StartIgnoresLater(initial: Snapshot, processes: seq<Process>, lives: seq<Life>, life: Life,
                                            n: nat)
    requires n <= |processes| && n <= |lives|
    ensures forall i :: 0 <= i <= n ==>
            Start(initial, processes, lives + [life], i) == Start(initial, processes, lives, i)
  {
    if n > 0 {
      StartIgnoresLater(initial, processes, lives, life, n - 1);
    }
  }
}
