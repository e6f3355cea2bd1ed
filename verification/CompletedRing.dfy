/** The memory of completed groups: a growing array with a head index and a map beside it, which
    together act as a first-in first-out set of at most 4096 identifiers with their times. */
module CompletedRings {
  import opened Common

  const MAX_COMPLETED := 4096
  const LIFETIME := 30_000_000_000

  datatype Completed = Completed(id: nat, at: int)

  ghost predicate Knows(queue: seq<Completed>, id: nat) {
    exists i :: 0 <= i < |queue| && queue[i].id == id
  }

  ghost predicate DistinctIds(queue: seq<Completed>) {
    forall i, j :: 0 <= i < j < |queue| ==> queue[i].id != queue[j].id
  }

  ghost predicate Ordered(queue: seq<Completed>) {
    forall i, j :: 0 <= i < j < |queue| ==> queue[i].at <= queue[j].at
  }

  /** The map holds exactly the entries of the queue. */
  ghost predicate Mirrors(times: map<nat, int>, queue: seq<Completed>) {
    && DistinctIds(queue)
    && (forall i :: 0 <= i < |queue| ==> queue[i].id in times && times[queue[i].id] == queue[i].at)
    && (forall id :: id in times ==> Knows(queue, id))
  }

  lemma MirrorsPop(times: map<nat, int>, queue: seq<Completed>)
    requires Mirrors(times, queue) && queue != []
    ensures Mirrors(times - {queue[0].id}, queue[1..])
  {
    forall id | id in times && id != queue[0].id
      ensures Knows(queue[1..], id)
    {
      var i :| 0 <= i < |queue| && queue[i].id == id;
      assert queue[1..][i - 1].id == id;
    }
  }

  lemma MirrorsPush(times: map<nat, int>, queue: seq<Completed>, id: nat, at: int)
    requires Mirrors(times, queue) && id !in times
    ensures Mirrors(times[id := at], queue + [Completed(id, at)])
  {
    var queue' := queue + [Completed(id, at)];
    forall x | x in times[id := at]
      ensures Knows(queue', x)
    {
      if x == id {
        assert queue'[|queue|].id == x;
      } else {
        var i :| 0 <= i < |queue| && queue[i].id == x;
        assert queue'[i].id == x;
      }
    }
  }

  lemma {:induction false} MirrorsSize(times: map<nat, int>, queue: seq<Completed>)
    requires Mirrors(times, queue)
    ensures |times| == |queue|
  {
    if queue == [] {
      assert times == map[];
    } else {
      MirrorsPop(times, queue);
      MirrorsSize(times - {queue[0].id}, queue[1..]);
      assert times.Keys == (times - {queue[0].id}).Keys + {queue[0].id};
    }
  }

  /** The entries of a time-ordered queue that have not expired at `now`. */
  ghost function Unexpired(queue: seq<Completed>, now: int): seq<Completed> {
    if queue == [] then []
    else (if now - queue[0].at < LIFETIME then [queue[0]] else []) + Unexpired(queue[1..], now)
  }

  ghost predicate Before(queue: seq<Completed>, t: int) {
    forall i :: 0 <= i < |queue| ==> queue[i].at <= t
  }

  /** What is left of an ordered queue is ordered and has no new times. */
  lemma {:induction false} UnexpiredIsPart(queue: seq<Completed>, now: int, low: int, high: int)
    requires Ordered(queue) && Before(queue, high) && (queue != [] ==> low <= queue[0].at)
    ensures Ordered(Unexpired(queue, now)) && Before(Unexpired(queue, now), high)
    ensures Unexpired(queue, now) != [] ==> low <= Unexpired(queue, now)[0].at
  {
    if queue != [] {
      var first, rest := queue[0], Unexpired(queue[1..], now);
      UnexpiredIsPart(queue[1..], now, first.at, high);
      if now - first.at < LIFETIME {
        assert forall i :: 0 <= i < |rest| ==> rest[0].at <= rest[i].at;
        assert Unexpired(queue, now) == [first] + rest;
      } else {
        assert Unexpired(queue, now) == rest;
      }
    }
  }

  /** `Unexpired` is the filter it is meant to be. */
  lemma {:induction false} UnexpiredIsFilter(queue: seq<Completed>, now: int)
    ensures forall e :: e in Unexpired(queue, now) <==> e in queue && now - e.at < LIFETIME
  {
    if queue != [] {
      UnexpiredIsFilter(queue[1..], now);
      assert queue == [queue[0]] + queue[1..];
    }
  }

  lemma {:induction false} OrderedUnexpired(queue: seq<Completed>, now: int)
    requires Ordered(queue)
    ensures queue != [] && now - queue[0].at < LIFETIME ==> Unexpired(queue, now) == queue
  {
    if queue != [] {
      OrderedUnexpired(queue[1..], now);
    }
  }

  /** Only expired groups have gone. */
  ghost predicate Forgot(before: map<nat, int>, times: map<nat, int>, now: int) {
    && (forall id :: id in times ==> id in before && times[id] == before[id])
    && (forall id :: id in before && id !in times ==> now - before[id] >= LIFETIME)
  }

  lemma ForgotOne(before: map<nat, int>, times: map<nat, int>, id: nat, now: int)
    requires Forgot(before, times, now) && id in times
    ensures now - times[id] >= LIFETIME ==> Forgot(before, times - {id}, now)
  {
  }

  class CompletedRing {
    var times: map<nat, int>
    var order: seq<Completed>
    var head: nat
    /** Maintenance operations so far: entries looked at by purges and entries moved by compactions. */
    var ops: nat
    ghost var purges: nat
    ghost var popped: nat
    ghost var remembered: nat

    /** The abstract value: the remembered groups, oldest first. */
    ghost var queue: seq<Completed>

    /** The map is exactly the queue, and the dead prefix of the array stays short. */
    ghost predicate Refines()
      reads this
    {
      && head <= |order| && head < MAX_COMPLETED && queue == order[head..] && |queue| <= MAX_COMPLETED
      && Mirrors(times, queue)
      && remembered == popped + |queue|
    }

    ghost predicate Valid()
      reads this
    {
      Refines() && |order| < 2 * MAX_COMPLETED && ops + head <= purges + 2 * popped
    }

    constructor ()
      ensures Valid() && queue == [] && ops == 0 && purges == 0 && remembered == 0
    {
      times, order, head, ops := map[], [], 0, 0;
      purges, popped, remembered, queue := 0, 0, 0, [];
    }

    /** Drops the oldest entry and, when the dead prefix dominates, moves the rest to the front. A
        compaction costs no more than the pops since the last one. */
    method Pop()
      requires Refines()
      modifies this
      ensures Refines() && purges == old(purges) && remembered == old(remembered) && times.Keys <= old(times.Keys)
      ensures queue == if old(queue) == [] then [] else old(queue)[1..]
      ensures popped == old(popped) + if old(queue) == [] then 0 else 1
      ensures ops + head <= old(ops) + old(head) + 1
      ensures old(queue) == [] ==> ops == old(ops) && head == old(head) && times == old(times)
      ensures old(queue) != [] ==> times == old(times) - {old(queue)[0].id}
    {
      if head >= |order| {
        return;
      }
      var entry := order[head];
      MirrorsPop(times, queue);
      head := head + 1;
      queue := queue[1..];
      popped := popped + 1;
      if entry.id in times && times[entry.id] == entry.at {
        times := times - {entry.id};
      }
      Tidy();
    }

    method Tidy()
      requires head <= |order| && head <= MAX_COMPLETED && |order| - head <= MAX_COMPLETED
      modifies `order, `head, `ops
      ensures head <= |order| && head < MAX_COMPLETED && order[head..] == old(order[head..])
      ensures ops + head <= old(ops) + old(head)
    {
      if head == |order| {
        order, head := [], 0;
        return;
      }
      if head >= MAX_COMPLETED && head * 2 >= |order| {
        var remaining := |order| - head;
        order := order[head..];
        head := 0;
        ops := ops + remaining;
      }
    }

    /** Looks at the oldest entry and drops it if it has expired. */
    method DropOldest(now: int) returns (dropped: bool)
      requires Refines() && head < |order|
      modifies this
      ensures Refines() && purges == old(purges) && remembered == old(remembered)
      ensures dropped <==> now - old(queue)[0].at >= LIFETIME
      ensures if dropped then queue == old(queue)[1..] && times == old(times) - {old(queue)[0].id}
              && popped == old(popped) + 1
              else queue == old(queue) && times == old(times) && popped == old(popped)
      ensures ops + head <= old(ops) + old(head) + 1 + if dropped then 1 else 0
      ensures old(queue)[0].id in old(times) && old(times)[old(queue)[0].id] == old(queue)[0].at
    {
      ops := ops + 1;
      var entry := order[head];
      dropped := now - entry.at >= LIFETIME;
      if dropped {
        Pop();
      }
    }

    /** Drops entries until the oldest has not expired. */
    method DropExpired(now: int)
      requires Refines() && ops + head + 1 <= purges + 2 * popped
      modifies this
      ensures Refines() && purges == old(purges) && remembered == old(remembered) && ops + head <= purges + 2 * popped
      ensures Forgot(old(times), times, now) && Unexpired(queue, now) == Unexpired(old(queue), now)
      ensures Ordered(old(queue)) ==> Ordered(queue)
      ensures queue != [] ==> now - queue[0].at < LIFETIME
    {
      while head < |order|
        invariant Refines() && purges == old(purges) && remembered == old(remembered)
        invariant ops + head + 1 <= purges + 2 * popped
        invariant Forgot(old(times), times, now)
        invariant Unexpired(queue, now) == Unexpired(old(queue), now)
        invariant Ordered(old(queue)) ==> Ordered(queue)
        decreases |queue|
      {
        ForgotOne(old(times), times, queue[0].id, now);
        var dropped := DropOldest(now);
        if !dropped {
          break;
        }
      }
    }

    /** Forgets expired groups. With times in order it keeps exactly the unexpired ones. */
    method Purge(now: int)
      requires Valid()
      modifies this
      ensures Valid() && purges == old(purges) + 1 && remembered == old(remembered)
      ensures Ordered(old(queue)) ==> queue == Unexpired(old(queue), now) && Ordered(queue)
      ensures forall id :: id in times ==> id in old(times) && times[id] == old(times)[id]
      ensures forall id :: id in old(times) && id !in times ==> now - old(times)[id] >= LIFETIME
    {
      purges := purges + 1;
      DropExpired(now);
      if Ordered(queue) {
        OrderedUnexpired(queue, now);
      }
    }

    /** Remembers a group, displacing the oldest when the memory is full; a known group is left alone. */
    method Remember(id: nat, at: int)
      requires Valid()
      modifies this
      ensures Valid() && purges == old(purges) && remembered <= old(remembered) + 1
      ensures queue == Appended(old(queue), id, at)
      ensures id in times && forall x :: x in times ==>
                (x in old(times) && times[x] == old(times)[x]) || (x == id && times[x] == at)
      ensures |old(times)| < MAX_COMPLETED ==> times.Keys == old(times.Keys) + {id}
    {
      if id in times {
        return;
      }
      MirrorsSize(times, queue);
      if |times| >= MAX_COMPLETED {
        Pop();
      }
      Insert(id, at);
    }

    method Insert(id: nat, at: int)
      requires Refines() && id !in times && |queue| < MAX_COMPLETED
      modifies `times, `order, `remembered, `queue
      ensures Refines() && |order| < 2 * MAX_COMPLETED && remembered == old(remembered) + 1
      ensures queue == old(queue) + [Completed(id, at)]
      ensures times == old(times)[id := at]
    {
      MirrorsPush(times, queue, id, at);
      times := times[id := at];
      order := order + [Completed(id, at)];
      remembered := remembered + 1;
      queue := queue + [Completed(id, at)];
    }
  }

  /** What remembering a group does to the bounded queue. */
  ghost function Appended(queue: seq<Completed>, id: nat, at: int): seq<Completed> {
    if Knows(queue, id) then queue
    else (if |queue| >= MAX_COMPLETED then queue[1..] else queue) + [Completed(id, at)]
  }

  /** What happens to the memory over a run. */
  datatype Event = Purged(now: int) | Completion(id: nat, now: int)

  ghost function AfterEvent(queue: seq<Completed>, event: Event): seq<Completed> {
    match event
    case Purged(now) => Unexpired(queue, now)
    case Completion(id, now) => Appended(queue, id, now)
  }

  /** The ideal bounded queue after the first n events. */
  ghost function Ideal(events: seq<Event>, n: nat): seq<Completed>
    requires n <= |events|
  {
    if n == 0 then [] else AfterEvent(Ideal(events, n - 1), events[n - 1])
  }

  ghost function PurgeCount(events: seq<Event>, n: nat): nat
    requires n <= |events|
  {
    if n == 0 then 0 else PurgeCount(events, n - 1) + if events[n - 1].Purged? then 1 else 0
  }

  ghost predicate ClockForward(events: seq<Event>) {
    forall i, j :: 0 <= i < j < |events| ==> events[i].now <= events[j].now
  }

  method Apply(ring: CompletedRing, event: Event)
    requires ring.Valid() && Ordered(ring.queue) && Before(ring.queue, event.now)
    modifies ring
    ensures ring.Valid() && ring.queue == AfterEvent(old(ring.queue), event)
    ensures Ordered(ring.queue) && Before(ring.queue, event.now)
    ensures ring.purges == old(ring.purges) + if event.Purged? then 1 else 0
    ensures ring.remembered <= old(ring.remembered) + if event.Purged? then 0 else 1
  {
    AfterEventInOrder(ring.queue, event);
    match event
    case Purged(now) => ring.Purge(now);
    case Completion(id, now) => ring.Remember(id, now);
  }

  lemma AfterEventInOrder(queue: seq<Completed>, event: Event)
    requires Ordered(queue) && Before(queue, event.now)
    ensures Ordered(AfterEvent(queue, event)) && Before(AfterEvent(queue, event), event.now)
  {
    if event.Purged? {
      UnexpiredIsPart(queue, event.now, if queue == [] then 0 else queue[0].at, event.now);
    }
  }

  /** Refinement over whole runs: with a clock that never goes back, the array and map hold exactly the
      ideal bounded queue, and maintenance costs at most one operation a purge and two a completion. */
  method Replay(events: seq<Event>) returns (ring: CompletedRing)
    requires ClockForward(events)
    ensures ring.Valid() && ring.queue == Ideal(events, |events|)
    ensures ring.ops <= PurgeCount(events, |events|) + 2 * (|events| - PurgeCount(events, |events|))
  {
    ring := new CompletedRing();
    for i := 0 to |events|
      invariant fresh(ring) && ring.Valid()
      invariant ring.queue == Ideal(events, i) && Ordered(ring.queue)
      invariant i < |events| ==> Before(ring.queue, events[i].now)
      invariant ring.purges == PurgeCount(events, i) && ring.remembered <= i - PurgeCount(events, i)
    {
      Apply(ring, events[i]);
    }
  }
}
