/** Accounting of the payload buffers of captured datagrams: bytes, objects and metadata, in total and by
    direction, each lease released at most once. */
module BufferPools {
  import opened Common

  const MAX_OBJECTS := 8192
  const MAX_OBJECTS_PER_DIRECTION := 4096
  const MAX_METADATA := 1048576
  const MAX_METADATA_PER_DIRECTION := 786432
  const MIN_RESERVATION := 64
  const META := 160

  datatype Direction = Accepted | Delivery

  datatype PoolError = TooLarge | BufferBudget | OutstandingBudget

  class BufferLease {
    const bytes: nat
    const metadata: nat
    const direction: Direction
    var released: bool

    constructor (bytes: nat, metadata: nat, direction: Direction)
      ensures this.bytes == bytes && this.metadata == metadata && this.direction == direction && !released
    {
      this.bytes, this.metadata, this.direction, released := bytes, metadata, direction, false;
    }
  }

  ghost function Total(leases: set<BufferLease>): nat {
    if leases == {} then 0 else var l :| l in leases; l.bytes + Total(leases - {l})
  }

  lemma {:induction false} TotalWithout(leases: set<BufferLease>, l: BufferLease)
    requires l in leases
    ensures Total(leases) == l.bytes + Total(leases - {l})
  {
    var first :| first in leases && Total(leases) == first.bytes + Total(leases - {first});
    if first != l {
      TotalWithout(leases - {first}, l);
      TotalWithout(leases - {l}, first);
      assert leases - {first} - {l} == leases - {l} - {first};
    }
  }

  lemma TotalWith(leases: set<BufferLease>, l: BufferLease)
    requires l !in leases
    ensures Total(leases + {l}) == Total(leases) + l.bytes
  {
    TotalWithout(leases + {l}, l);
    assert leases + {l} - {l} == leases;
  }

  ghost function In(leases: set<BufferLease>, d: Direction): set<BufferLease> {
    set l | l in leases && l.direction == d
  }

  /** Objects and their metadata. */
  datatype Tally = Tally(objects: int, metadata: int) {
    function Plus(n: int): Tally {
      Tally(objects + n, metadata + n * META)
    }
  }

  datatype Counters = Counters(bytes: int, all: Tally, accepted: Tally, delivery: Tally) {
    function Of(d: Direction): Tally {
      if d == Accepted then accepted else delivery
    }

    /** One more (n = 1) or one less (n = -1) object of the direction. */
    function Moved(bytes: int, n: int, d: Direction): Counters {
      Counters(this.bytes + bytes, all.Plus(n), if d == Accepted then accepted.Plus(n) else accepted,
               if d == Delivery then delivery.Plus(n) else delivery)
    }
  }

  ghost predicate Tallies(t: Tally, leases: set<BufferLease>) {
    t.objects == |leases| && t.metadata == META * |leases|
  }

  /** The counters are the sums over the unreleased leases. */
  ghost predicate Counts(c: Counters, live: set<BufferLease>) {
    && c.bytes == Total(live) && Tallies(c.all, live)
    && Tallies(c.accepted, In(live, Accepted)) && Tallies(c.delivery, In(live, Delivery))
  }

  /** Every cap of the pool. */
  predicate Capped(c: Counters, maxBytes: nat) {
    && c.bytes <= maxBytes && c.all.objects <= MAX_OBJECTS && c.all.metadata <= MAX_METADATA
    && c.accepted.objects <= MAX_OBJECTS_PER_DIRECTION && c.accepted.metadata <= MAX_METADATA_PER_DIRECTION
    && c.delivery.objects <= MAX_OBJECTS_PER_DIRECTION && c.delivery.metadata <= MAX_METADATA_PER_DIRECTION
  }

  lemma InWith(live: set<BufferLease>, l: BufferLease, d: Direction)
    ensures In(live + {l}, d) == In(live, d) + if d == l.direction then {l} else {}
    ensures In(live - {l}, d) == In(live, d) - if d == l.direction then {l} else {}
  {
  }

  lemma ReservingKeepsCounts(c: Counters, live: set<BufferLease>, l: BufferLease)
    requires Counts(c, live) && l !in live
    ensures Counts(c.Moved(l.bytes, 1, l.direction), live + {l})
  {
    TotalWith(live, l);
    InWith(live, l, Accepted);
    InWith(live, l, Delivery);
  }

  /** Releasing an unreleased lease cannot drive a counter below zero. */
  lemma ReleasingKeepsCounts(c: Counters, live: set<BufferLease>, l: BufferLease)
    requires Counts(c, live) && l in live
    ensures c.bytes >= l.bytes && c.all.objects >= 1 && c.all.metadata >= META
    ensures c.Of(l.direction).objects >= 1 && c.Of(l.direction).metadata >= META
    ensures Counts(c.Moved(-(l.bytes as int), -1, l.direction), live - {l})
  {
    TotalWithout(live, l);
    InWith(live, l, Accepted);
    InWith(live, l, Delivery);
    assert l in In(live, l.direction);
    SizeWithout(live, l);
    SizeWithout(In(live, l.direction), l);
  }

  lemma SizeWithout(leases: set<BufferLease>, l: BufferLease)
    requires l in leases
    ensures |leases - {l}| == |leases| - 1
  {
  }

  /** Whether and why one more buffer is denied beside those that are out: a wrong size, more bytes in all than
      the limit, at least 64 for each, or more than 6553 buffers in all or 4096 in its direction. */
  ghost function Denied(live: set<BufferLease>, maxBytes: nat, d: Direction, size: int, maxSize: nat): Option<PoolError>
  {
    if size < 0 || size > maxSize then Some(TooLarge)
    else if Total(live) + (if size < 64 then 64 else size) > maxBytes then Some(BufferBudget)
    else if |live| + 1 > 6553 || |set l | l in live && l.direction == d| + 1 > 4096 then Some(OutstandingBudget)
    else None
  }

  class Pool {
    const maxBytes: nat
    var counters: Counters
    ghost var issued: set<BufferLease>
    ghost var live: set<BufferLease>

    /** Conservation: the counters are the sums over the unreleased leases, and within their caps. */
    ghost predicate Valid()
      reads this, issued
    {
      && Counts(counters, live) && Capped(counters, maxBytes)
      && live == Unreleased(issued)
      && forall l :: l in issued ==> l.bytes >= MIN_RESERVATION && l.metadata == META
    }

    constructor (maxBytes: nat)
      ensures Valid() && issued == {} && live == {} && this.maxBytes == maxBytes
    {
      this.maxBytes := maxBytes;
      counters := Counters(0, Tally(0, 0), Tally(0, 0), Tally(0, 0));
      issued, live := {}, {};
    }

    /** What a reservation is refused for. */
    function Refusal(d: Direction, size: int, maxSize: nat): Option<PoolError>
      reads this
    {
      if size < 0 || size > maxSize then Some(TooLarge)
      else if counters.bytes > maxBytes - Max(size, MIN_RESERVATION) then Some(BufferBudget)
      else if || counters.all.objects >= MAX_OBJECTS || counters.Of(d).objects >= MAX_OBJECTS_PER_DIRECTION
              || counters.all.metadata > MAX_METADATA - META
                  || counters.Of(d).metadata > MAX_METADATA_PER_DIRECTION - META
           then Some(OutstandingBudget)
      else None
    }

    /** The reasons in terms of the buffers that are out; with 160 bytes of metadata each, the limit of 8192
        objects is never the one that bites. */
    lemma RefusalMeans(d: Direction, size: int, maxSize: nat)
      requires Valid()
      ensures Refusal(d, size, maxSize) == Denied(live, maxBytes, d, size, maxSize)
    {
      assert Tallies(counters.Of(d), In(live, d));
    }

    method Reserve(d: Direction, size: int, maxSize: nat) returns (r: Result<BufferLease, PoolError>)
      requires Valid()
      modifies this
      ensures Valid()
      ensures match Denied(old(live), maxBytes, d, size, maxSize)
              case Some(e) => r == Err(e) && live == old(live)
              case None => && r.Ok? && fresh(r.value) && r.value.direction == d
                           && r.value.bytes == (if size < 64 then 64 else size)
                           && live == old(live) + {r.value}
      ensures match old(Refusal(d, size, maxSize))
              case Some(e) => r == Err(e) && live == old(live) && issued == old(issued) && counters == old(counters)
              case None => && r.Ok? && fresh(r.value) && r.value.bytes == Max(size, MIN_RESERVATION)
                           && r.value.direction == d
                           && live == old(live) + {r.value} && issued == old(issued) + {r.value}
    {
      RefusalMeans(d, size, maxSize);
      var refusal := Refusal(d, size, maxSize);
      if refusal.Some? {
        return Err(refusal.value);
      }
      var lease := new BufferLease(Max(size, MIN_RESERVATION), META, d);
      Book(lease);
      r := Ok(lease);
    }

    method Book(lease: BufferLease)
      requires Valid() && lease !in issued && !lease.released
      requires lease.bytes >= MIN_RESERVATION && lease.metadata == META
      requires Capped(counters.Moved(lease.bytes, 1, lease.direction), maxBytes)
      modifies this
      ensures Valid() && live == old(live) + {lease} && issued == old(issued) + {lease}
    {
      ReservingKeepsCounts(counters, live, lease);
      counters := counters.Moved(lease.bytes, 1, lease.direction);
      issued, live := issued + {lease}, live + {lease};
    }

    /** Only the first release of a lease counts, and the accounting never underflows. */
    method Release(lease: BufferLease)
      requires Valid() && lease in issued
      modifies this, lease
      ensures Valid() && lease.released && live == old(live) - {lease} && issued == old(issued)
      ensures lease in old(live) <==> !old(lease.released)
      ensures old(lease.released) ==> counters == old(counters)
    {
      if lease.released {
        return;
      }
      ReleasingKeepsCounts(counters, live, lease);
      lease.released := true;
      assert !( || lease.bytes <= 0 || lease.metadata <= 0 || counters.bytes < lease.bytes
                || counters.all.objects <= 0 || counters.all.metadata < lease.metadata
                || counters.Of(lease.direction).objects <= 0 || counters.Of(lease.direction).metadata < lease.metadata);
      counters := counters.Moved(-(lease.bytes as int), -1, lease.direction);
      live := live - {lease};
    }
  }

  ghost function Unreleased(issued: set<BufferLease>): set<BufferLease>
    reads issued
  {
    set l | l in issued && !l.released
  }
}
