/** Addresses and prefixes as bit strings, and the planning of selective routes. */
module RoutePlan {
  import opened Common

  datatype Addr = NoAddr | V4(bits: seq<bool>) | V6(bits: seq<bool>) {
    predicate IsValid() {
      (V4? && |bits| == 32) || (V6? && |bits| == 128)
    }

    predicate IsMapped() {
      IsValid() && V6? && bits[..96] == Repeat(false, 80) + Repeat(true, 16)
    }
  }

  /** The address of a relay. An IPv6 address may carry a zone. */
  datatype RelayAddr = RelayAddr(addr: Addr, zoned: bool) {
    /** An IPv4-mapped IPv6 address becomes the IPv4 address it carries, and loses its zone. */
    function Unmap(): RelayAddr {
      if addr.IsMapped() then RelayAddr(V4(addr.bits[96..]), false) else this
    }
  }

  datatype Prefix = Prefix(addr: Addr, len: int) {
    predicate IsValid() {
      addr.IsValid() && 0 <= len <= |addr.bits|
    }

    /** The prefix with every host bit cleared; an invalid prefix is left as it is. */
    function Masked(): Prefix {
      if !IsValid() then this
      else
        var bits := addr.bits[..len] + Repeat(false, |addr.bits| - len);
        if addr.V4? then Prefix(V4(bits), len) else Prefix(V6(bits), len)
    }

    predicate Contains(a: Addr) {
      && IsValid() && a.IsValid()
      && addr.V4? == a.V4?
      && a.bits[..len] == addr.bits[..len]
    }

    /** No prefix contains an address with a zone. */
    predicate ContainsRelay(relay: RelayAddr) {
      !relay.zoned && Contains(relay.addr)
    }

    /** Masked, valid and not a default route: what a journal destination must be. */
    predicate IsCanonical() {
      IsValid() && Masked() == this && len != 0
    }
  }

  // ----- what that means, bit by bit -----

  /** A prefix of a family, no longer than its addresses. */
  ghost predicate Formed(p: Prefix) {
    (p.addr.V4? && |p.addr.bits| == 32 && 0 <= p.len <= 32) || (p.addr.V6? && |p.addr.bits| == 128 && 0 <= p.len <= 128)
  }

  /** An address of the prefix's family that begins as the prefix does. */
  ghost predicate Inside(a: Addr, p: Prefix) {
    && Formed(p) && ((a.V4? && p.addr.V4? && |a.bits| == 32) || (a.V6? && p.addr.V6? && |a.bits| == 128))
    && forall i :: 0 <= i < p.len ==> a.bits[i] == p.addr.bits[i]
  }

  /** A prefix other than the default route, with no bit set beyond its length. */
  ghost predicate Tidy(p: Prefix) {
    Formed(p) && p.len > 0 && forall i :: p.len <= i < |p.addr.bits| ==> !p.addr.bits[i]
  }

  /** An IPv4 address in an IPv6 one: eighty zeros, sixteen ones and the address. */
  ghost predicate CarriesV4(a: Addr) {
    a.V6? && |a.bits| == 128 && (forall i :: 0 <= i < 80 ==> !a.bits[i]) && (forall i :: 80 <= i < 96 ==> a.bits[i])
  }

  /** The address of a relay, the IPv4 one if it carries one. */
  ghost function Unmapped(relay: RelayAddr): Addr {
    if CarriesV4(relay.addr) then V4(relay.addr.bits[96..]) else relay.addr
  }

  /** A relay in the prefix, whose address has no zone or carries an IPv4 address. */
  ghost predicate Clashes(p: Prefix, relay: RelayAddr) {
    Inside(Unmapped(relay), p) && (relay.zoned ==> CarriesV4(relay.addr))
  }

  lemma MappedMeans(a: Addr)
    ensures a.IsMapped() <==> CarriesV4(a)
  {
    if a.IsValid() && a.V6? {
      var marks := Repeat(false, 80) + Repeat(true, 16);
      if CarriesV4(a) {
        assert a.bits[..96] == marks;
      } else if a.bits[..96] == marks {
        assert forall i :: 0 <= i < 96 ==> a.bits[i] == marks[i];
      }
    }
  }

  lemma ContainsMeans(p: Prefix, a: Addr)
    ensures p.IsValid() <==> Formed(p)
    ensures p.Contains(a) <==> Inside(a, p)
  {
    if p.IsValid() && a.IsValid() && p.addr.V4? == a.V4? {
      assert a.bits[..p.len] == p.addr.bits[..p.len] <==>
             forall i :: 0 <= i < p.len ==> a.bits[..p.len][i] == p.addr.bits[..p.len][i];
    }
  }

  lemma ClashMeans(p: Prefix, relay: RelayAddr)
    ensures p.ContainsRelay(relay.Unmap()) <==> Clashes(p, relay)
  {
    MappedMeans(relay.addr);
    ContainsMeans(p, relay.Unmap().addr);
  }

  lemma CanonicalMeans(p: Prefix)
    ensures p.IsCanonical() <==> Tidy(p)
  {
    if p.IsValid() {
      var bits := p.addr.bits[..p.len] + Repeat(false, |p.addr.bits| - p.len);
      if Tidy(p) {
        assert p.addr.bits == bits;
      } else if p.Masked() == p {
        assert p.addr.bits == bits;
      }
    }
  }

  /** Masking gives a prefix without a bit beyond its length that covers the same addresses, so masking twice is
      masking once. */
  lemma MaskedIsIdempotent(p: Prefix)
    ensures p.Masked().Masked() == p.Masked()
    ensures Formed(p) && p.len > 0 ==> Tidy(p.Masked())
    ensures p.Masked().len == p.len && (Formed(p) <==> Formed(p.Masked()))
    ensures forall a :: Inside(a, p.Masked()) <==> Inside(a, p)
  {
    if p.IsValid() {
      var m := p.Masked();
      assert m.addr.bits[..p.len] == p.addr.bits[..p.len];
      assert m.Masked().addr.bits == m.addr.bits;
      assert forall i :: 0 <= i < p.len ==> m.addr.bits[i] == p.addr.bits[i];
    }
  }

  datatype PlanError =
    | InvalidDestination
    | DefaultRoute
    | RelayConflict

  /** Why one destination is refused, if it is; tested in the order the planner tests. */
  ghost predicate Refuses(p: Prefix, excluded: seq<RelayAddr>, e: PlanError) {
    if !Formed(p) then e == InvalidDestination
    else if p.len == 0 then e == DefaultRoute
    else e == RelayConflict && exists i :: 0 <= i < |excluded| && Clashes(p, excluded[i])
  }

  ghost predicate Acceptable(p: Prefix, excluded: seq<RelayAddr>) {
    Formed(p) && p.len != 0 && forall i :: 0 <= i < |excluded| ==> !Clashes(p, excluded[i])
  }

  ghost predicate Covers(prefixes: seq<Prefix>, a: Addr) {
    exists p :: p in prefixes && Inside(a, p)
  }

  /** Normalises, de-duplicates and checks the destinations: success exactly when every destination
      is acceptable, and then the plan is the masked destinations, each once, covering the same
      addresses and none of the relays' without a zone. */
  method PlanSelectiveRoutes(destinations: seq<Prefix>, excluded: seq<RelayAddr>)
    returns (r: Result<seq<Prefix>, PlanError>)
    ensures r.Ok? <==> forall i :: 0 <= i < |destinations| ==> Acceptable(destinations[i], excluded)
    ensures r.Err? ==> exists i ::
                && 0 <= i < |destinations| && Refuses(destinations[i], excluded, r.error)
                && forall k :: 0 <= k < i ==> Acceptable(destinations[k], excluded)
    ensures r.Ok? ==> Distinct(r.value)
    ensures r.Ok? ==> forall p :: p in r.value ==> Tidy(p) && p.IsCanonical()
    ensures r.Ok? ==> forall a :: Covers(r.value, a) <==> Covers(destinations, a)
    ensures r.Ok? ==> forall p, i :: p in r.value && 0 <= i < |excluded| ==> !Clashes(p, excluded[i])
  {
    var plan: seq<Prefix> := [];
    for idx := 0 to |destinations|
      invariant forall i :: 0 <= i < idx ==> Acceptable(destinations[i], excluded)
      invariant Distinct(plan)
      invariant forall i :: 0 <= i < idx ==> destinations[i].Masked() in plan
      invariant forall p :: p in plan ==>
                  Tidy(p) && exists i :: 0 <= i < idx && p == destinations[i].Masked()
    {
      var given := destinations[idx];
      MaskedIsIdempotent(given);
      ContainsMeans(given, given.addr);
      if !given.IsValid() {
        return Err(InvalidDestination);
      }
      var prefix := given.Masked();
      if prefix.len == 0 {
        return Err(DefaultRoute);
      }
      for j := 0 to |excluded|
        invariant forall i :: 0 <= i < j ==> !Clashes(given, excluded[i])
      {
        var relay := excluded[j].Unmap();
        ClashMeans(prefix, excluded[j]);
        MaskedClash(given, excluded[j]);
        if relay.addr.IsValid() && prefix.ContainsRelay(relay) {
          return Err(RelayConflict);
        }
      }
      if prefix !in plan {
        plan := plan + [prefix];
      }
    }
    r := Ok(plan);
    CoverageIsKept(destinations, plan);
    forall p | p in plan
      ensures p.IsCanonical() && forall i :: 0 <= i < |excluded| ==> !Clashes(p, excluded[i])
    {
      CanonicalMeans(p);
      var k :| 0 <= k < |destinations| && p == destinations[k].Masked();
      forall i | 0 <= i < |excluded| ensures !Clashes(p, excluded[i]) {
        MaskedClash(destinations[k], excluded[i]);
      }
    }
  }

  lemma MaskedClash(p: Prefix, relay: RelayAddr)
    ensures Clashes(p.Masked(), relay) <==> Clashes(p, relay)
  {
    MaskedIsIdempotent(p);
  }

  lemma CoverageIsKept(destinations: seq<Prefix>, plan: seq<Prefix>)
    requires forall i :: 0 <= i < |destinations| ==> destinations[i].Masked() in plan
    requires forall p :: p in plan ==> exists i :: 0 <= i < |destinations| && p == destinations[i].Masked()
    ensures forall a :: Covers(plan, a) <==> Covers(destinations, a)
  {
    forall a
      ensures Covers(plan, a) <==> Covers(destinations, a)
    {
      if p :| p in plan && Inside(a, p) {
        var i :| 0 <= i < |destinations| && p == destinations[i].Masked();
        MaskedIsIdempotent(destinations[i]);
        assert destinations[i] in destinations;
      }
      if p :| p in destinations && Inside(a, p) {
        var i :| 0 <= i < |destinations| && destinations[i] == p;
        MaskedIsIdempotent(p);
        assert p.Masked() in plan;
      }
    }
  }

  /** A destination that contains a relay's address is accepted if and only if the address has a zone that
      unmapping does not drop. */
  lemma ZonedRelayPasses(destination: Prefix, relay: RelayAddr)
    requires destination.len != 0 && Inside(Unmapped(relay), destination)
    ensures Acceptable(destination, [relay]) <==> relay.zoned && !CarriesV4(relay.addr)
  {
    assert [relay][0] == relay;
  }
}
