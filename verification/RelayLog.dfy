/** What can happen to the relay's router, and what a log of its answers tells. */
module RelayLogs {
  import opened Common
  import opened PathSessions
  import opened HelloLedgers
  import opened TokenBuckets
  import opened Relays

  /** What can happen to the router. `session` picks one of the sessions accepted so far, also one that has
      left since. */
  datatype Event =
    | Greeting(hello: Hello, source: Source, authentic: bool, admitted: bool, key: nat, allowAdditional: bool,
               written: bool, now: int)
    | Repeat(hello: Hello, source: Source, now: int)
    | Departure(session: nat, now: int)
    | Request(session: nat, source: Source, nonce: nat, now: int)
    | Response(session: nat, source: Source, cookie: Cookie, nonce: nat, now: int)
    | Check(session: nat, source: Source, now: int)
    | Traffic(session: nat, source: Source, now: int)
    | Shutdown(now: int)

  /** An event, whether it was granted, whose tombstone made way for another, whether it was refused for its rate,
      and which path of its session made way for another. */
  datatype Done = Done(event: Event, ok: bool, evicted: Option<nat>, limited: bool := false,
                       victim: Option<Source> := None)

  ghost function Front(log: seq<Done>): seq<Done>
    requires log != []
  {
    log[..|log| - 1]
  }

  ghost function Back(log: seq<Done>): Done
    requires log != []
  {
    log[|log| - 1]
  }

  // ----- what a log says of a hello -----

  predicate Opens(d: Done, hello: Hello) {
    d.ok && d.event.Greeting? && d.event.hello == hello
  }

  predicate Acknowledges(d: Done, hello: Hello) {
    Opens(d, hello) || (d.ok && d.event.Repeat? && d.event.hello == hello)
  }

  /** How many sessions the hello opened. */
  ghost function Openings(log: seq<Done>, hello: Hello): nat {
    if log == [] then 0 else Openings(Front(log), hello) + if Opens(Back(log), hello) then 1 else 0
  }

  /** How many acknowledgements it got. */
  ghost function Acks(log: seq<Done>, hello: Hello): nat {
    if log == [] then 0 else Acks(Front(log), hello) + if Acknowledges(Back(log), hello) then 1 else 0
  }

  /** The hello's own tombstone made way, while the hello was alive, after it last opened a session. */
  ghost predicate ExposedSince(log: seq<Done>, hello: Hello) {
    && log != [] && !Opens(Back(log), hello)
    && (Exposes(hello, Back(log).event.now, Back(log).evicted) || ExposedSince(Front(log), hello))
  }

  /** Whenever the hello opens a session again, its tombstone was evicted in the meantime. */
  ghost predicate Excused(log: seq<Done>, hello: Hello) {
    forall i :: 0 <= i < |log| ==>
      (Opens(log[i], hello) && Openings(log[..i], hello) > 0 ==> ExposedSince(log[..i], hello))
  }

  /** Between two sessions of one hello lies an eviction of its tombstone. */
  lemma {:induction false} EvictionBetween(log: seq<Done>, hello: Hello, i: nat, j: nat) returns (k: nat)
    requires i < j <= |log| && Opens(log[i], hello) && ExposedSince(log[..j], hello)
    ensures i < k < j && Exposes(hello, log[k].event.now, log[k].evicted)
  {
    var front := log[..j];
    assert Back(front) == log[j - 1] && Front(front) == log[..j - 1];
    if Exposes(hello, log[j - 1].event.now, log[j - 1].evicted) {
      k := j - 1;
    } else {
      k := EvictionBetween(log, hello, i, j - 1);
    }
  }

  /** The clock readings never go back. */
  ghost predicate Ordered(start: int, log: seq<Done>) {
    log == [] || (Ordered(start, Front(log)) && Latest(start, Front(log)) <= Back(log).event.now)
  }

  ghost function Latest(start: int, log: seq<Done>): int {
    if log == [] then start else Max(Latest(start, Front(log)), Back(log).event.now)
  }

  /** The ledger is what the log says. */
  ghost predicate Booked(watch: Hello, start: int, log: seq<Done>, ledger: Ledger) {
    && ledger.sessions == Openings(log, watch) && ledger.acks == Acks(log, watch)
    && ledger.clock <= Latest(start, log)
    && (Ordered(start, log) ==>
          && ledger.forward && Excused(log, watch)
          && (ledger.exposed && ledger.sessions > 0 ==> ExposedSince(log, watch)))
  }

  /** What an event does to the ledger. */
  ghost predicate Books(watch: Hello, d: Done, before: Ledger, after: Ledger) {
    && after.sessions == before.sessions + (if Opens(d, watch) then 1 else 0)
    && after.acks == before.acks + (if Acknowledges(d, watch) then 1 else 0)
    && (after.exposed ==> !Opens(d, watch) && (before.exposed || Exposes(watch, d.event.now, d.evicted)))
    && after.Since(before, d.event.now)
    && (Opens(d, watch) && before.sessions > 0 && before.forward && before.clock <= d.event.now ==> before.exposed)
  }

  lemma BookingKeepsBooked(watch: Hello, start: int, log: seq<Done>, d: Done, before: Ledger, after: Ledger)
    requires Booked(watch, start, log, before) && Books(watch, d, before, after)
    ensures Booked(watch, start, log + [d], after)
  {
    var more := log + [d];
    assert Front(more) == log && Back(more) == d;
    if Ordered(start, more) {
      forall i | 0 <= i < |more| && Opens(more[i], watch) && Openings(more[..i], watch) > 0
        ensures ExposedSince(more[..i], watch)
      {
        assert more[..i] == if i < |log| then log[..i] else log;
      }
    }
  }

  // ----- what a log says of the sessions -----

  /** The greeting's session stays. */
  predicate Accepts(d: Done) {
    d.ok && d.event.Greeting? && d.event.written
  }

  predicate About(e: Event, n: nat) {
    (e.Departure? || e.Request? || e.Response? || e.Check? || e.Traffic?) && e.session == n
  }

  ghost function Accepted(log: seq<Done>): nat {
    if log == [] then 0 else Accepted(Front(log)) + if Accepts(Back(log)) then 1 else 0
  }

  /** Where replies to a session go: to the source of its greeting or, from then on, of the last response
      that was accepted. */
  ghost function ActiveOf(log: seq<Done>, n: nat): Source
    requires n < Accepted(log)
  {
    var d := Back(log);
    if n == Accepted(Front(log)) || (d.ok && d.event.Response? && d.event.session == n) then d.event.source
    else ActiveOf(Front(log), n)
  }

  /** When a cookie was accepted for a session. */
  ghost function UsesOf(log: seq<Done>, n: nat, cookie: Cookie): seq<int> {
    if log == [] then []
    else
      var d := Back(log);
      UsesOf(Front(log), n, cookie)
      + if d.ok && d.event.Response? && d.event.session == n && d.event.cookie == cookie then [d.event.now] else []
  }

  /** The challenges a session asked for while it could get any, and whether it got them. */
  ghost function CallsOf(log: seq<Done>, n: nat): seq<Call> {
    if log == [] then []
    else
      var d := Back(log);
      CallsOf(Front(log), n)
      + if d.event.Request? && d.event.session == n && (d.ok || d.limited)
        then [Call(Seconds(d.event.now), 1.0, d.ok)] else []
  }

  /** The paths of a session. */
  ghost function PathsOf(log: seq<Done>, n: nat): map<Source, Path>
    requires n < Accepted(log)
  {
    var d := Back(log);
    if n == Accepted(Front(log)) then map[d.event.source := Path(d.event.now, d.event.now)]
    else if About(d.event, n) then PathsAfter(PathsOf(Front(log), n), ActiveOf(Front(log), n), d)
    else PathsOf(Front(log), n)
  }

  ghost function PathsAfter(paths: map<Source, Path>, active: Source, d: Done): map<Source, Path> {
    match d.event
    case Response(_, source, _, _, now) =>
      if d.ok && active in paths && d.victim != Some(active) then Switched(paths, active, source, now, d.victim)
      else paths
    case Check(_, source, now) => Current(paths, active, now)
    case Traffic(_, source, now) =>
      if source in paths then paths[source := paths[source].(lastSeen := now)] else paths
    case _ => paths
  }

  /** When a session was opened. */
  ghost function OpenedAt(log: seq<Done>, n: nat): int
    requires n < Accepted(log)
  {
    if n == Accepted(Front(log)) then Back(log).event.now else OpenedAt(Front(log), n)
  }

  /** What an event does to the session it is about. */
  ghost predicate Advances(d: Done, watch: Cookie, before: Story, after: Story) {
    && after.active == (if d.ok && d.event.Response? then d.event.source else before.active)
    && after.paths == PathsAfter(before.paths, before.active, d)
    && after.uses == before.uses + (if d.ok && d.event.Response? && d.event.cookie == watch then [d.event.now] else [])
    && after.calls == before.calls + (if d.event.Request? && (d.ok || d.limited)
                                      then [Call(Seconds(d.event.now), 1.0, d.ok)] else [])
    && after.last <= Max(before.last, d.event.now)
    && (before.forward && before.last <= d.event.now ==> after.forward)
  }

  /** A request's nonce begins with the second it was made in: at most one ahead and ten behind. */
  ghost predicate InSeason(nonce: nat, now: int) {
    var second := nonce / 18_446_744_073_709_551_616;
    second < 9_223_372_036_854_775_808 && (second - 1) * 1_000_000_000 <= now <= (second + 10) * 1_000_000_000
  }

  /** What the answer has to do with the session: traffic is taken on its paths; a check succeeds for the active one
      and those last seen less than 45 seconds ago; a request that gets as far as the rate is granted exactly when
      what was granted leaves room for it; and a new path displaces another one only when it has to. */
  ghost predicate Right(d: Done, openedAt: real, story: Story) {
    && story.active in story.paths && (d.limited ==> d.event.Request? && !d.ok)
    && match d.event
       case Check(_, source, now) =>
         d.ok <==> || source == story.active
                   || (source in story.paths && now - story.paths[source].lastSeen < 45_000_000_000)
       case Traffic(_, source, _) => d.ok <==> source in story.paths
       case Request(_, source, nonce, now) =>
         d.ok || d.limited ==>
           && InSeason(nonce, now) && source != story.active
           && (d.ok <==> Affords(2.0, 8.0, openedAt, story.calls, Seconds(now), 1.0))
       case Response(_, source, cookie, _, now) =>
         d.ok ==> Timely(cookie, now) && MakesWay(story.paths, story.active, source, now, d.victim)
       case _ => true
  }

  /** What it does to all of them. */
  ghost predicate Moves(d: Done, accepted: seq<Session>, before: seq<Story>, after: seq<Story>)
    requires |accepted| == |before|
  {
    && |after| == |before| + (if Accepts(d) then 1 else 0)
    && (Accepts(d) ==> after[|before|] == NewStory(d.event.source, d.event.now))
    && forall n :: 0 <= n < |before| ==>
         if About(d.event, n) then Advances(d, accepted[n].watch, before[n], after[n]) else after[n] == before[n]
  }

  /** A session's story is what the log says. */
  ghost predicate Tells(start: int, log: seq<Done>, n: nat, watch: Cookie, story: Story) {
    && n < Accepted(log) && story.active == ActiveOf(log, n) && story.uses == UsesOf(log, n, watch)
    && story.paths == PathsOf(log, n) && story.calls == CallsOf(log, n)
    && story.last <= Latest(start, log)
    && (Ordered(start, log) ==> story.forward)
  }

  ghost predicate AllTell(start: int, log: seq<Done>, cookie: Cookie, accepted: seq<Session>, stories: seq<Story>) {
    && |accepted| == |stories| == Accepted(log)
    && forall n :: 0 <= n < |stories| ==>
         && Tells(start, log, n, cookie, stories[n])
         && accepted[n].watch == cookie && accepted[n].openedAt == Seconds(OpenedAt(log, n))
  }

  /** What is granted to a session is granted to one accepted before. */
  ghost predicate Grounded(log: seq<Done>) {
    log == [] || (Grounded(Front(log)) && InRange(Back(log), Accepted(Front(log))))
  }

  predicate InRange(d: Done, accepted: nat) {
    (d.ok || d.limited) && (d.event.Request? || d.event.Response? || d.event.Check? || d.event.Traffic?) ==>
      d.event.session < accepted
  }

  lemma {:induction false} NothingYet(log: seq<Done>, n: nat, cookie: Cookie)
    requires Grounded(log) && n >= Accepted(log)
    ensures UsesOf(log, n, cookie) == [] && CallsOf(log, n) == []
  {
    if log != [] {
      NothingYet(Front(log), n, cookie);
    }
  }

  lemma MovingKeepsTold(start: int, log: seq<Done>, cookie: Cookie, d: Done, accepted: seq<Session>, before: seq<Story>,
                        more: seq<Session>, after: seq<Story>)
    requires AllTell(start, log, cookie, accepted, before) && Grounded(log) && InRange(d, |accepted|)
    requires Moves(d, accepted, before, after) && accepted <= more && |more| == |after|
    requires Accepts(d) ==> more[|accepted|].watch == cookie && more[|accepted|].openedAt == Seconds(d.event.now)
    ensures AllTell(start, log + [d], cookie, more, after) && Grounded(log + [d])
  {
    var longer := log + [d];
    assert Front(longer) == log && Back(longer) == d;
    assert Accepted(longer) == |after|;
    forall n | 0 <= n < |after|
      ensures Tells(start, longer, n, cookie, after[n])
    {
      if n < |before| {
        assert Tells(start, log, n, cookie, before[n]);
      } else {
        NothingYet(log, n, cookie);
      }
    }
  }

  // ----- what a log says of paths and challenges -----

  /** When a source was last seen on a session, if it still is a path of it: it was brought in by the greeting or a
      response, and since then, at every check and response, it was active or last seen less than 45 seconds before,
      and it did not make way for another. */
  ghost function LastSeen(log: seq<Done>, n: nat, source: Source): Option<int>
    requires n < Accepted(log)
  {
    var d := Back(log);
    if n == Accepted(Front(log)) then if source == d.event.source then Some(d.event.now) else None
    else
      var before, active := LastSeen(Front(log), n, source), ActiveOf(Front(log), n);
      if !About(d.event, n) then before
      else
        var stays := before.Some? && (source == active || d.event.now - before.value < 45_000_000_000);
        match d.event
        case Response(_, s, _, _, now) =>
          if !d.ok then before
          else if source == s || source == active then Some(now)
          else if stays && d.victim != Some(source) then before
          else None
        case Check(_, _, _) => if stays then before else None
        case Traffic(_, s, now) => if source == s && before.Some? then Some(now) else before
        case _ => before
  }

  /** The answers about a session are those its log calls for. */
  ghost predicate Permits(log: seq<Done>, d: Done) {
    (d.event.Check? || d.event.Traffic? || d.event.Request? || d.event.Response?) && d.event.session < Accepted(log) ==>
      var n := d.event.session;
      match d.event
      case Check(_, source, now) =>
        d.ok <==> || source == ActiveOf(log, n)
                  || (LastSeen(log, n, source).Some? && now - LastSeen(log, n, source).value < 45_000_000_000)
      case Traffic(_, source, _) => d.ok <==> LastSeen(log, n, source).Some?
      case Request(_, source, nonce, now) =>
        d.ok || d.limited ==>
          && InSeason(nonce, now) && source != ActiveOf(log, n)
          && (d.ok <==> Affords(2.0, 8.0, Seconds(OpenedAt(log, n)), CallsOf(log, n), Seconds(now), 1.0))
      case Response(_, source, cookie, _, now) =>
        d.ok ==> Timely(cookie, now) && MakesWay(PathsOf(log, n), ActiveOf(log, n), source, now, d.victim)
  }

  ghost predicate AllPermitted(log: seq<Done>) {
    log == [] || (AllPermitted(Front(log)) && Permits(Front(log), Back(log)))
  }

  /** The paths of a session are the sources last seen on it. */
  ghost predicate SeenAre(paths: map<Source, Path>, source: Source, seen: Option<int>) {
    (source in paths <==> seen.Some?) && (seen.Some? ==> paths[source].lastSeen == seen.value)
  }

  lemma {:induction false} PathsAreSeen(log: seq<Done>, n: nat, source: Source)
    requires AllPermitted(log) && n < Accepted(log)
    ensures ActiveOf(log, n) in PathsOf(log, n) && SeenAre(PathsOf(log, n), source, LastSeen(log, n, source))
  {
    if n < Accepted(Front(log)) {
      PathsAreSeen(Front(log), n, source);
    }
  }

  /** A right answer is the one the log calls for. */
  lemma RightIsPermitted(log: seq<Done>, d: Done, story: Story)
    requires d.event.Check? || d.event.Traffic? || d.event.Request? || d.event.Response?
    requires AllPermitted(log) && d.event.session < Accepted(log)
    requires story.active == ActiveOf(log, d.event.session) && story.paths == PathsOf(log, d.event.session)
    requires story.calls == CallsOf(log, d.event.session)
    requires Right(d, Seconds(OpenedAt(log, d.event.session)), story)
    ensures Permits(log, d)
  {
    if d.event.Check? || d.event.Traffic? {
      PathsAreSeen(log, d.event.session, d.event.source);
    }
  }

  /** What a session was granted, counted. */
  ghost function ChallengesOf(log: seq<Done>, n: nat): nat {
    if log == [] then 0
    else
      var d := Back(log);
      ChallengesOf(Front(log), n) + if d.ok && d.event.Request? && d.event.session == n then 1 else 0
  }

  lemma {:induction false} CallsCount(start: int, log: seq<Done>, n: nat, openedAt: real)
    requires Grounded(log) && (n < Accepted(log) ==> openedAt == Seconds(OpenedAt(log, n)))
    ensures Cost(CallsOf(log, n)) == ChallengesOf(log, n) as real
    ensures n < Accepted(log) ==>
              TokenBuckets.Latest(openedAt, CallsOf(log, n)) <= Seconds(Latest(start, log))
    ensures n >= Accepted(log) ==> CallsOf(log, n) == []
  {
    if log != [] {
      var d, before := Back(log), CallsOf(Front(log), n);
      CallsCount(start, Front(log), n, openedAt);
      SecondsMax(Latest(start, Front(log)), d.event.now);
      if d.event.Request? && d.event.session == n && (d.ok || d.limited) {
        var call := Call(Seconds(d.event.now), 1.0, d.ok);
        OneMoreCall(0.0, openedAt, before, call);
        assert CallsOf(log, n) == before + [call];
      } else {
        assert CallsOf(log, n) == before;
      }
    }
  }

  // ----- what a log says of the relay's tables -----

  /** The greeting that made a session carried its id. */
  ghost function IdOf(log: seq<Done>, n: nat): nat
    requires n < Accepted(log)
  {
    if n == Accepted(Front(log)) then Back(log).event.hello.id else IdOf(Front(log), n)
  }

  /** The session that left with an event: one that departed, or one whose acknowledgement could not be
      written. */
  ghost function LeftId(log: seq<Done>, d: Done): Option<nat> {
    if d.ok && d.event.Greeting? && !d.event.written then Some(d.event.hello.id)
    else if d.ok && d.event.Departure? && d.event.session < Accepted(log) then Some(IdOf(log, d.event.session))
    else None
  }

  ghost predicate Stopped(log: seq<Done>) {
    log != [] && (Stopped(Front(log)) || Back(log).event.Shutdown?)
  }

  /** The sessions that are registered. */
  ghost function LiveIds(log: seq<Done>): set<nat> {
    if log == [] then {} else AfterLive(LiveIds(Front(log)), Back(log), LeftId(Front(log), Back(log)))
  }

  ghost function AfterLive(live: set<nat>, d: Done, left: Option<nat>): set<nat> {
    if d.event.Shutdown? then {}
    else if Accepts(d) then live + {d.event.hello.id}
    else if d.event.Departure? && left.Some? then live - {left.value}
    else live
  }

  /** The sources that a greeting or a response granted brought in; every source in use is one of them. */
  ghost function Sources(log: seq<Done>): set<Source> {
    if log == [] then {} else Sources(Front(log)) + if Brings(Back(log)) then {Back(log).event.source} else {}
  }

  predicate Brings(d: Done) {
    d.ok && (d.event.Greeting? || d.event.Response?)
  }

  /** A greeting whose hello is looked at: one that has a nonce and a time at which it expires, which has not passed
      and is no more than thirty seconds ahead. */
  ghost predicate Authentic(e: Event) {
    && e.Greeting? && e.authentic && e.admitted && e.hello.nonce > 0 && e.hello.unixMilli > 0
    && e.now < e.hello.unixMilli * 1_000_000 <= e.now + 30_000_000_000
  }

  ghost predicate Named(source: Source) {
    source.network != "" && source.address != ""
  }

  /** The tombstones. */
  ghost function TombsOf(log: seq<Done>): map<nat, int> {
    if log == [] then map[]
    else AfterTombs(TombsOf(Front(log)), Back(log), LeftId(Front(log), Back(log)), Stopped(Front(log)))
  }

  ghost function AfterTombs(tombstones: map<nat, int>, d: Done, left: Option<nat>, closed: bool): map<nat, int> {
    if left.Some? || (Authentic(d.event) && !closed) then Entombed(tombstones, d.event.now, left, d.evicted)
    else tombstones
  }

  /** What is known of the tables. */
  datatype Tables = Tables(live: set<nat>, sources: set<Source>, tombstones: map<nat, int>, closed: bool)

  /** What an event does to the tables, and what they have to do with the answer: a greeting is granted exactly
      when it is authentic and the tables have nothing against it, and a tombstone makes way only for another
      one in a full table, the first to expire. */
  ghost predicate Alters(d: Done, left: Option<nat>, t: Tables, t': Tables) {
    match t
    case Tables(live, sources, tombstones, closed) =>
      && t'.live == AfterLive(live, d, left)
      && t'.tombstones == AfterTombs(tombstones, d, left, closed)
      && t'.closed == (closed || d.event.Shutdown?)
      && (forall s :: s in t'.sources ==> s in sources || (Brings(d) && s == d.event.source))
      && (if left.Some? then Evicts(tombstones, d.event.now, d.evicted) else d.evicted == None)
      && (d.event.Shutdown? ==> d.ok)
      && (d.event.Greeting? ==>
            (d.ok <==> && Authentic(d.event) && Named(d.event.source) && !closed && d.event.hello.id !in live
                       && !Blocks(tombstones, d.event.hello.id, d.event.now) && d.event.source !in sources))
  }

  /** The answer is right, as far as the log can tell. */
  ghost predicate Answered(log: seq<Done>, d: Done) {
    && (if LeftId(log, d).Some? then Evicts(TombsOf(log), d.event.now, d.evicted) else d.evicted == None)
    && (d.event.Shutdown? ==> d.ok)
    && (d.event.Greeting? ==>
          (d.ok ==> Welcome(log, d.event)) && (Welcome(log, d.event) ==> d.ok || d.event.source in Sources(log)))
  }

  /** A greeting that nothing is against but, perhaps, that its source is in use. */
  ghost predicate Welcome(log: seq<Done>, e: Event) {
    && Authentic(e) && Named(e.source) && !Stopped(log) && e.hello.id !in LiveIds(log)
    && !Blocks(TombsOf(log), e.hello.id, e.now)
  }

  ghost predicate AllAnswered(log: seq<Done>) {
    forall i :: 0 <= i < |log| ==> Answered(log[..i], log[i])
  }

  /** The tables are what the log says. */
  ghost predicate Mirrors(log: seq<Done>, accepted: seq<Session>, t: Tables) {
    && t.live == LiveIds(log) && t.sources <= Sources(log) && t.tombstones == TombsOf(log) && t.closed == Stopped(log)
    && |accepted| == Accepted(log) && (forall n :: 0 <= n < |accepted| ==> accepted[n].id == IdOf(log, n))
    && AllAnswered(log)
  }

  lemma AllAnsweredAppend(log: seq<Done>, d: Done)
    requires AllAnswered(log) && Answered(log, d)
    ensures AllAnswered(log + [d])
  {
    forall i | 0 <= i < |log + [d]|
      ensures Answered((log + [d])[..i], (log + [d])[i])
    {
      if i < |log| {
        assert (log + [d])[..i] == log[..i];
      } else {
        assert (log + [d])[..i] == log;
      }
    }
  }

  lemma AlteringKeepsMirrored(log: seq<Done>, d: Done, accepted: seq<Session>, more: seq<Session>, t: Tables,
                              t': Tables)
    requires Mirrors(log, accepted, t) && Alters(d, LeftId(log, d), t, t')
    requires accepted <= more && |more| == |accepted| + if Accepts(d) then 1 else 0
    requires Accepts(d) ==> more[|accepted|].id == d.event.hello.id
    ensures Mirrors(log + [d], more, t')
  {
    AllAnsweredAppend(log, d);
    assert Front(log + [d]) == log && Back(log + [d]) == d;
  }

  // ----- one hello, one session -----

  /** The ids that were closed after a moment. */
  ghost function ClosedSince(log: seq<Done>, from: int): set<nat> {
    if log == [] then {}
    else
      var left := LeftId(Front(log), Back(log));
      ClosedSince(Front(log), from) + if left.Some? && Back(log).event.now > from then {left.value} else {}
  }

  /** How many sessions were. */
  ghost function ClosingsSince(log: seq<Done>, from: int): nat {
    if log == [] then 0
    else
      ClosingsSince(Front(log), from)
      + if LeftId(Front(log), Back(log)).Some? && Back(log).event.now > from then 1 else 0
  }

  lemma {:induction false} ClosedAtMostClosings(log: seq<Done>, from: int)
    ensures |ClosedSince(log, from)| <= ClosingsSince(log, from)
  {
    if log != [] {
      ClosedAtMostClosings(Front(log), from);
    }
  }

  /** A tombstone that has not expired is of a session closed within its lifetime. */
  lemma {:induction false} TombsAreRecent(log: seq<Done>, from: int, id: nat)
    requires id in TombsOf(log) && TombsOf(log)[id] > from + HANDSHAKE_TIMEOUT
    ensures id in ClosedSince(log, from)
  {
    var left := LeftId(Front(log), Back(log));
    if !(left == Some(id) && Back(log).event.now > from) {
      TombsAreRecent(Front(log), from, id);
    }
  }

  /** A tombstone makes way only if 4096 different sessions were closed within a tombstone's lifetime. */
  ghost predicate FullIfEvicting(log: seq<Done>, d: Done) {
    d.evicted.Some? ==> |ClosedSince(log, d.event.now - HANDSHAKE_TIMEOUT)| >= MAX_TOMBSTONES
  }

  lemma EvictionNeedsClosings(log: seq<Done>, d: Done)
    requires Answered(log, d)
    ensures FullIfEvicting(log, d)
  {
    var kept, closed := Unexpired(TombsOf(log), d.event.now), ClosedSince(log, d.event.now - HANDSHAKE_TIMEOUT);
    forall id | id in kept
      ensures id in closed
    {
      TombsAreRecent(log, d.event.now - HANDSHAKE_TIMEOUT, id);
    }
    SubsetSize(kept.Keys, closed);
    assert |kept| == |kept.Keys|;
  }

  ghost predicate EvictsWhenFull(log: seq<Done>) {
    forall i :: 0 <= i < |log| ==> FullIfEvicting(log[..i], log[i])
  }

  /** No more than 4096 sessions close within a tombstone's lifetime. */
  ghost predicate Calm(log: seq<Done>) {
    forall i :: 0 <= i < |log| && LeftId(log[..i], log[i]).Some? ==>
      ClosingsSince(log[..i], log[i].event.now - HANDSHAKE_TIMEOUT) < MAX_TOMBSTONES
  }

  lemma CalmEvictsNothing(log: seq<Done>, i: nat)
    requires AllAnswered(log) && Calm(log) && i < |log|
    ensures log[i].evicted == None
  {
    assert Answered(log[..i], log[i]);
    if log[i].evicted.Some? {
      EvictionNeedsClosings(log[..i], log[i]);
      ClosedAtMostClosings(log[..i], log[i].event.now - HANDSHAKE_TIMEOUT);
    }
  }

  lemma {:induction false} NeverExposed(log: seq<Done>, hello: Hello)
    requires forall i :: 0 <= i < |log| ==> log[i].evicted == None
    ensures !ExposedSince(log, hello)
  {
    if log != [] {
      NeverExposed(Front(log), hello);
    }
  }

  /** Then no hello ever opens a second session. */
  lemma {:induction false} OpensOnce(log: seq<Done>, hello: Hello)
    requires Excused(log, hello) && forall i :: 0 <= i < |log| ==> log[i].evicted == None
    ensures Openings(log, hello) <= 1
  {
    if log != [] {
      var front, n := Front(log), |log| - 1;
      assert forall i :: 0 <= i < n ==> front[i] == log[i] && front[..i] == log[..i];
      OpensOnce(front, hello);
      NeverExposed(front, hello);
      assert log[..n] == front;
    }
  }

  lemma CalmOpensOnce(log: seq<Done>, hello: Hello)
    requires AllAnswered(log) && Calm(log) && Excused(log, hello)
    ensures Openings(log, hello) <= 1
  {
    forall i | 0 <= i < |log|
      ensures log[i].evicted == None
    {
      CalmEvictsNothing(log, i);
    }
    OpensOnce(log, hello);
  }

  /** What a log tells of a hello. */
  ghost predicate Limited(start: int, log: seq<Done>, hello: Hello) {
    && Acks(log, hello) <= 4 * Openings(log, hello)
    && (Ordered(start, log) ==> Excused(log, hello) && (Calm(log) ==> Openings(log, hello) <= 1))
  }

  lemma HelloIsLimited(start: int, log: seq<Done>, hello: Hello, ledger: Ledger)
    requires Booked(hello, start, log, ledger) && ledger.acks <= 4 * ledger.sessions && AllAnswered(log)
    ensures Limited(start, log, hello)
  {
    if Ordered(start, log) && Calm(log) {
      CalmOpensOnce(log, hello);
    }
  }

  lemma OnlyFullEvicts(log: seq<Done>)
    requires AllAnswered(log)
    ensures EvictsWhenFull(log)
  {
    forall i | 0 <= i < |log|
      ensures FullIfEvicting(log[..i], log[i])
    {
      EvictionNeedsClosings(log[..i], log[i]);
    }
  }

  // ----- what events do, as values -----

  /** A session that leaves, and the ledger and the tables with it. */
  lemma DepartureBooks(watch: Hello, d: Done, id: nat, before: Ledger, after: Ledger)
    requires d.event.Departure? && after == if d.ok then before.Closing(watch, id, d.event.now, d.evicted) else before
    ensures Books(watch, d, before, after)
  {
  }

  lemma DepartureAlters(d: Done, id: nat, t: Tables, t': Tables)
    requires d.event.Departure? && t'.closed == t.closed && t'.sources <= t.sources
    requires if d.ok
             then
               && t'.live == t.live - {id} && Evicts(t.tombstones, d.event.now, d.evicted)
               && t'.tombstones == Entombed(t.tombstones, d.event.now, Some(id), d.evicted)
             else t' == t && d.evicted == None
    ensures Alters(d, if d.ok then Some(id) else None, t, t')
  {
  }

  /** A greeting's effect on the ledger. */
  lemma GreetingBooks(watch: Hello, d: Done, before: Ledger, after: Ledger)
    requires d.event.Greeting? && ((d.ok && !d.event.written) || d.evicted == None)
    requires after == Greeted(before, watch, d.event.hello, d.ok, d.event.written, d.event.now, d.evicted)
             || (after == before && !d.ok)
    requires Opens(d, watch) && before.sessions > 0 && before.forward && before.clock <= d.event.now ==> before.exposed
    ensures Books(watch, d, before, after)
  {
  }

  lemma GreetingAlters(d: Done, t: Tables, t': Tables)
    requires d.event.Greeting? && t'.closed == t.closed
    requires t'.live == t.live + if Accepts(d) then {d.event.hello.id} else {}
    requires forall s :: s in t'.sources ==> s in t.sources || (d.ok && s == d.event.source)
    requires if d.ok && !d.event.written then Evicts(t.tombstones, d.event.now, d.evicted) else d.evicted == None
    requires t'.tombstones == AfterTombs(t.tombstones, d,
                                         if d.ok && !d.event.written then Some(d.event.hello.id) else None, t.closed)
    requires d.ok <==> && Authentic(d.event) && Named(d.event.source) && !t.closed && d.event.hello.id !in t.live
                       && !Blocks(t.tombstones, d.event.hello.id, d.event.now) && d.event.source !in t.sources
    ensures Alters(d, if d.ok && !d.event.written then Some(d.event.hello.id) else None, t, t')
  {
  }
}
