/** One session of the relay: the source addresses it may use, the one replies go to, the path cookies it
    has consumed and its allowance of path requests. Times are in nanoseconds. */
module PathSessions {
  import opened Common
  import opened TokenBuckets

  const SECOND := 1_000_000_000
  const MAX_PATHS := 8
  const MAX_COOKIES := 64
  const CHALLENGE_LIFETIME := 5 * SECOND
  const PATH_LIFETIME := 45 * SECOND
  const REQUEST_BURST := 8.0
  const REQUESTS_PER_SECOND := 2.0

  datatype Source = Source(network: string, address: string)

  datatype Path = Path(authenticatedAt: int, lastSeen: int)

  /** A path cookie: the second it was issued in, and eight bytes of authentication tag. */
  datatype Cookie = Cookie(issued: nat, tag: nat)

  /** The keyed tag over session, source, client nonce and issue second. */
  type Tagger = (nat, nat, Source, nat, nat) -> nat

  function IssueCookie(tag: Tagger, key: nat, id: nat, source: Source, nonce: nat, now: nat): Cookie {
    Cookie(now / SECOND, tag(key, id, source, nonce, now / SECOND))
  }

  /** The age test: issued at most a second ahead, and no older than the challenge lifetime. */
  predicate InTime(cookie: Cookie, now: int) {
    && cookie.issued < 0x8000_0000_0000_0000
    && cookie.issued * SECOND <= now + SECOND && now - cookie.issued * SECOND <= CHALLENGE_LIFETIME
  }

  predicate Bound(tag: Tagger, cookie: Cookie, key: nat, id: nat, source: Source, nonce: nat) {
    cookie.tag == tag(key, id, source, nonce, cookie.issued)
  }

  /** A cookie passes from a second before the second it was issued in until five seconds after it. */
  ghost predicate Timely(cookie: Cookie, now: int) {
    && cookie.issued * 1_000_000_000 - 1_000_000_000 <= now <= cookie.issued * 1_000_000_000 + 5_000_000_000
    && cookie.issued < 9_223_372_036_854_775_808
  }

  /** So a cookie sent back by the source it was issued to passes for four seconds at least, and six at most. */
  lemma IssuedCookiePasses(tag: Tagger, key: nat, id: nat, source: Source, nonce: nat, now: nat, later: nat)
    requires now <= later && now < 0x8000_0000_0000_0000
    ensures var cookie := IssueCookie(tag, key, id, source, nonce, now);
            && cookie.tag == tag(key, id, source, nonce, cookie.issued) && Bound(tag, cookie, key, id, source, nonce)
            && cookie.issued * 1_000_000_000 <= now < (cookie.issued + 1) * 1_000_000_000
            && (later <= now + 4_000_000_000 ==> InTime(cookie, later))
            && (later > now + 5_000_000_000 ==> !InTime(cookie, later))
            && (InTime(cookie, later) <==> Timely(cookie, later))
  {
    assert now / SECOND * SECOND <= now < now / SECOND * SECOND + SECOND;
  }

  // ----- tables with an expiry -----

  ghost function Unexpired<K>(table: map<K, int>, now: int): map<K, int> {
    map key | key in table && now < table[key] :: table[key]
  }

  /** The loop that deletes the expired entries of a table. */
  method DropExpired<K>(table: map<K, int>, now: int) returns (kept: map<K, int>)
    ensures kept == Unexpired(table, now) && |kept| <= |table|
  {
    kept := table;
    var todo := table.Keys;
    while todo != {}
      invariant todo <= kept.Keys <= table.Keys && |kept| <= |table|
      invariant forall key :: key in kept ==> kept[key] == table[key]
      invariant forall key :: key in table ==> (key in kept <==> key in todo || now < table[key])
      decreases todo
    {
      var key :| key in todo;
      todo := todo - {key};
      if !(now < kept[key]) {
        kept := kept - {key};
      }
    }
  }

  // ----- path tables -----

  predicate Stale(path: Path, now: int) {
    now - path.lastSeen >= PATH_LIFETIME
  }

  /** The paths last seen less than 45 seconds ago, and the active one. */
  ghost function Current(paths: map<Source, Path>, active: Source, now: int): map<Source, Path> {
    map source | source in paths && (source == active || now - paths[source].lastSeen < 45_000_000_000) :: paths[source]
  }

  /** The loop that deletes stale paths, never the active one. */
  method DropStale(paths: map<Source, Path>, active: Source, now: int) returns (kept: map<Source, Path>)
    ensures kept == Current(paths, active, now) && |kept| <= |paths|
    ensures forall s :: s in kept <==> s in paths && (s == active || now - paths[s].lastSeen < 45_000_000_000)
  {
    kept := paths;
    var todo := paths.Keys;
    while todo != {}
      invariant todo <= kept.Keys <= paths.Keys && |kept| <= |paths|
      invariant forall s :: s in kept ==> kept[s] == paths[s]
      invariant forall s :: s in paths ==> (s in kept <==> s in todo || s == active || !Stale(paths[s], now))
      decreases todo
    {
      var s :| s in todo;
      todo := todo - {s};
      if s != active && Stale(kept[s], now) {
        kept := kept - {s};
      }
    }
  }

  /** The least recently seen path other than the active one. */
  method OldestInactive(paths: map<Source, Path>, active: Source) returns (oldest: Option<Source>)
    ensures oldest.None? <==> paths.Keys <= {active}
    ensures oldest.Some? ==> oldest.value in paths && oldest.value != active
                             && forall s :: s in paths && s != active ==>
                                  paths[oldest.value].lastSeen <= paths[s].lastSeen
  {
    oldest := None;
    var todo := paths.Keys;
    while todo != {}
      invariant todo <= paths.Keys
      invariant oldest.None? ==> forall s :: s in paths ==> s in todo || s == active
      invariant oldest.Some? ==> oldest.value in paths && oldest.value != active
                                 && forall s :: s in paths && s != active ==>
                                      s in todo || paths[oldest.value].lastSeen <= paths[s].lastSeen
      decreases todo
    {
      var s :| s in todo;
      todo := todo - {s};
      if s != active && (oldest.None? || paths[s].lastSeen < paths[oldest.value].lastSeen) {
        oldest := Some(s);
      }
    }
  }

  lemma Crowded(paths: map<Source, Path>, active: Source)
    requires |paths| >= 2
    ensures !(paths.Keys <= {active})
  {
    var others := paths.Keys - {active};
    assert |paths.Keys| == |paths|;
    assert paths.Keys == others + (paths.Keys * {active}) && |paths.Keys * {active}| <= 1 by {
      assert paths.Keys * {active} == if active in paths then {active} else {};
    }
    assert others != {};
  }

  // ----- how often a cookie is used -----

  ghost predicate Spaced(watch: Cookie, uses: seq<int>, last: int) {
    && (forall i :: 0 <= i < |uses| ==> InTime(watch, uses[i]) && uses[i] <= last)
    && (forall i, j :: 0 <= i < j < |uses| ==> uses[i] + CHALLENGE_LIFETIME <= uses[j])
  }

  lemma StillSpaced(watch: Cookie, uses: seq<int>, last: int, now: int)
    requires Spaced(watch, uses, last) && InTime(watch, now) && last <= now
    requires uses != [] ==> uses[|uses| - 1] + CHALLENGE_LIFETIME <= now
    ensures Spaced(watch, uses + [now], now)
  {
    forall i | 0 <= i < |uses|
      ensures uses[i] + CHALLENGE_LIFETIME <= now
    {
      assert i < |uses| - 1 ==> uses[i] + CHALLENGE_LIFETIME <= uses[|uses| - 1];
    }
  }

  /** The acceptances of one cookie, in a run of responses whose clock did not go back: each in time, each
      at least a lifetime after the one before, and the used table remembers the last one until then. */
  ghost predicate UsesOk(watch: Cookie, cookies: map<Cookie, int>, uses: seq<int>, last: int) {
    && Spaced(watch, uses, last)
    && (watch in cookies ==> uses != [] && cookies[watch] == uses[|uses| - 1] + CHALLENGE_LIFETIME)
    && (uses != [] && watch !in cookies ==> uses[|uses| - 1] + CHALLENGE_LIFETIME <= last)
  }

  /** At most once: a cookie first accepted after its issue instant is never accepted again, and none is
      accepted three times. */
  lemma AtMostOnce(watch: Cookie, cookies: map<Cookie, int>, uses: seq<int>, last: int)
    requires UsesOk(watch, cookies, uses, last)
    ensures |uses| <= 2
    ensures uses != [] && uses[0] > watch.issued * SECOND ==> |uses| == 1
  {
    assert |uses| > 0 ==> InTime(watch, uses[0]);
    assert |uses| > 1 ==> uses[0] + CHALLENGE_LIFETIME <= uses[1] && InTime(watch, uses[1]);
  }

  /** The path that has to make way for a new one: none while there is room, and otherwise the least recently seen
      inactive one. */
  ghost predicate MakesWay(paths: map<Source, Path>, active: Source, source: Source, now: int, victim: Option<Source>) {
    var current := Current(paths, active, now);
    && (victim.Some? <==> source !in current && |current| >= 8)
    && (victim.Some? ==>
          && victim.value in current && victim.value != active
          && forall s :: s in current && s != active ==> current[victim.value].lastSeen <= current[s].lastSeen)
  }

  /** What a switch does to the paths: stale ones go, then if there is still no room the least recently seen
      inactive one; the path active until now is kept and counts as seen. */
  ghost function Switched(paths: map<Source, Path>, active: Source, source: Source, now: int,
                          victim: Option<Source>): map<Source, Path>
    requires active in paths && victim != Some(active)
  {
    var current := Current(paths, active, now);
    var roomy := if victim.Some? then current - {victim.value} else current;
    roomy[active := roomy[active].(lastSeen := now)][source := Path(now, now)]
  }

  /** A path that has just proved itself becomes active: stale paths go first, then if there is still no
      room the least recently seen inactive one. The path active until now is kept and counts as seen. */
  method SwitchPath(paths: map<Source, Path>, active: Source, source: Source, now: int)
    returns (paths': map<Source, Path>, victim: Option<Source>)
    requires active in paths && |paths| <= MAX_PATHS
    ensures |paths'| <= MAX_PATHS && MakesWay(paths, active, source, now, victim)
    ensures paths' == Switched(paths, active, source, now, victim)
  {
    var current := DropStale(paths, active, now);
    victim := None;
    var roomy := current;
    if source !in current && |current| >= MAX_PATHS {
      victim := OldestInactive(current, active);
      Crowded(current, active);
      roomy := current - {victim.value};
      assert current.Keys == roomy.Keys + {victim.value};
    }
    if active != source {
      roomy := roomy[active := roomy[active].(lastSeen := now)];
    }
    paths' := Added(roomy, source, Path(now, now));
  }

  method Added(paths: map<Source, Path>, source: Source, path: Path) returns (paths': map<Source, Path>)
    requires |paths| <= MAX_PATHS && (source !in paths ==> |paths| < MAX_PATHS)
    ensures paths' == paths[source := path] && |paths'| <= MAX_PATHS
  {
    paths' := paths[source := path];
    assert paths'.Keys == paths.Keys + {source};
    assert |paths'.Keys| == |paths'| && |paths.Keys| == |paths|;
  }

  /** Consuming a cookie, after the expired ones are gone, keeps the account of its uses. */
  lemma ConsumingKeepsUses(watch: Cookie, cookies: map<Cookie, int>, uses: seq<int>, last: int, cookie: Cookie,
                           now: int)
    requires UsesOk(watch, cookies, uses, last) && last <= now && InTime(cookie, now)
    ensures UsesOk(watch, Unexpired(cookies, now), uses, now)
    ensures cookie !in Unexpired(cookies, now) ==>
              UsesOk(watch, Unexpired(cookies, now)[cookie := now + CHALLENGE_LIFETIME],
                     if cookie == watch then uses + [now] else uses, now)
  {
    if cookie == watch && cookie !in Unexpired(cookies, now) {
      StillSpaced(watch, uses, last, now);
    }
  }

  /** A session's return path and paths, the times at which its watched cookie was used, the challenges it asked
      for, and how far its clock has got. */
  datatype Story = Story(active: Source, paths: map<Source, Path>, uses: seq<int>, calls: seq<Call>, last: int,
                         forward: bool)

  function NewStory(source: Source, now: int): Story {
    Story(source, map[source := Path(now, now)], [], [], now, true)
  }

  /** Everything about a session that changes. */
  datatype State = State(cookies: map<Cookie, int>, bucket: Bucket, story: Story)

  function NewState(source: Source, now: int): State {
    State(map[], Full(REQUESTS_PER_SECOND, REQUEST_BURST, Seconds(now)), NewStory(source, now))
  }

  class Session {
    const id: nat
    const key: nat
    const allowAdditional: bool

    var paths: map<Source, Path>
    var active: Source
    var cookies: map<Cookie, int>
    var bucket: Bucket

    /** The watched cookie, when it was accepted, and whether the clock of responses has only gone forward. */
    ghost const watch: Cookie
    ghost var uses: seq<int>
    ghost var last: int
    ghost var forward: bool
    /** Challenges asked for since the session was opened. */
    ghost const openedAt: real
    ghost var calls: seq<Call>

    ghost predicate Valid()
      reads this
    {
      && active in paths && |paths| <= MAX_PATHS && |cookies| <= MAX_COOKIES
      && (forward ==> UsesOk(watch, cookies, uses, last))
      && bucket == Replay(REQUESTS_PER_SECOND, REQUEST_BURST, openedAt, calls)
      && Covered(REQUESTS_PER_SECOND, REQUEST_BURST, openedAt, calls)
    }

    /** What has happened to the session so far. */
    ghost function Told(): Story
      reads this
    {
      Story(active, paths, uses, calls, last, forward)
    }

    ghost function Now(): State
      reads this
    {
      State(cookies, bucket, Told())
    }

    lemma NewIsValid(source: Source, now: int)
      requires Now() == NewState(source, now) && openedAt == Seconds(now)
      ensures Valid() && Told() == NewStory(source, now)
    {
      assert Told().paths == map[source := Path(now, now)] && active == Told().active == source;
      assert Told().uses == [] && Told().calls == [];
    }

    constructor (id: nat, key: nat, source: Source, allowAdditional: bool, now: int, ghost watch: Cookie)
      ensures Valid() && this.id == id && this.key == key && this.allowAdditional == allowAdditional
      ensures this.watch == watch && Now() == NewState(source, now) && openedAt == Seconds(now)
    {
      this.id, this.key, this.allowAdditional := id, key, allowAdditional;
      paths, active, cookies := map[source := Path(now, now)], source, map[];
      bucket := Full(REQUESTS_PER_SECOND, REQUEST_BURST, Seconds(now));
      this.watch, uses, last, forward, calls, openedAt := watch, [], now, true, [], Seconds(now);
    }

    /** A path request uses a token, of eight that come back at two a second: it is granted exactly when, since the
        session was opened and since every request, what was granted stays within that. */
    method ConsumeToken(now: int) returns (ok: bool)
      requires Valid()
      modifies `bucket, `calls
      ensures Valid() && calls == old(calls) + [Call(Seconds(now), 1.0, ok)]
      ensures ok <==> old(bucket).Refill(Seconds(now)).Covers(1.0)
      ensures ok <==> Affords(2.0, 8.0, openedAt, old(calls), Seconds(now), 1.0)
    {
      ReplayIsFair(REQUESTS_PER_SECOND, REQUEST_BURST, openedAt, calls, Seconds(now), 1.0);
      var taken := Take(bucket, Seconds(now), 1.0);
      ReplayMore(REQUESTS_PER_SECOND, REQUEST_BURST, openedAt, calls, Call(Seconds(now), 1.0, taken.1));
      bucket, ok := taken.0, taken.1;
      calls := calls + [Call(Seconds(now), 1.0, ok)];
    }

    /** The bucket covers a request exactly when it is affordable; and what was granted is within burst and rate. */
    lemma RequestsAreFair(now: real)
      requires Valid()
      ensures bucket.Refill(now).Covers(1.0) <==> Affords(2.0, 8.0, openedAt, calls, now, 1.0)
      ensures Cost(calls) <= Allowance(2.0, 8.0, openedAt, Latest(openedAt, calls))
    {
      ReplayIsFair(REQUESTS_PER_SECOND, REQUEST_BURST, openedAt, calls, now, 1.0);
    }

    method PurgePaths(now: int)
      requires Valid()
      modifies `paths
      ensures Valid() && paths == Current(old(paths), active, now)
    {
      paths := DropStale(paths, active, now);
    }

    /** Traffic from an authorised source keeps its path alive. */
    method Observe(source: Source, now: int)
      requires Valid()
      modifies `paths
      ensures Valid() && paths.Keys == old(paths).Keys
      ensures paths == if source in old(paths) then old(paths)[source := old(paths)[source].(lastSeen := now)]
                       else old(paths)
    {
      if source in paths {
        var kept := Added(paths, source, paths[source].(lastSeen := now));
        paths := kept;
        assert paths.Keys == old(paths).Keys;
      }
    }

    /** The cookie is not remembered as used, and there is room to remember it. */
    ghost predicate CanUse(cookie: Cookie, now: int)
      reads `cookies
    {
      cookie !in Unexpired(cookies, now) && |Unexpired(cookies, now)| < MAX_COOKIES
    }

    /** It is not one whose use was noted less than its lifetime ago, and fewer than 64 are. */
    lemma CanUseMeans(cookie: Cookie, now: int)
      ensures var noted := set c | c in cookies && now < cookies[c];
              CanUse(cookie, now) <==> cookie !in noted && |noted| < 64
    {
      assert Unexpired(cookies, now).Keys == set c | c in cookies && now < cookies[c];
      assert |Unexpired(cookies, now).Keys| == |Unexpired(cookies, now)|;
    }

    /** A verified response: unless its cookie was used or too many are, its source becomes active. */
    method Respond(source: Source, cookie: Cookie, now: int) returns (ok: bool, victim: Option<Source>)
      requires Valid() && InTime(cookie, now)
      modifies `paths, `active, `cookies, `uses, `last, `forward
      ensures Valid() && forward == (old(forward) && old(last) <= now) && last == Max(old(last), now)
      ensures ok <==> old(CanUse(cookie, now))
      ensures !ok ==> active == old(active) && paths == old(paths) && victim == None
      ensures ok ==> source in paths && old(active) in paths && paths.Keys <= old(paths).Keys + {source}
      ensures ok ==> active == source && cookies == Unexpired(old(cookies), now)[cookie := now + CHALLENGE_LIFETIME]
      ensures ok ==> && MakesWay(old(paths), old(active), source, now, victim)
                     && paths == Switched(old(paths), old(active), source, now, victim)
      ensures uses == if ok && cookie == watch then old(uses) + [now] else old(uses)
    {
      ok := TakeCookie(cookie, now);
      victim := None;
      if ok {
        victim := Activate(source, now);
      }
    }

    /** Forgets expired cookies and, unless this one is remembered or too many are, remembers it as used. */
    method TakeCookie(cookie: Cookie, now: int) returns (ok: bool)
      requires Valid() && InTime(cookie, now)
      modifies `cookies, `uses, `last, `forward
      ensures |cookies| <= MAX_COOKIES && (forward ==> UsesOk(watch, cookies, uses, last))
      ensures forward == (old(forward) && old(last) <= now) && last == Max(old(last), now)
      ensures ok <==> old(CanUse(cookie, now))
      ensures ok ==> cookies == Unexpired(old(cookies), now)[cookie := now + CHALLENGE_LIFETIME]
      ensures uses == if ok && cookie == watch then old(uses) + [now] else old(uses)
    {
      cookies := DropExpired(cookies, now);
      forward := forward && last <= now;
      if forward {
        ConsumingKeepsUses(watch, old(cookies), uses, last, cookie, now);
      }
      last := Max(last, now);
      if cookie in cookies || |cookies| >= MAX_COOKIES {
        return false;
      }
      ConsumeCookie(cookie, now);
      return true;
    }

    method Activate(source: Source, now: int) returns (victim: Option<Source>)
      requires active in paths && |paths| <= MAX_PATHS
      modifies `paths, `active
      ensures active == source && |paths| <= MAX_PATHS && source in paths && old(active) in paths
      ensures paths.Keys <= old(paths).Keys + {source}
      ensures MakesWay(old(paths), old(active), source, now, victim)
      ensures paths == Switched(old(paths), old(active), source, now, victim)
    {
      paths, victim := SwitchPath(paths, active, source, now);
      active := source;
    }

    method ConsumeCookie(cookie: Cookie, now: int)
      requires cookie !in cookies && |cookies| < MAX_COOKIES
      modifies `cookies, `uses
      ensures cookies == old(cookies)[cookie := now + CHALLENGE_LIFETIME] && |cookies| <= MAX_COOKIES
      ensures uses == if cookie == watch then old(uses) + [now] else old(uses)
    {
      cookies := cookies[cookie := now + CHALLENGE_LIFETIME];
      uses := if cookie == watch then uses + [now] else uses;
      assert cookies.Keys == old(cookies).Keys + {cookie};
      assert |cookies.Keys| == |cookies| && |old(cookies).Keys| == |old(cookies)|;
    }

    /** The account of a session: with a forward clock a cookie first accepted after the instant it was
        issued is accepted once, and none more than twice. */
    lemma CookiesAreUsedOnce()
      requires Valid() && forward
      ensures |uses| <= 2
      ensures uses != [] && uses[0] > watch.issued * SECOND ==> |uses| == 1
    {
      AtMostOnce(watch, cookies, uses, last);
    }
  }

  /** The exact boundary: a cookie first accepted at `first` can be accepted again at some later moment
      exactly when `first` is not after the instant it was issued. */
  lemma ReplayWindow(cookie: Cookie, first: int)
    requires InTime(cookie, first)
    ensures (exists again :: Replayable(cookie, first, again)) <==> first <= cookie.issued * SECOND
  {
    if first <= cookie.issued * SECOND {
      assert Replayable(cookie, first, first + CHALLENGE_LIFETIME);
    }
  }

  /** Still in time, though the used table has already forgotten the first use. */
  predicate Replayable(cookie: Cookie, first: int, again: int) {
    InTime(cookie, again) && again >= first + CHALLENGE_LIFETIME
  }

  /** A fresh session uses a cookie. */
  method UseOnce(id: nat, key: nat, home: Source, source: Source, cookie: Cookie, first: int) returns (session: Session)
    requires InTime(cookie, first)
    ensures fresh(session) && session.Valid() && session.watch == cookie && session.uses == [first]
    ensures session.cookies == map[cookie := first + CHALLENGE_LIFETIME]
  {
    session := new Session(id, key, home, true, first, cookie);
    assert Unexpired(session.cookies, first) == map[];
    var ok, _ := session.Respond(source, cookie, first);
  }

  /** And then it is accepted again, exactly in that window. */
  method UseTwice(id: nat, key: nat, home: Source, source: Source, cookie: Cookie, first: int, again: int)
    returns (session: Session, ok: bool)
    requires InTime(cookie, first) && InTime(cookie, again) && first <= again
    ensures ok <==> Replayable(cookie, first, again)
    ensures session.watch == cookie && session.uses == if ok then [first, again] else [first]
  {
    session := UseOnce(id, key, home, source, cookie, first);
    ghost var left := Unexpired(session.cookies, again);
    assert left == if again < first + CHALLENGE_LIFETIME then session.cookies else map[];
    var victim;
    ok, victim := session.Respond(source, cookie, again);
  }
}
