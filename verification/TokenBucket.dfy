/** Token buckets over an arbitrary clock: readings may come out of order. Times are in seconds. */
module TokenBuckets {
  import opened Common

  /** Seconds of a clock reading in nanoseconds. */
  function Seconds(now: int): real {
    now as real / 1_000_000_000 as real
  }

  function RMax(a: real, b: real): real {
    if b > a then b else a
  }

  lemma SecondsMax(a: int, b: int)
    ensures Seconds(Max(a, b)) == RMax(Seconds(a), Seconds(b))
    ensures Seconds(a) * 1_000_000_000.0 == a as real
  {
  }

  datatype Bucket = Bucket(rate: real, burst: real, tokens: real, last: real) {
    /** Credit for the time since the last refill, up to the burst; an older reading changes nothing. */
    function Refill(now: real): Bucket {
      if now <= last then this
      else
        var filled := tokens + (now - last) * rate;
        this.(tokens := if filled > burst then burst else filled, last := now)
    }

    function Spend(cost: real): Bucket {
      this.(tokens := tokens - cost)
    }

    predicate Covers(cost: real) {
      tokens >= cost
    }
  }

  function Full(rate: real, burst: real, now: real): Bucket {
    Bucket(rate, burst, burst, now)
  }

  /** One request: refill, then charge it if the tokens cover it. */
  function Take(b: Bucket, now: real, cost: real): (Bucket, bool) {
    var filled := b.Refill(now);
    if filled.Covers(cost) then (filled.Spend(cost), true) else (filled, false)
  }

  /** Tokens are spent one for one, and a cost is covered while there are as many. */
  lemma SpendMeans(b: Bucket, cost: real)
    ensures b.Spend(cost) == Bucket(b.rate, b.burst, b.tokens - cost, b.last)
    ensures b.Covers(cost) <==> cost <= b.tokens
  {
  }

  // ----- what a run of requests may cost -----

  /** A request and its answer. */
  datatype Call = Call(now: real, cost: real, granted: bool)

  /** The latest clock reading. */
  ghost function Latest(start: real, calls: seq<Call>): real {
    if calls == [] then start
    else
      var before, now := Latest(start, calls[..|calls| - 1]), calls[|calls| - 1].now;
      if now > before then now else before
  }

  /** What was granted. */
  ghost function Cost(calls: seq<Call>): real {
    if calls == [] then 0.0
    else Cost(calls[..|calls| - 1]) + if calls[|calls| - 1].granted then calls[|calls| - 1].cost else 0.0
  }

  /** What burst and rate allow over a time. */
  ghost function Allowance(rate: real, burst: real, start: real, latest: real): real {
    burst + rate * (latest - start)
  }

  /** A request can be granted: with it, what was granted since the start is at most the burst plus the rate times
      the time since, and so is what was granted since every earlier reading, its own request included. */
  ghost predicate Affords(rate: real, burst: real, start: real, calls: seq<Call>, now: real, cost: real) {
    var latest := Latest(start, calls + [Call(now, cost, false)]);
    && cost <= burst
    && Cost(calls) + cost <= Allowance(rate, burst, start, latest)
    && forall j :: 0 <= j < |calls| ==>
         Cost(calls) - Cost(calls[..j]) + cost <= Allowance(rate, burst, Latest(start, calls[..j + 1]), latest)
  }

  /** The credit for the time between two readings. */
  ghost function Credit(rate: real, last: real, now: real): real {
    if now > last then (now - last) * rate else 0.0
  }

  /** The credit of a run, reading by reading. */
  ghost function Earned(rate: real, start: real, calls: seq<Call>): real {
    if calls == [] then 0.0
    else
      var front := calls[..|calls| - 1];
      Earned(rate, start, front) + Credit(rate, Latest(start, front), calls[|calls| - 1].now)
  }

  /** What can be charged once so much is earned, counted from the start, and from the j-th call. */
  ghost function RoomAtAll(burst: real, calls: seq<Call>, earned: real): real {
    burst + earned - Cost(calls)
  }

  ghost function Room(rate: real, burst: real, start: real, calls: seq<Call>, earned: real, j: nat): real
    requires j < |calls|
  {
    burst + (earned - Earned(rate, start, calls[..j + 1])) - (Cost(calls) - Cost(calls[..j]))
  }

  /** The least of the rooms and the burst. */
  ghost predicate Least(tokens: real, rate: real, burst: real, start: real, calls: seq<Call>, earned: real) {
    && tokens <= burst && tokens <= RoomAtAll(burst, calls, earned)
    && (forall j :: 0 <= j < |calls| ==> tokens <= Room(rate, burst, start, calls, earned, j))
    && (tokens == burst || tokens == RoomAtAll(burst, calls, earned)
        || exists j :: 0 <= j < |calls| && tokens == Room(rate, burst, start, calls, earned, j))
  }

  /** A bucket that was full at the start and has answered these calls: its tokens are the least of the rooms. */
  ghost predicate Exact(b: Bucket, start: real, calls: seq<Call>) {
    && b.rate >= 0.0 && b.tokens >= 0.0 && b.last == Latest(start, calls)
    && Least(b.tokens, b.rate, b.burst, start, calls, Earned(b.rate, start, calls))
  }

  lemma FullIsExact(rate: real, burst: real, start: real)
    requires rate >= 0.0 && burst >= 0.0
    ensures Exact(Full(rate, burst, start), start, [])
  {
  }

  lemma OneMoreCall(rate: real, start: real, calls: seq<Call>, call: Call)
    ensures Latest(start, calls + [call]) == RMax(Latest(start, calls), call.now)
    ensures Cost(calls + [call]) == Cost(calls) + if call.granted then call.cost else 0.0
    ensures Earned(rate, start, calls + [call])
         == Earned(rate, start, calls) + Credit(rate, Latest(start, calls), call.now)
    ensures forall j :: 0 <= j <= |calls| ==> (calls + [call])[..j] == calls[..j]
  {
    assert (calls + [call])[..|calls|] == calls;
  }

  lemma CreditIsGood(rate: real, last: real, now: real)
    requires rate >= 0.0
    ensures Credit(rate, last, now) >= 0.0
  {
  }

  /** A refill earns the credit for the time since the last one, up to the burst. */
  lemma RefillEarns(b: Bucket, now: real)
    requires b.rate >= 0.0 && 0.0 <= b.tokens <= b.burst
    ensures var f, tokens := b.Refill(now), b.tokens + Credit(b.rate, b.last, now);
            && f == b.(tokens := if tokens > b.burst then b.burst else tokens, last := RMax(b.last, now))
            && f.tokens >= 0.0
  {
    CreditIsGood(b.rate, b.last, now);
  }

  lemma EarningKeepsLeast(tokens: real, rate: real, burst: real, start: real, calls: seq<Call>, earned: real,
                          credit: real, after: real)
    requires Least(tokens, rate, burst, start, calls, earned) && credit >= 0.0 && after == earned + credit
    ensures Least(if tokens + credit > burst then burst else tokens + credit, rate, burst, start, calls, after)
  {
    forall j | 0 <= j < |calls|
      ensures Room(rate, burst, start, calls, after, j) == Room(rate, burst, start, calls, earned, j) + credit
    {
    }
    if tokens < burst && tokens != RoomAtAll(burst, calls, earned) {
      var j :| 0 <= j < |calls| && tokens == Room(rate, burst, start, calls, earned, j);
      assert Room(rate, burst, start, calls, after, j) == tokens + credit;
    }
  }

  /** The tokens after a refill are the least of the rooms. */
  lemma RefillIsLeast(b: Bucket, start: real, calls: seq<Call>, now: real)
    requires Exact(b, start, calls)
    ensures var f, earned := b.Refill(now), Earned(b.rate, start, calls) + Credit(b.rate, b.last, now);
            && f == b.(tokens := f.tokens, last := RMax(b.last, now)) && f.tokens >= 0.0
            && Least(f.tokens, b.rate, b.burst, start, calls, earned)
  {
    RefillEarns(b, now);
    CreditIsGood(b.rate, b.last, now);
    EarningKeepsLeast(b.tokens, b.rate, b.burst, start, calls, Earned(b.rate, start, calls),
                      Credit(b.rate, b.last, now), Earned(b.rate, start, calls) + Credit(b.rate, b.last, now));
  }

  /** What the tokens cover, room by room. */
  lemma LeastCovers(tokens: real, rate: real, burst: real, start: real, calls: seq<Call>, earned: real, cost: real)
    requires Least(tokens, rate, burst, start, calls, earned)
    ensures cost <= tokens <==>
              && cost <= burst && cost <= RoomAtAll(burst, calls, earned)
              && forall j :: 0 <= j < |calls| ==> cost <= Room(rate, burst, start, calls, earned, j)
  {
  }

  lemma Distributes(rate: real, x: real, y: real)
    ensures rate * x + y * rate == rate * (x + y)
  {
  }

  /** What is earned is the rate times the time. */
  lemma {:induction false} EarnedIsAllowed(rate: real, burst: real, start: real, calls: seq<Call>)
    ensures burst + Earned(rate, start, calls) == Allowance(rate, burst, start, Latest(start, calls))
  {
    if calls == [] {
      AllowanceAdds(rate, burst, start, start, start);
    } else {
      var front, now := calls[..|calls| - 1], calls[|calls| - 1].now;
      var latest := Latest(start, front);
      EarnedIsAllowed(rate, burst, start, front);
      AllowanceAdds(rate, burst, start, latest, if now > latest then now else latest);
      CreditIsAllowed(rate, burst, latest, now);
    }
  }

  lemma CreditIsAllowed(rate: real, burst: real, last: real, now: real)
    ensures burst + Credit(rate, last, now) == Allowance(rate, burst, last, if now > last then now else last)
  {
  }

  lemma AllowanceAdds(rate: real, burst: real, start: real, from: real, latest: real)
    ensures Allowance(rate, burst, start, latest) - Allowance(rate, burst, start, from)
         == Allowance(rate, burst, from, latest) - burst
    ensures Allowance(rate, burst, start, start) == burst
  {
    Distributes(rate, from - start, latest - from);
    assert (from - start) + (latest - from) == latest - start;
  }

  /** A room is what burst and rate allow, less what was granted. */
  lemma RoomIsAllowed(rate: real, burst: real, start: real, calls: seq<Call>, more: seq<Call>, j: nat)
    requires j < |calls|
    ensures Room(rate, burst, start, calls, Earned(rate, start, more), j)
         == Allowance(rate, burst, Latest(start, calls[..j + 1]), Latest(start, more))
            - (Cost(calls) - Cost(calls[..j]))
  {
    EarnedIsAllowed(rate, burst, start, more);
    EarnedIsAllowed(rate, burst, start, calls[..j + 1]);
    AllowanceAdds(rate, burst, start, Latest(start, calls[..j + 1]), Latest(start, more));
  }

  lemma RoomsMeanAffords(rate: real, burst: real, start: real, calls: seq<Call>, now: real, cost: real)
    ensures var earned := Earned(rate, start, calls + [Call(now, cost, false)]);
            Affords(rate, burst, start, calls, now, cost) <==>
              && cost <= burst && cost <= RoomAtAll(burst, calls, earned)
              && forall j :: 0 <= j < |calls| ==> cost <= Room(rate, burst, start, calls, earned, j)
  {
    var more := calls + [Call(now, cost, false)];
    EarnedIsAllowed(rate, burst, start, more);
    forall j | 0 <= j < |calls|
      ensures Room(rate, burst, start, calls, Earned(rate, start, more), j)
           == Allowance(rate, burst, Latest(start, calls[..j + 1]), Latest(start, more))
            - (Cost(calls) - Cost(calls[..j]))
    {
      RoomIsAllowed(rate, burst, start, calls, more, j);
    }
  }

  /** A refilled bucket covers a request exactly when the request can be afforded. */
  lemma CoversMeansAffords(b: Bucket, start: real, calls: seq<Call>, now: real, cost: real)
    requires Exact(b, start, calls)
    ensures b.Refill(now).Covers(cost) <==> Affords(b.rate, b.burst, start, calls, now, cost)
  {
    RefillIsLeast(b, start, calls, now);
    OneMoreCall(b.rate, start, calls, Call(now, cost, false));
    LeastCovers(b.Refill(now).tokens, b.rate, b.burst, start, calls,
                Earned(b.rate, start, calls + [Call(now, cost, false)]), cost);
    RoomsMeanAffords(b.rate, b.burst, start, calls, now, cost);
  }

  lemma ChargingKeepsLeast(tokens: real, rate: real, burst: real, start: real, calls: seq<Call>, call: Call)
    requires Least(tokens, rate, burst, start, calls, Earned(rate, start, calls + [call])) && call.cost >= 0.0
    ensures Least(if call.granted then tokens - call.cost else tokens, rate, burst, start, calls + [call],
                  Earned(rate, start, calls + [call]))
  {
    var more, charge := calls + [call], if call.granted then call.cost else 0.0;
    var earned := Earned(rate, start, more);
    OneMoreCall(rate, start, calls, call);
    assert more[..|calls| + 1] == more;
    assert Room(rate, burst, start, more, earned, |calls|) == burst - charge;
    forall j | 0 <= j < |calls|
      ensures Room(rate, burst, start, more, earned, j) == Room(rate, burst, start, calls, earned, j) - charge
    {
      assert more[..j + 1] == calls[..j + 1] && more[..j] == calls[..j];
    }
  }

  /** And after the answer it is exact again. */
  lemma ServingIsExact(b: Bucket, start: real, calls: seq<Call>, call: Call)
    requires Exact(b, start, calls) && call.cost >= 0.0
    requires call.granted ==> b.Refill(call.now).Covers(call.cost)
    ensures var f := b.Refill(call.now);
            Exact(if call.granted then f.Spend(call.cost) else f, start, calls + [call])
  {
    RefillIsLeast(b, start, calls, call.now);
    OneMoreCall(b.rate, start, calls, call);
    ChargingKeepsLeast(b.Refill(call.now).tokens, b.rate, b.burst, start, calls, call);
  }

  /** What was granted is within burst and rate. */
  lemma CostIsAllowed(b: Bucket, start: real, calls: seq<Call>)
    requires Exact(b, start, calls)
    ensures Cost(calls) <= Allowance(b.rate, b.burst, start, Latest(start, calls))
  {
    EarnedIsAllowed(b.rate, b.burst, start, calls);
  }

  lemma AllowanceGrows(rate: real, burst: real, start: real, earlier: real, later: real)
    requires rate >= 0.0 && earlier <= later
    ensures Allowance(rate, burst, start, earlier) <= Allowance(rate, burst, start, later)
    ensures Allowance(rate, burst, start, start) == burst
  {
    CreditIsGood(rate, earlier, later);
    CreditIsAllowed(rate, burst, earlier, later);
    AllowanceAdds(rate, burst, start, earlier, later);
  }

  // ----- a bucket and its calls -----

  /** A bucket full at the start, after these calls. */
  ghost function Replay(rate: real, burst: real, start: real, calls: seq<Call>): Bucket {
    if calls == [] then Full(rate, burst, start)
    else
      var call := calls[|calls| - 1];
      var filled := Replay(rate, burst, start, calls[..|calls| - 1]).Refill(call.now);
      if call.granted then filled.Spend(call.cost) else filled
  }

  /** What was granted was there. */
  ghost predicate Covered(rate: real, burst: real, start: real, calls: seq<Call>) {
    calls == []
    || (var front, call := calls[..|calls| - 1], calls[|calls| - 1];
        && Covered(rate, burst, start, front) && call.cost >= 0.0
        && (call.granted ==> Replay(rate, burst, start, front).Refill(call.now).Covers(call.cost)))
  }

  lemma ReplayMore(rate: real, burst: real, start: real, calls: seq<Call>, call: Call)
    requires Covered(rate, burst, start, calls) && call.cost >= 0.0
    requires call.granted ==> Replay(rate, burst, start, calls).Refill(call.now).Covers(call.cost)
    ensures Covered(rate, burst, start, calls + [call])
    ensures var filled := Replay(rate, burst, start, calls).Refill(call.now);
            Replay(rate, burst, start, calls + [call]) == if call.granted then filled.Spend(call.cost) else filled
  {
    assert (calls + [call])[..|calls|] == calls;
  }

  lemma {:induction false} ReplayIsExact(rate: real, burst: real, start: real, calls: seq<Call>)
    requires rate >= 0.0 && burst >= 0.0 && Covered(rate, burst, start, calls)
    ensures var b := Replay(rate, burst, start, calls); b.rate == rate && b.burst == burst && Exact(b, start, calls)
  {
    if calls == [] {
      FullIsExact(rate, burst, start);
    } else {
      var front, call := calls[..|calls| - 1], calls[|calls| - 1];
      ReplayIsExact(rate, burst, start, front);
      ServingIsExact(Replay(rate, burst, start, front), start, front, call);
      assert calls == front + [call];
    }
  }

  /** Such a bucket covers a request exactly when the request can be afforded, and has granted no more than burst
      and rate allow. */
  lemma ReplayIsFair(rate: real, burst: real, start: real, calls: seq<Call>, now: real, cost: real)
    requires rate >= 0.0 && burst >= 0.0 && Covered(rate, burst, start, calls)
    ensures Replay(rate, burst, start, calls).Refill(now).Covers(cost) <==>
              Affords(rate, burst, start, calls, now, cost)
    ensures Cost(calls) <= Allowance(rate, burst, start, Latest(start, calls))
  {
    ReplayIsExact(rate, burst, start, calls);
    CoversMeansAffords(Replay(rate, burst, start, calls), start, calls, now, cost);
    CostIsAllowed(Replay(rate, burst, start, calls), start, calls);
  }

  // ----- whole runs -----

  datatype Request = Request(now: real, cost: real)

  /** Every call was granted exactly when it could be. */
  ghost predicate Fair(rate: real, burst: real, start: real, calls: seq<Call>) {
    forall i :: 0 <= i < |calls| ==>
      (calls[i].granted <==> Affords(rate, burst, start, calls[..i], calls[i].now, calls[i].cost))
  }

  lemma FairAppend(rate: real, burst: real, start: real, calls: seq<Call>, call: Call)
    requires Fair(rate, burst, start, calls)
    requires call.granted <==> Affords(rate, burst, start, calls, call.now, call.cost)
    ensures Fair(rate, burst, start, calls + [call])
  {
    var more := calls + [call];
    forall i | 0 <= i < |more|
      ensures more[i].granted <==> Affords(rate, burst, start, more[..i], more[i].now, more[i].cost)
    {
      assert more[..i] == if i < |calls| then calls[..i] else calls;
    }
  }

  /** A bucket that was full at the start, has answered these calls, and did so fairly. */
  ghost predicate Served(b: Bucket, rate: real, burst: real, start: real, calls: seq<Call>) {
    && b == Replay(rate, burst, start, calls) && Covered(rate, burst, start, calls)
    && Fair(rate, burst, start, calls)
  }

  lemma ServingOne(b: Bucket, rate: real, burst: real, start: real, calls: seq<Call>, request: Request)
    requires rate >= 0.0 && burst >= 0.0 && request.cost >= 0.0 && Served(b, rate, burst, start, calls)
    ensures var (left, granted) := Take(b, request.now, request.cost);
            Served(left, rate, burst, start, calls + [Call(request.now, request.cost, granted)])
  {
    var call := Call(request.now, request.cost, Take(b, request.now, request.cost).1);
    ReplayIsFair(rate, burst, start, calls, call.now, call.cost);
    ReplayMore(rate, burst, start, calls, call);
    FairAppend(rate, burst, start, calls, call);
  }

  /** The law over whole runs, whatever the clock does: a request is granted if and only if, since the start and
      since every reading, what was granted and its own cost are at most the burst plus the rate times the time to
      the latest reading. */
  method Serve(rate: real, burst: real, start: real, requests: seq<Request>) returns (calls: seq<Call>)
    requires rate >= 0.0 && burst >= 0.0
    requires forall i :: 0 <= i < |requests| ==> requests[i].cost >= 0.0
    ensures |calls| == |requests|
    ensures forall i :: 0 <= i < |calls| ==> calls[i].now == requests[i].now && calls[i].cost == requests[i].cost
    ensures Fair(rate, burst, start, calls)
    ensures Cost(calls) <= Allowance(rate, burst, start, Latest(start, calls))
  {
    var b := Full(rate, burst, start);
    calls := [];
    for i := 0 to |requests|
      invariant |calls| == i && Served(b, rate, burst, start, calls)
      invariant forall n :: 0 <= n < i ==> calls[n].now == requests[n].now && calls[n].cost == requests[n].cost
    {
      ServingOne(b, rate, burst, start, calls, requests[i]);
      var taken := Take(b, requests[i].now, requests[i].cost);
      b, calls := taken.0, calls + [Call(requests[i].now, requests[i].cost, taken.1)];
    }
    ReplayIsFair(rate, burst, start, calls, start, 0.0);
  }
}
