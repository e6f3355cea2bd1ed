/** Both sides of forward error correction together: what a receiver hands out of one sender's group, over any
    run of the network between them. */
module FecTransfers {
  import opened Common
  import opened FecCodec
  import opened FecReceivers
  import opened FecSenders
  import opened CompletedRings

  datatype Arrival = Arrival(packet: Packet, now: int)

  /** An arrival and the receiver's answer, with the indices of the watched group it handed out and how often
      the receiver had forgotten that group before. */
  datatype Entry = Entry(arrival: Arrival, answer: Result<Delivery, FecError>, indices: seq<nat>, life: nat)

  ghost function Front(log: seq<Entry>): seq<Entry>
    requires log != []
  {
    log[..|log| - 1]
  }

  ghost function Back(log: seq<Entry>): Entry
    requires log != []
  {
    log[|log| - 1]
  }

  // ----- what a log says -----

  predicate OfGroup(watch: nat, p: Packet) {
    p.group == watch && !Unprotected(p)
  }

  ghost predicate Mine(watch: nat, life: nat, e: Entry) {
    OfGroup(watch, e.arrival.packet) && e.life == life
  }

  /** The account of one life of the group: indices handed out, and shards accepted. */
  ghost function AccountOf(watch: nat, log: seq<Entry>, life: nat): Account {
    if log == [] then NOTHING
    else
      var before, e := AccountOf(watch, Front(log), life), Back(log);
      if Mine(watch, life, e) then before.With(e.arrival.packet, e.answer.Ok?, e.indices) else before
  }

  ghost function Life(log: seq<Entry>): nat {
    if log == [] then 0 else Back(log).life
  }

  /** The clock went forward, and is not past `now`. */
  ghost predicate Forward(log: seq<Entry>, now: int) {
    && (forall i, j :: 0 <= i < j < |log| ==> log[i].arrival.now <= log[j].arrival.now)
    && (forall i :: 0 <= i < |log| ==> log[i].arrival.now <= now)
  }

  /** The groups that packets came of. */
  ghost function Groups(log: seq<Entry>): set<nat> {
    set j | 0 <= j < |log| && !Unprotected(log[j].arrival.packet) :: log[j].arrival.packet.group
  }

  /** Those among them that packets came of within the last lifetime. */
  ghost function Recent(log: seq<Entry>, now: int): set<nat> {
    set j | 0 <= j < |log| && !Unprotected(log[j].arrival.packet) && now - log[j].arrival.now < LIFETIME
      :: log[j].arrival.packet.group
  }

  /** Something of the group arrived at this time. */
  ghost predicate CameAt(log: seq<Entry>, id: nat, now: int) {
    exists j :: 0 <= j < |log| && OfGroup(id, log[j].arrival.packet) && log[j].arrival.now == now
  }

  /** Something of the group arrived in this life at this time. */
  ghost predicate SeenAt(watch: nat, log: seq<Entry>, life: nat, now: int) {
    exists j :: 0 <= j < |log| && Mine(watch, life, log[j]) && log[j].arrival.now == now
  }

  /** Something of the group came with this many shards. */
  ghost predicate SeenWith(watch: nat, log: seq<Entry>, total: nat) {
    exists j :: 0 <= j < |log| && OfGroup(watch, log[j].arrival.packet) && log[j].arrival.packet.total == total
  }

  /** Why the receiver may forget a group: something of it arrived a lifetime ago, or 4096 other groups came, with
      a clock that goes forward all within the last lifetime. */
  ghost predicate MayForget(watch: nat, log: seq<Entry>, now: int) {
    || (|Groups(log)| >= MAX_COMPLETED && (Forward(log, now) ==> |Recent(log, now)| >= MAX_COMPLETED))
    || exists j :: 0 <= j < |log| && Mine(watch, Life(log), log[j]) && now - log[j].arrival.now >= LIFETIME
  }

  /** How many other groups leave room for one more and for all of its bytes. */
  function Spare(room: nat): nat {
    if room < MAX_GROUPS then room else MAX_GROUPS - 1
  }

  /** Why a shard of the group may be refused: another parity setting, or so many other groups within the last
      lifetime that there is no room. */
  ghost predicate MayRefuse(watch: nat, log: seq<Entry>, room: nat, a: Arrival, e: FecError) {
    || (e == InvalidParams && exists j :: 0 <= j < |log| && OfGroup(watch, log[j].arrival.packet)
                                          && log[j].arrival.packet.total != a.packet.total)
    || (e == ResourceLimit && |Recent(log, a.now) - {watch}| >= Spare(room))
  }

  /** An entry is sound after those before it. The payloads it hands out are the ones sent at its indices, none
      handed out before in this life of the group; an accepted data shard has been handed out; an accepted
      repair shard that is new and gives a full group its quorum has had the whole group handed out; shards are
      refused and the group forgotten only for a reason. */
  ghost predicate Sound(watch: nat, sent: Sent, room: nat, log: seq<Entry>, e: Entry) {
    && (e.life == Life(log) || (e.life == Life(log) + 1 && MayForget(watch, log, e.arrival.now)))
    && (OfGroup(watch, e.arrival.packet) ==>
          var before := AccountOf(watch, log, e.life);
          var after := before.With(e.arrival.packet, e.answer.Ok?, e.indices);
          && Distinct(after.handed)
          && match e.answer
             case Ok(d) => Faithful(sent, e.indices, d.payloads) && Progress(sent, before, after, e.arrival.packet)
             case Err(error) => e.indices == [] && MayRefuse(watch, log, room, e.arrival, error))
  }

  ghost predicate AllSound(watch: nat, sent: Sent, room: nat, log: seq<Entry>) {
    log == [] || (AllSound(watch, sent, room, Front(log)) && Sound(watch, sent, room, Front(log), Back(log)))
  }

  lemma AllSoundAppend(watch: nat, sent: Sent, room: nat, log: seq<Entry>, e: Entry)
    requires AllSound(watch, sent, room, log) && Sound(watch, sent, room, log, e)
    ensures AllSound(watch, sent, room, log + [e])
  {
    assert Front(log + [e]) == log && Back(log + [e]) == e;
  }

  /** What is said of a run is said of its beginnings. */
  lemma {:induction false} BeginningsAreSound(watch: nat, sent: Sent, room: nat, log: seq<Entry>, before: seq<Entry>)
    requires before <= log && AllSound(watch, sent, room, log)
    ensures AllSound(watch, sent, room, before)
  {
    if before != log {
      BeginningsAreSound(watch, sent, room, Front(log), before);
    }
  }

  ghost predicate OnlyEmitted(watch: nat, emitted: seq<Packet>, arrivals: seq<Arrival>) {
    forall i :: 0 <= i < |arrivals| ==> (OfGroup(watch, arrivals[i].packet) ==> arrivals[i].packet in emitted)
  }

  // ----- the receiver, arrival by arrival -----

  /** The receiver is what the log says. */
  ghost predicate Ties(watch: nat, log: seq<Entry>, life: nat, account: Account, groups: map<nat, Group>,
                       times: map<nat, int>, queue: seq<Completed>)
  {
    && life == Life(log) && account == AccountOf(watch, log, life)
    && (forall j :: 0 <= j < |log| ==> log[j].life <= life)
    && Recorded(log, groups, times) && Seen(watch, log, life, groups, times) && Steady(log, queue)
  }

  /** The times of all groups come from packets of them. */
  ghost predicate Recorded(log: seq<Entry>, groups: map<nat, Group>, times: map<nat, int>) {
    && (forall id :: id in groups ==> CameAt(log, id, groups[id].receivedAt))
    && (forall id :: id in times ==> CameAt(log, id, times[id]))
  }

  /** With a clock that goes forward the memory of finished groups is in order. */
  ghost predicate Steady(log: seq<Entry>, queue: seq<Completed>) {
    forall now :: Forward(log, now) ==> InStep(queue, now)
  }

  /** Those of the watched group, and its size, come from packets in this life of it. */
  ghost predicate Seen(watch: nat, log: seq<Entry>, life: nat, groups: map<nat, Group>, times: map<nat, int>) {
    && (watch in groups ==>
          SeenAt(watch, log, life, groups[watch].receivedAt) && SeenWith(watch, log, |groups[watch].shards|))
    && (watch in times ==> SeenAt(watch, log, life, times[watch]))
  }

  ghost predicate Follows(receiver: FecReceiver, log: seq<Entry>)
    reads receiver, receiver.ring
  {
    Ties(receiver.watch, log, receiver.life, receiver.account, receiver.groups, receiver.ring.times,
         receiver.ring.queue)
  }

  /** Nothing is said of a life that has not begun. */
  lemma {:induction false} NoAccountYet(watch: nat, log: seq<Entry>, life: nat)
    requires forall j :: 0 <= j < |log| ==> log[j].life < life
    ensures AccountOf(watch, log, life) == NOTHING
  {
    if log != [] {
      NoAccountYet(watch, Front(log), life);
    }
  }

  lemma SeenStays(watch: nat, log: seq<Entry>, e: Entry, life: nat, now: int)
    requires SeenAt(watch, log, life, now) || (Mine(watch, life, e) && e.arrival.now == now)
    ensures SeenAt(watch, log + [e], life, now)
  {
    var more := log + [e];
    if SeenAt(watch, log, life, now) {
      var j :| 0 <= j < |log| && Mine(watch, life, log[j]) && log[j].arrival.now == now;
      assert more[j] == log[j];
    } else {
      assert more[|log|] == e;
    }
  }

  lemma SizeStays(watch: nat, log: seq<Entry>, e: Entry, total: nat)
    requires SeenWith(watch, log, total) || (OfGroup(watch, e.arrival.packet) && e.arrival.packet.total == total)
    ensures SeenWith(watch, log + [e], total)
  {
    var more := log + [e];
    if SeenWith(watch, log, total) {
      var j :| 0 <= j < |log| && OfGroup(watch, log[j].arrival.packet) && log[j].arrival.packet.total == total;
      assert more[j] == log[j];
    } else {
      assert more[|log|] == e;
    }
  }

  lemma CameStays(log: seq<Entry>, e: Entry, id: nat, now: int)
    requires CameAt(log, id, now) || (OfGroup(id, e.arrival.packet) && e.arrival.now == now)
    ensures CameAt(log + [e], id, now)
  {
    var more := log + [e];
    if CameAt(log, id, now) {
      var j :| 0 <= j < |log| && OfGroup(id, log[j].arrival.packet) && log[j].arrival.now == now;
      assert more[j] == log[j];
    } else {
      assert more[|log|] == e;
    }
  }

  /** The groups' times after one more packet. */
  lemma DatingKeepsRecorded(log: seq<Entry>, e: Entry, groups: map<nat, Group>, times: map<nat, int>,
                            groups': map<nat, Group>, times': map<nat, int>)
    requires Dated(groups, groups', times, times', e.arrival.packet, e.arrival.now) && Recorded(log, groups, times)
    ensures Recorded(log + [e], groups', times')
  {
    forall id | id in groups' ensures CameAt(log + [e], id, groups'[id].receivedAt) {
      CameStays(log, e, id, groups'[id].receivedAt);
    }
    forall id | id in times' ensures CameAt(log + [e], id, times'[id]) {
      CameStays(log, e, id, times'[id]);
    }
  }

  /** Those of the watched group. */
  lemma DatingKeepsSeen(watch: nat, log: seq<Entry>, e: Entry, groups: map<nat, Group>, times: map<nat, int>,
                        groups': map<nat, Group>, times': map<nat, int>)
    requires Dated(groups, groups', times, times', e.arrival.packet, e.arrival.now)
    requires Seen(watch, log, e.life, groups, times)
    ensures Seen(watch, log + [e], e.life, groups', times')
  {
    if watch in groups' {
      SeenStays(watch, log, e, e.life, groups'[watch].receivedAt);
      SizeStays(watch, log, e, |groups'[watch].shards|);
    }
    if watch in times' {
      SeenStays(watch, log, e, e.life, times'[watch]);
    }
  }

  lemma SteppingKeepsSteady(log: seq<Entry>, e: Entry, queue: seq<Completed>, queue': seq<Completed>)
    requires Steady(log, queue) && (InStep(queue, e.arrival.now) ==> InStep(queue', e.arrival.now))
    ensures Steady(log + [e], queue')
  {
    var more := log + [e];
    forall now | Forward(more, now) ensures InStep(queue', now) {
      assert more[|log|] == e && forall i :: 0 <= i < |log| ==> more[i] == log[i];
      assert Forward(log, e.arrival.now);
    }
  }

  /** Groups that have not expired had a packet within the last lifetime. */
  lemma UnexpiredAreRecent(log: seq<Entry>, groups: map<nat, Group>, times: map<nat, int>, now: int)
    requires Recorded(log, groups, times)
    ensures Fresh(groups, now).Keys <= Recent(log, now) && times.Keys <= Groups(log)
    ensures Lately(times, now).Keys <= Recent(log, now)
  {
    forall id | id in Fresh(groups, now) ensures id in Recent(log, now) {
      assert CameAt(log, id, groups[id].receivedAt);
    }
    forall id | id in times ensures id in Groups(log) && (id in Lately(times, now) ==> id in Recent(log, now)) {
      assert CameAt(log, id, times[id]);
    }
  }

  /** A group is forgotten for one of the reasons there are. */
  lemma ForgettingHasReason(receiver: FecReceiver, log: seq<Entry>, groups: map<nat, Group>, times: map<nat, int>,
                            queue: seq<Completed>, now: int)
    requires Seen(receiver.watch, log, Life(log), groups, times) && Recorded(log, groups, times) && Steady(log, queue)
    requires receiver.watch in groups || receiver.watch in times
    requires !receiver.Held(groups, times, now) || Crowded(times, InStep(queue, now), now)
    ensures MayForget(receiver.watch, log, now)
  {
    var watch := receiver.watch;
    if receiver.Held(groups, times, now) {
      UnexpiredAreRecent(log, groups, times, now);
      CountKeys(times, Groups(log));
      CountKeys(Lately(times, now), Recent(log, now));
    } else {
      var at := if watch in groups then groups[watch].receivedAt else times[watch];
      assert SeenAt(watch, log, Life(log), at);
    }
  }

  lemma CountKeys<V>(m: map<nat, V>, s: set<nat>)
    ensures m.Keys <= s ==> |m| <= |s|
  {
    assert |m| == |m.Keys|;
    if m.Keys <= s {
      SubsetSize(m.Keys, s);
    }
  }

  /** And a shard is refused for one of them. */
  lemma RefusalHasReason(watch: nat, log: seq<Entry>, life: nat, groups: map<nat, Group>, times: map<nat, int>,
                         bytes: nat, room: nat, a: Arrival, e: FecError)
    requires Seen(watch, log, life, groups, times) && Recorded(log, groups, times) && a.packet.group == watch
    requires Refused(Fresh(groups, a.now), bytes, room, a.packet, e)
    ensures MayRefuse(watch, log, room, a, e)
  {
    if e == InvalidParams {
      assert SeenWith(watch, log, |groups[watch].shards|);
    } else {
      OthersAreRecent(watch, log, groups, times, a.now);
    }
  }

  lemma OthersAreRecent(watch: nat, log: seq<Entry>, groups: map<nat, Group>, times: map<nat, int>, now: int)
    requires Recorded(log, groups, times)
    ensures |Others(Fresh(groups, now), watch)| <= |Recent(log, now) - {watch}|
    ensures watch !in Fresh(groups, now) ==> |Fresh(groups, now)| <= |Recent(log, now) - {watch}|
  {
    var live := Fresh(groups, now);
    UnexpiredAreRecent(log, groups, times, now);
    SubsetSize(Others(live, watch), Recent(log, now) - {watch});
    if watch !in live {
      assert Others(live, watch) == live.Keys && |live| == |live.Keys|;
    }
  }

  /** What an arrival adds to the log. */
  ghost function Logged(watch: nat, a: Arrival, answer: Result<Delivery, FecError>, indices: seq<nat>,
                        life: nat): Entry
  {
    Entry(a, answer, if OfGroup(watch, a.packet) then indices else [], life)
  }

  /** The account in the log moves with the receiver's. */
  lemma AccountFollows(receiver: FecReceiver, log: seq<Entry>, a: Arrival, answer: Result<Delivery, FecError>,
                       indices: seq<nat>, life: nat, account: Account, groups: map<nat, Group>, times: map<nat, int>,
                       steady: bool, life': nat, account': Account)
    requires life == Life(log) && account == AccountOf(receiver.watch, log, life)
    requires forall j :: 0 <= j < |log| ==> log[j].life <= life
    requires receiver.Extended(life', account', life, account, groups, times, steady, a.packet, answer.Ok?, indices,
                               a.now)
    ensures var e := Logged(receiver.watch, a, answer, indices, life');
            && AccountOf(receiver.watch, log, life') == (if life' == life then account else NOTHING)
            && AccountOf(receiver.watch, log + [e], life') == account'
  {
    var e := Logged(receiver.watch, a, answer, indices, life');
    if life' != life {
      NoAccountYet(receiver.watch, log, life');
    }
    assert Front(log + [e]) == log && Back(log + [e]) == e;
  }

  /** The log still ties the receiver down after another arrival. */
  lemma TiesStay(watch: nat, log: seq<Entry>, e: Entry, life: nat, account: Account, groups: map<nat, Group>,
                 times: map<nat, int>, queue: seq<Completed>, account': Account, groups': map<nat, Group>,
                 times': map<nat, int>, queue': seq<Completed>)
    requires Ties(watch, log, life, account, groups, times, queue) && life <= e.life
    requires AccountOf(watch, log + [e], e.life) == account'
    requires Dated(if e.life == life then groups else groups - {watch}, groups',
                   if e.life == life then times else times - {watch}, times', e.arrival.packet, e.arrival.now)
    requires InStep(queue, e.arrival.now) ==> InStep(queue', e.arrival.now)
    ensures Ties(watch, log + [e], e.life, account', groups', times', queue')
  {
    assert Front(log + [e]) == log && Back(log + [e]) == e;
    SteppingKeepsSteady(log, e, queue, queue');
    if e.life == life {
      DatingKeepsSeen(watch, log, e, groups, times, groups', times');
      DatingKeepsRecorded(log, e, groups, times, groups', times');
    } else {
      DatingKeepsSeen(watch, log, e, groups - {watch}, times - {watch}, groups', times');
      DatingKeepsRecorded(log, e, groups - {watch}, times - {watch}, groups', times');
    }
  }

  /** One arrival at the receiver, logged. */
  method Receive(receiver: FecReceiver, a: Arrival, ghost log: seq<Entry>)
    returns (answer: Result<Delivery, FecError>, ghost e: Entry)
    requires receiver.Valid() && receiver.honest && Follows(receiver, log)
    requires OfGroup(receiver.watch, a.packet) ==> FromSender(receiver.codec, receiver.sent, a.packet)
    modifies receiver, receiver.ring
    ensures receiver.Valid() && receiver.honest && Follows(receiver, log + [e])
    ensures e.arrival == a && e.answer == answer
    ensures Sound(receiver.watch, receiver.sent, receiver.maxGroups, log, e)
  {
    ghost var watch, life, account := receiver.watch, receiver.life, receiver.account;
    ghost var groups, times, queue := receiver.groups, receiver.ring.times, receiver.ring.queue;
    ghost var bytes, indices := receiver.bufferedBytes, [];
    answer, indices := receiver.AddPacket(a.packet, a.now);
    e := Logged(watch, a, answer, indices, receiver.life);
    AccountFollows(receiver, log, a, answer, indices, life, account, groups, times, InStep(queue, a.now), receiver.life,
                   receiver.account);
    TiesStay(watch, log, e, life, account, groups, times, queue, receiver.account, receiver.groups, receiver.ring.times,
             receiver.ring.queue);
    if e.life != life {
      ForgettingHasReason(receiver, log, groups, times, queue, a.now);
    }
    if OfGroup(watch, a.packet) && answer.Err? {
      RefusalHasReason(watch, log, life, groups, times, bytes, receiver.maxGroups, a, answer.error);
    }
  }

  function Room(maxGroups: int): nat {
    if 1 <= maxGroups <= MAX_GROUPS then maxGroups else MAX_GROUPS
  }

  /** The log is of the first arrivals and their answers. */
  ghost predicate Notes(arrivals: seq<Arrival>, answers: seq<Result<Delivery, FecError>>, log: seq<Entry>) {
    && |answers| == |log| <= |arrivals|
    && forall i :: 0 <= i < |log| ==> log[i].arrival == arrivals[i] && log[i].answer == answers[i]
  }

  lemma NotingStays(watch: nat, sent: Sent, room: nat, arrivals: seq<Arrival>,
                    answers: seq<Result<Delivery, FecError>>, log: seq<Entry>, e: Entry)
    requires Notes(arrivals, answers, log) && |log| < |arrivals| && e.arrival == arrivals[|log|]
    requires AllSound(watch, sent, room, log) && Sound(watch, sent, room, log, e)
    ensures Notes(arrivals, answers + [e.answer], log + [e]) && AllSound(watch, sent, room, log + [e])
  {
    AllSoundAppend(watch, sent, room, log, e);
  }

  ghost predicate OnlySent(codec: Codec, watch: nat, sent: Sent, arrivals: seq<Arrival>) {
    forall i :: 0 <= i < |arrivals| && OfGroup(watch, arrivals[i].packet) ==>
      FromSender(codec, sent, arrivals[i].packet)
  }

  /** The next of the arrivals. */
  method ReceiveNext(receiver: FecReceiver, arrivals: seq<Arrival>, answers: seq<Result<Delivery, FecError>>,
                     ghost log: seq<Entry>)
    returns (answers': seq<Result<Delivery, FecError>>, ghost log': seq<Entry>)
    requires receiver.Valid() && receiver.honest && Follows(receiver, log)
    requires |log| < |arrivals| && Notes(arrivals, answers, log)
    requires OnlySent(receiver.codec, receiver.watch, receiver.sent, arrivals)
    requires AllSound(receiver.watch, receiver.sent, receiver.maxGroups, log)
    modifies receiver, receiver.ring
    ensures receiver.Valid() && receiver.honest && Follows(receiver, log')
    ensures |log'| == |log| + 1 && Notes(arrivals, answers', log')
    ensures AllSound(receiver.watch, receiver.sent, receiver.maxGroups, log')
  {
    var answer;
    ghost var e;
    answer, e := Receive(receiver, arrivals[|answers|], log);
    NotingStays(receiver.watch, receiver.sent, receiver.maxGroups, arrivals, answers, log, e);
    answers', log' := answers + [answer], log + [e];
  }

  /** A receiver takes the arrivals in, one by one. */
  method Collect(codec: Codec, maxGroups: int, ghost watch: nat, ghost sent: Sent, arrivals: seq<Arrival>)
    returns (answers: seq<Result<Delivery, FecError>>, ghost log: seq<Entry>)
    requires Lawful(codec, sent.k, sent.m) && OnlySent(codec, watch, sent, arrivals)
    ensures |answers| == |arrivals| && Notes(arrivals, answers, log)
    ensures AllSound(watch, sent, Room(maxGroups), log)
  {
    var receiver := new FecReceiver(codec, maxGroups, watch, sent);
    answers, log := [], [];
    while |answers| < |arrivals|
      invariant fresh(receiver) && fresh(receiver.ring) && receiver.Valid() && receiver.honest
      invariant receiver.codec == codec && receiver.watch == watch && receiver.sent == sent
      invariant receiver.maxGroups == Room(maxGroups) && Follows(receiver, log)
      invariant Notes(arrivals, answers, log) && AllSound(watch, sent, Room(maxGroups), log)
    {
      answers, log := ReceiveNext(receiver, arrivals, answers, log);
    }
  }

  /** What an answer handed out of the group, and in which of its lives. */
  datatype Note = Note(indices: seq<nat>, life: nat)

  ghost function LogOf(arrivals: seq<Arrival>, answers: seq<Result<Delivery, FecError>>, notes: seq<Note>): seq<Entry>
    requires |answers| == |notes| == |arrivals|
  {
    seq(|arrivals|, i requires 0 <= i < |arrivals| => Entry(arrivals[i], answers[i], notes[i].indices, notes[i].life))
  }

  /** The answers are sound: there is an account of them, answer by answer. */
  ghost predicate SoundAnswers(watch: nat, sent: Sent, room: nat, arrivals: seq<Arrival>,
                               answers: seq<Result<Delivery, FecError>>)
    requires |answers| == |arrivals|
  {
    exists notes: seq<Note> :: |notes| == |arrivals| && AllSound(watch, sent, room, LogOf(arrivals, answers, notes))
  }

  /** End to end: the network may lose, reorder, repeat and delay the packets of a group and mix them with
      anything else; every answer about the group is sound. */
  method Transfer(sender: FecSender, maxGroups: int, arrivals: seq<Arrival>)
    returns (answers: seq<Result<Delivery, FecError>>)
    requires sender.Valid() && Lawful(sender.codec, sender.record.k, sender.record.m)
    requires OnlyEmitted(sender.watch, sender.log, arrivals)
    ensures |answers| == |arrivals| && SoundAnswers(sender.watch, sender.record, Room(maxGroups), arrivals, answers)
  {
    ghost var log;
    answers, log := Collect(sender.codec, maxGroups, sender.watch, sender.record, arrivals);
    ghost var notes := seq(|log|, i requires 0 <= i < |log| => Note(log[i].indices, log[i].life));
    assert LogOf(arrivals, answers, notes) == log;
  }

  // ----- when nothing gets in the way -----

  /** The indices of the group's packets that arrived. */
  ghost function Indices(watch: nat, log: seq<Entry>): set<nat> {
    if log == [] then {}
    else
      var before, p := Indices(watch, Front(log)), Back(log).arrival.packet;
      if OfGroup(watch, p) then before + {p.index} else before
  }

  /** A run, however long, that gives no reason to forget or refuse: the clock goes forward; there is one parity
      setting; nothing of the group came a lifetime ago; and never are there packets of 4096 groups within a
      lifetime or, when a packet of this group comes, of so many others that there is no room. */
  ghost predicate Gentle(watch: nat, room: nat, log: seq<Entry>) {
    log == [] || (Gentle(watch, room, Front(log)) && Calm(watch, room, Front(log), Back(log).arrival))
  }

  ghost predicate Calm(watch: nat, room: nat, log: seq<Entry>, a: Arrival) {
    && Forward(log, a.now) && |Recent(log, a.now)| < MAX_COMPLETED
    && (OfGroup(watch, a.packet) ==> |Recent(log, a.now) - {watch}| < Spare(room))
    && forall j :: 0 <= j < |log| && OfGroup(watch, log[j].arrival.packet) ==>
         && a.now - log[j].arrival.now < LIFETIME
         && (OfGroup(watch, a.packet) ==> log[j].arrival.packet.total == a.packet.total)
  }

  /** The group was not forgotten and nothing of it refused. */
  ghost predicate Unlost(watch: nat, log: seq<Entry>) {
    forall j :: 0 <= j < |log| ==> log[j].life == 0 && (OfGroup(watch, log[j].arrival.packet) ==> log[j].answer.Ok?)
  }

  /** The last of such a run is neither a reason to forget nor refused. */
  lemma LastIsKept(watch: nat, sent: Sent, room: nat, log: seq<Entry>, e: Entry)
    requires Sound(watch, sent, room, log, e) && Calm(watch, room, log, e.arrival) && Unlost(watch, log)
    ensures e.life == 0 && (OfGroup(watch, e.arrival.packet) ==> e.answer.Ok?)
  {
    assert !MayForget(watch, log, e.arrival.now);
  }

  lemma UnlostStays(watch: nat, sent: Sent, room: nat, log: seq<Entry>)
    requires log != [] && AllSound(watch, sent, room, log) && Gentle(watch, room, log) && Unlost(watch, Front(log))
    ensures Unlost(watch, log)
  {
    LastIsKept(watch, sent, room, Front(log), Back(log));
    assert forall j :: 0 <= j < |log| ==> log[j] == if j < |log| - 1 then Front(log)[j] else Back(log);
  }

  /** So nothing is forgotten or refused. */
  lemma {:induction false} NothingLost(watch: nat, sent: Sent, room: nat, log: seq<Entry>)
    requires AllSound(watch, sent, room, log) && Gentle(watch, room, log)
    ensures Unlost(watch, log)
  {
    if log != [] {
      NothingLost(watch, sent, room, Front(log));
      UnlostStays(watch, sent, room, log);
    }
  }

  lemma {:induction false} AllArrived(watch: nat, log: seq<Entry>)
    requires Unlost(watch, log)
    ensures AccountOf(watch, log, 0).arrived == Indices(watch, log)
  {
    if log != [] {
      AllArrived(watch, Front(log));
    }
  }

  /** The shard that gives a full group its quorum, when nothing was forgotten or refused. */
  lemma QuorumCompletes(watch: nat, sent: Sent, room: nat, before: seq<Entry>, e: Entry)
    requires Sound(watch, sent, room, before, e) && e.life == 0 && e.answer.Ok? && |sent.payloads| == sent.k
    requires OfGroup(watch, e.arrival.packet) && e.arrival.packet.repair
    requires e.arrival.packet.index !in AccountOf(watch, before, 0).arrived
    requires |AccountOf(watch, before, 0).arrived + {e.arrival.packet.index}| >= sent.k
    ensures var handed := AccountOf(watch, before + [e], 0).handed;
            Distinct(handed) && forall x :: 0 <= x < sent.k ==> x in handed
  {
    assert Front(before + [e]) == before && Back(before + [e]) == e;
  }

  /** So the shard of a gentle run that gives a full group its quorum, if it is a repair shard, gets every payload
      of the group to the stream, each exactly once. */
  lemma LastDelivers(watch: nat, sent: Sent, room: nat, before: seq<Entry>, e: Entry)
    requires AllSound(watch, sent, room, before + [e]) && Gentle(watch, room, before + [e])
    requires |sent.payloads| == sent.k && OfGroup(watch, e.arrival.packet) && e.arrival.packet.repair
    requires e.arrival.packet.index !in Indices(watch, before) && |Indices(watch, before + [e])| >= sent.k
    ensures var handed := AccountOf(watch, before + [e], 0).handed;
            Distinct(handed) && forall x :: 0 <= x < sent.k ==> x in handed
  {
    var upTo := before + [e];
    NothingLost(watch, sent, room, upTo);
    assert Front(upTo) == before && Back(upTo) == e && upTo[|before|] == e;
    assert forall j :: 0 <= j < |before| ==> before[j] == upTo[j];
    AllArrived(watch, before);
    QuorumCompletes(watch, sent, room, before, e);
  }

  /** In any run: any k shards of a full group, the last of them a repair shard, get every payload of the group to
      the stream, each exactly once, if the run is gentle up to there. */
  lemma QuorumDelivers(watch: nat, sent: Sent, room: nat, log: seq<Entry>, before: seq<Entry>, e: Entry)
    requires AllSound(watch, sent, room, log) && before + [e] <= log && Gentle(watch, room, before + [e])
    requires |sent.payloads| == sent.k && OfGroup(watch, e.arrival.packet) && e.arrival.packet.repair
    requires e.arrival.packet.index !in Indices(watch, before) && |Indices(watch, before + [e])| >= sent.k
    ensures var handed := AccountOf(watch, before + [e], 0).handed;
            Distinct(handed) && forall x :: 0 <= x < sent.k ==> x in handed
  {
    BeginningsAreSound(watch, sent, room, log, before + [e]);
    LastDelivers(watch, sent, room, before, e);
  }
}
