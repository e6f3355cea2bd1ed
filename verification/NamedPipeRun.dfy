/** Whole runs of the named-pipe protocol: what happens in them, step by step. */
module NamedPipeRuns {
  import opened Common
  import opened NamedPipes

  /** The atomic steps of callers, of the client's reader and reconnect loop, and of the servers. */
  datatype Event =
    | Call(op: nat, body: nat)
    | WriteFrame(reached: bool, ok: bool)
    | CancelEarly
    | CancelLate(id: nat)
    | ServeNext(conn: nat, ok: bool, data: nat)
    | ReadNext
    | Connect(token: nat)
    | Established
    | Lost
    | Shut

  /** What came of a step. */
  datatype Outcome =
    | Nothing
    | Started(frame: Frame)
    | Refused(error: CallError)
    | Wrote(frame: Frame)
    | GaveUp(frame: Frame)
    | Served(reply: Reply)
    | Delivered(reply: Reply)
    | Dialled(frame: Frame)
    | Ready
    | FailedAll(ids: set<nat>)

  datatype Done = Done(event: Event, outcome: Outcome)

  ghost function Front(log: seq<Done>): seq<Done>
    requires log != []
  {
    log[..|log| - 1]
  }

  ghost function Back(log: seq<Done>): Done
    requires log != []
  {
    log[|log| - 1]
  }

  // ----- what a log says -----

  /** The frames of the calls that were started, by id. */
  ghost function Calls(log: seq<Done>): map<nat, Frame> {
    if log == [] then map[]
    else match Back(log).outcome
      case Started(f) => Calls(Front(log))[f.id := f]
      case _ => Calls(Front(log))
  }

  /** The last id given out, to a call or to an authentication. */
  ghost function LastId(log: seq<Done>): nat {
    if log == [] then 0
    else match Back(log).outcome
      case Started(f) => f.id
      case Dialled(f) => f.id
      case _ => LastId(Front(log))
  }

  /** The calls that wait: neither answered nor failed nor given up. */
  ghost function Waiting(log: seq<Done>): set<nat> {
    if log == [] then {}
    else
      var before, d := Waiting(Front(log)), Back(log);
      match d.outcome
      case Started(f) => before + {f.id}
      case Wrote(f) => if d.event.WriteFrame? && d.event.ok then before else before - {f.id}
      case GaveUp(f) => before - {f.id}
      case Delivered(r) => before - {r.id}
      case FailedAll(_) => {}
      case _ => if d.event.CancelLate? then before - {d.event.id} else before
  }

  /** What a call was told. */
  ghost function Told(log: seq<Done>, id: nat): seq<Message> {
    if log == [] then []
    else
      var before := Told(Front(log), id);
      match Back(log).outcome
      case Delivered(r) => if r.id == id then before + [Answered(r)] else before
      case FailedAll(ids) => if id in ids then before + [Failed] else before
      case _ => before
  }

  /** The call that holds the request lock. */
  ghost function Holding(log: seq<Done>): Option<Frame> {
    if log == [] then None
    else match Back(log).outcome
      case Started(f) => Some(f)
      case Wrote(_) => None
      case GaveUp(_) => None
      case _ => Holding(Front(log))
  }

  /** The frames that reached a server. */
  ghost function Sent(log: seq<Done>): set<Frame> {
    if log == [] then {} else Sent(Front(log)) + NewFrames(Back(log))
  }

  function NewFrames(d: Done): set<Frame> {
    match d.outcome
    case Wrote(f) => if d.event.WriteFrame? && d.event.reached then {f} else {}
    case Dialled(f) => {f}
    case _ => {}
  }

  /** The answers servers gave. */
  ghost function Answers(log: seq<Done>): set<Reply> {
    if log == [] then {} else Answers(Front(log)) + NewReplies(Back(log))
  }

  function NewReplies(d: Done): set<Reply> {
    if d.outcome.Served? then {d.outcome.reply} else {}
  }

  /** The connections with what was written, answered and read on each; the client's connection; the one that
      the lock's holder saw; and whether the client is closed. */
  datatype Net = Net(conns: seq<Conn>, conn: Option<nat>, held: Option<nat>, closed: bool)

  ghost function NetAfter(net: Net, d: Done): Net {
    match d.event
    case Call(_, _) => if d.outcome.Started? then net.(held := net.conn) else net
    case WriteFrame(reached, _) =>
      if !d.outcome.Wrote? || net.held.None? then net
      else net.(conns := if reached then Written(net.conns, net.held.value, d.outcome.frame) else net.conns,
                held := None)
    case CancelEarly => if d.outcome.GaveUp? then net.(held := None) else net
    case CancelLate(_) => net
    case ServeNext(c, _, _) =>
      if d.outcome.Served? then net.(conns := Replied(net.conns, c, d.outcome.reply)) else net
    case ReadNext => if net.conn.Some? then net.(conns := ReadOn(net.conns, net.conn.value)) else net
    case Connect(_) => if d.outcome.Dialled? then net.(conns := net.conns + [Opening(d.outcome.frame)]) else net
    case Established =>
      if !Opens(net.conns, net.conn, net.closed) then net
      else net.(conns := ReadOn(net.conns, |net.conns| - 1),
                conn := if d.outcome.Ready? then Some(|net.conns| - 1) else None)
    case Lost => net.(conn := None)
    case Shut => net.(conn := None, closed := true)
  }

  function Written(conns: seq<Conn>, c: nat, f: Frame): seq<Conn> {
    if c < |conns| then conns[c := conns[c].(requests := conns[c].requests + [f])] else conns
  }

  function Replied(conns: seq<Conn>, c: nat, r: Reply): seq<Conn> {
    if c < |conns| then conns[c := conns[c].(replies := conns[c].replies + [r], last := r.id)] else conns
  }

  ghost function NetOf(log: seq<Done>): Net {
    if log == [] then Net([], None, None, false) else NetAfter(NetOf(Front(log)), Back(log))
  }

  // ----- what a step comes to -----

  /** What a client can tell: the ids, the calls that wait, their channels, and the call that holds the lock. */
  datatype State = State(nextId: nat, pending: set<nat>, chans: map<nat, Chan>, holder: Option<Frame>)

  /** What a step comes to. A call starts exactly when the lock is free, the client open and connected, and the
      calls that wait few enough; the lock's holder writes or gives up; a server answers the next request of its
      connection; the client hands the next answer to the call that waits for it, if one does; a connection is
      dialled when the lock is free, and is ready when its authentication was answered well; a loss is told to
      all that wait. */
  ghost function Answer(maxPending: nat, nextId: nat, pending: set<nat>, holder: Option<Frame>, net: Net,
                        e: Event): Outcome
  {
    match e
    case Call(op, body) =>
      if holder.Some? then Nothing
      else if net.closed then Refused(ClientClosed)
      else if net.conn.None? then Refused(NotReady)
      else if |pending| >= maxPending then Refused(Budget)
      else Started(Frame(nextId, op, body))
    case WriteFrame(_, _) => if holder.Some? then Wrote(holder.value) else Nothing
    case CancelEarly => if holder.Some? then GaveUp(holder.value) else Nothing
    case CancelLate(_) => Nothing
    case ServeNext(c, ok, data) =>
      if c >= |net.conns| || |net.conns[c].replies| >= |net.conns[c].requests| then Nothing
      else
        var f := net.conns[c].requests[|net.conns[c].replies|];
        Served(Reply(f.id, f.op, ok, data, f))
    case ReadNext =>
      if net.conn.None? || net.conn.value >= |net.conns| || !Hears(net.conns[net.conn.value], pending) then Nothing
      else
        var k := net.conns[net.conn.value];
        Delivered(k.replies[k.read])
    case Connect(token) => if holder.None? then Dialled(Frame(nextId, AUTHENTICATE, token)) else Nothing
    case Established =>
      if !Opens(net.conns, net.conn, net.closed) then Nothing
      else
        var r := net.conns[|net.conns| - 1].replies[0];
        if r.op == AUTHENTICATE && r.ok then Ready else Nothing
    case Lost => FailedAll(pending)
    case Shut => FailedAll(pending)
  }

  ghost function After(s: State, d: Done): State {
    match d.outcome
    case Started(f) =>
      s.(nextId := s.nextId + 1, pending := s.pending + {f.id}, chans := s.chans[f.id := Chan(f, [])],
         holder := Some(f))
    case Dialled(_) => s.(nextId := s.nextId + 1)
    case Delivered(r) =>
      s.(pending := s.pending - {r.id}, chans := if r.id in s.chans then Handed(s.chans, r) else s.chans)
    case Wrote(f) =>
      s.(holder := None, pending := if d.event.WriteFrame? && d.event.ok then s.pending else s.pending - {f.id})
    case GaveUp(f) => s.(holder := None, pending := s.pending - {f.id})
    case FailedAll(ids) => s.(pending := {}, chans := AllFailed(s.chans, ids))
    case _ => if d.event.CancelLate? then s.(pending := s.pending - {d.event.id}) else s
  }

  /** Every outcome is the one that the log before it calls for. */
  ghost predicate Prompt(maxPending: nat, log: seq<Done>, d: Done) {
    d.outcome == Answer(maxPending, LastId(log) + 1, Waiting(log), Holding(log), NetOf(log), d.event)
  }

  ghost predicate AllPrompt(maxPending: nat, log: seq<Done>) {
    log == [] || (AllPrompt(maxPending, Front(log)) && Prompt(maxPending, Front(log), Back(log)))
  }

  // ----- what that means for the calls -----

  /** How a step fits those before it: new ids are later than all others; a server answers what was sent to it,
      as the step says; a call is told only while it waits, and only a server's answer to its own request; and
      when the connection is lost, exactly the waiting calls fail. */
  ghost predicate Fits(log: seq<Done>, d: Done) {
    match d.outcome
    case Started(f) => d.event == Call(f.op, f.body) && f.id > LastId(log)
    case Dialled(f) => d.event == Connect(f.body) && f.op == AUTHENTICATE && f.id > LastId(log)
    case Served(r) =>
      && r.of in Sent(log) && r.id == r.of.id && r.op == r.of.op
      && d.event.ServeNext? && d.event.ok == r.ok && d.event.data == r.data
    case Delivered(r) => r.id in Waiting(log) && r.id in Calls(log) && r.of == Calls(log)[r.id] && r in Answers(log)
    case Wrote(f) => f.id in Calls(log) && Calls(log)[f.id] == f
    case GaveUp(f) => f.id in Calls(log) && Calls(log)[f.id] == f
    case FailedAll(ids) => ids == Waiting(log)
    case _ => true
  }

  ghost predicate Disciplined(log: seq<Done>) {
    forall i :: 0 <= i < |log| ==> Fits(log[..i], log[i])
  }

  lemma DisciplinedAppend(log: seq<Done>, d: Done)
    requires Disciplined(log) && Fits(log, d)
    ensures Disciplined(log + [d])
  {
    forall i | 0 <= i < |log + [d]|
      ensures Fits((log + [d])[..i], (log + [d])[i])
    {
      if i < |log| {
        assert (log + [d])[..i] == log[..i];
      } else {
        assert (log + [d])[..i] == log;
      }
    }
  }

  /** Every id given out is below the next, so no call is started twice. */
  lemma {:induction false} CallsAreBelow(log: seq<Done>, id: nat)
    requires Disciplined(log) && id in Calls(log)
    ensures id <= LastId(log)
  {
    assert Fits(log[..|log| - 1], log[|log| - 1]);
    forall i | 0 <= i < |Front(log)| ensures Fits(Front(log)[..i], Front(log)[i]) {
      assert Front(log)[..i] == log[..i] && Fits(log[..i], log[i]);
    }
    if id in Calls(Front(log)) {
      CallsAreBelow(Front(log), id);
    }
  }

  // ----- the client, step by step -----

  /** The channels are those of the calls started, with what each was told. */
  ghost predicate Heard(log: seq<Done>, chans: map<nat, Chan>) {
    && chans.Keys == Calls(log).Keys
    && (forall id :: id in chans ==> chans[id] == Chan(Calls(log)[id], Told(log, id)))
    && (forall id :: id in Calls(log) ==> id <= LastId(log))
    && (forall id :: id > LastId(log) ==> Told(log, id) == [])
  }

  /** The state is what the log says. */
  ghost predicate Consistent(log: seq<Done>, s: State) {
    && s.nextId == LastId(log) + 1 && s.pending == Waiting(log) && Heard(log, s.chans)
    && (s.holder.Some? ==> s.holder.value.id in Calls(log) && Calls(log)[s.holder.value.id] == s.holder.value)
    && s.holder == Holding(log) && Disciplined(log)
  }

  /** Nothing was said yet to those that wait. */
  ghost predicate Unheard(s: State) {
    forall id :: id in s.pending ==> id in s.chans && s.chans[id].sent == []
  }

  /** The next answer on a connection is to the call it names. */
  ghost predicate OwnAnswers(conns: seq<Conn>, chans: map<nat, Chan>) {
    forall c :: 0 <= c < |conns| && conns[c].read < |conns[c].replies| ==>
      var r := conns[c].replies[conns[c].read];
      r.id in chans ==> r.of == chans[r.id].frame
  }

  lemma StartingKeepsHeard(log: seq<Done>, d: Done, chans: map<nat, Chan>)
    requires Heard(log, chans) && d.outcome.Started? && d.outcome.frame.id > LastId(log)
    ensures Heard(log + [d], chans[d.outcome.frame.id := Chan(d.outcome.frame, [])])
  {
    var more := log + [d];
    assert Front(more) == log && Back(more) == d;
    var f := d.outcome.frame;
    assert Calls(more) == Calls(log)[f.id := f] && LastId(more) == f.id && Told(log, f.id) == [];
    assert forall id :: Told(more, id) == Told(log, id);
  }

  lemma AnsweringKeepsHeard(log: seq<Done>, d: Done, chans: map<nat, Chan>)
    requires Heard(log, chans) && d.outcome.Delivered?
    requires d.outcome.reply.id in chans && chans[d.outcome.reply.id].sent == []
    ensures Heard(log + [d], Handed(chans, d.outcome.reply))
  {
    var more := log + [d];
    assert Front(more) == log && Back(more) == d;
    var r := d.outcome.reply;
    assert Calls(more) == Calls(log) && LastId(more) == LastId(log);
    assert forall id :: Told(more, id) == if id == r.id then Told(log, id) + [Answered(r)] else Told(log, id);
  }

  lemma FailingKeepsHeard(log: seq<Done>, d: Done, chans: map<nat, Chan>)
    requires Heard(log, chans) && d.outcome.FailedAll?
    requires forall id :: id in d.outcome.ids ==> id in chans && chans[id].sent == []
    ensures Heard(log + [d], AllFailed(chans, d.outcome.ids))
  {
    var more := log + [d];
    assert Front(more) == log && Back(more) == d;
    assert Calls(more) == Calls(log) && LastId(more) == LastId(log);
    assert forall id :: Told(more, id) == if id in d.outcome.ids then Told(log, id) + [Failed] else Told(log, id);
  }

  lemma OthersKeepHeard(log: seq<Done>, d: Done, chans: map<nat, Chan>)
    requires Heard(log, chans) && !d.outcome.Started? && !d.outcome.Delivered? && !d.outcome.FailedAll?
    requires d.outcome.Dialled? ==> d.outcome.frame.id > LastId(log)
    ensures Heard(log + [d], chans)
  {
    assert Front(log + [d]) == log && Back(log + [d]) == d;
  }

  lemma MovingKeepsHeard(log: seq<Done>, d: Done, s: State)
    requires Consistent(log, s) && Unheard(s) && Fits(log, d)
    ensures Heard(log + [d], After(s, d).chans)
  {
    match d.outcome
    case Started(_) => StartingKeepsHeard(log, d, s.chans);
    case Delivered(_) => AnsweringKeepsHeard(log, d, s.chans);
    case FailedAll(_) => FailingKeepsHeard(log, d, s.chans);
    case _ => OthersKeepHeard(log, d, s.chans);
  }

  lemma MovingKeepsIds(log: seq<Done>, d: Done, s: State)
    requires s.nextId == LastId(log) + 1 && s.pending == Waiting(log)
    requires d.outcome.Started? || d.outcome.Dialled? ==> d.outcome.frame.id == s.nextId
    requires d.event.CancelLate? ==> d.outcome.Nothing?
    ensures After(s, d).nextId == LastId(log + [d]) + 1 && After(s, d).pending == Waiting(log + [d])
  {
    assert Front(log + [d]) == log && Back(log + [d]) == d;
  }

  lemma MovingKeepsHolder(log: seq<Done>, d: Done, s: State)
    requires s.holder == Holding(log)
    requires s.holder.Some? && !d.outcome.Started? ==>
               s.holder.value.id in Calls(log) && Calls(log)[s.holder.value.id] == s.holder.value
    ensures var h := After(s, d).holder;
            && h == Holding(log + [d])
            && (h.Some? ==> h.value.id in Calls(log + [d]) && Calls(log + [d])[h.value.id] == h.value)
  {
    assert Front(log + [d]) == log && Back(log + [d]) == d;
  }

  /** The calls that wait, and what each was told, are what the log says. */
  lemma MovingKeepsConsistent(maxPending: nat, log: seq<Done>, d: Done, s: State)
    requires Consistent(log, s) && Unheard(s) && Fits(log, d) && Prompt(maxPending, log, d)
    ensures Consistent(log + [d], After(s, d))
  {
    DisciplinedAppend(log, d);
    MovingKeepsHeard(log, d, s);
    MovingKeepsIds(log, d, s);
    MovingKeepsHolder(log, d, s);
  }

  /** A server's answer is to a frame that was sent, and an answer that is handed over is one of a server. */
  lemma OnTheWires(conns: seq<Conn>, frames: set<Frame>, replies: set<Reply>, c: nat)
    requires Made(conns, frames, replies) && c < |conns|
    ensures |conns[c].replies| < |conns[c].requests| ==> conns[c].requests[|conns[c].replies|] in frames
    ensures conns[c].read < |conns[c].replies| ==> conns[c].replies[conns[c].read] in replies
  {
  }

  lemma ServedFits(maxPending: nat, log: seq<Done>, d: Done)
    requires Prompt(maxPending, log, d) && d.event.ServeNext? && Made(NetOf(log).conns, Sent(log), Answers(log))
    ensures Fits(log, d)
  {
    if d.event.conn < |NetOf(log).conns| {
      OnTheWires(NetOf(log).conns, Sent(log), Answers(log), d.event.conn);
    }
  }

  lemma DeliveredFits(maxPending: nat, log: seq<Done>, d: Done, s: State)
    requires Consistent(log, s) && Unheard(s) && Prompt(maxPending, log, d) && d.event.ReadNext?
    requires Made(NetOf(log).conns, Sent(log), Answers(log)) && OwnAnswers(NetOf(log).conns, s.chans)
    ensures Fits(log, d)
  {
    if d.outcome.Delivered? {
      OnTheWires(NetOf(log).conns, Sent(log), Answers(log), NetOf(log).conn.value);
    }
  }

  lemma OthersFit(maxPending: nat, log: seq<Done>, d: Done, s: State)
    requires Consistent(log, s) && Prompt(maxPending, log, d) && !d.event.ServeNext? && !d.event.ReadNext?
    ensures Fits(log, d)
  {
  }

  /** An outcome the log calls for fits the log: the ids are new, answers are to the calls that wait for them. */
  lemma PromptFits(maxPending: nat, log: seq<Done>, d: Done, s: State)
    requires Consistent(log, s) && Unheard(s) && Prompt(maxPending, log, d)
    requires Made(NetOf(log).conns, Sent(log), Answers(log)) && OwnAnswers(NetOf(log).conns, s.chans)
    ensures Fits(log, d)
  {
    if d.event.ServeNext? {
      ServedFits(maxPending, log, d);
    } else if d.event.ReadNext? {
      DeliveredFits(maxPending, log, d, s);
    } else {
      OthersFit(maxPending, log, d, s);
    }
  }

  lemma WritingKeepsMade(conns: seq<Conn>, c: nat, f: Frame, frames: set<Frame>, replies: set<Reply>)
    requires Made(conns, frames, replies)
    ensures Made(Written(conns, c, f), frames + {f}, replies)
  {
  }

  lemma ReplyingKeepsMade(conns: seq<Conn>, c: nat, r: Reply, frames: set<Frame>, replies: set<Reply>)
    requires Made(conns, frames, replies)
    ensures Made(Replied(conns, c, r), frames, replies + {r})
  {
  }

  lemma ReadingKeepsMade(conns: seq<Conn>, c: nat, frames: set<Frame>, replies: set<Reply>)
    requires Made(conns, frames, replies)
    ensures Made(ReadOn(conns, c), frames, replies)
  {
  }

  /** What is on the wires was sent, or was answered. */
  lemma WiresFollow(net: Net, d: Done, frames: set<Frame>, replies: set<Reply>)
    requires Made(net.conns, frames, replies)
    ensures Made(NetAfter(net, d).conns, frames + NewFrames(d), replies + NewReplies(d))
  {
    match d.event
    case WriteFrame(_, _) =>
      if d.outcome.Wrote? && net.held.Some? {
        WritingKeepsMade(net.conns, net.held.value, d.outcome.frame, frames, replies);
      }
    case ServeNext(c, _, _) =>
      if d.outcome.Served? {
        ReplyingKeepsMade(net.conns, c, d.outcome.reply, frames, replies);
      }
    case ReadNext =>
      if net.conn.Some? {
        ReadingKeepsMade(net.conns, net.conn.value, frames, replies);
      }
    case Established =>
      if Opens(net.conns, net.conn, net.closed) {
        ReadingKeepsMade(net.conns, |net.conns| - 1, frames, replies);
      }
    case _ =>
  }

  ghost function StateOf(client: Client): State
    reads client
  {
    State(client.nextId, client.pending, client.chans,
          if client.holder.Some? then Some(client.holder.value.frame) else None)
  }

  ghost function NetNow(client: Client): Net
    reads client
  {
    Net(client.conns, client.conn, if client.holder.Some? then Some(client.holder.value.conn) else None, client.closed)
  }

  /** What an event comes to at a client. */
  ghost function OutcomeOf(client: Client, e: Event): Outcome
    reads client
  {
    var s := StateOf(client);
    Answer(client.maxPending, s.nextId, s.pending, s.holder, NetNow(client), e)
  }

  method OnCall(client: Client, e: Event) returns (d: Done)
    requires client.Valid() && client.nextId < LAST_ID && e.Call?
    modifies client`nextId, client`pending, client`chans, client`holder
    ensures client.Valid() && d == Done(e, old(OutcomeOf(client, e)))
    ensures StateOf(client) == After(old(StateOf(client)), d) && NetNow(client) == NetAfter(old(NetNow(client)), d)
  {
    d := Done(e, Nothing);
    if client.holder.None? {
      var r := client.Start(e.op, e.body);
      d := Done(e, match r case Ok(f) => Started(f) case Err(error) => Refused(error));
    }
  }

  /** A call that holds the lock writes or gives up, or one that waits gives up. */
  method OnHolder(client: Client, e: Event) returns (d: Done)
    requires client.Valid() && (e.WriteFrame? || e.CancelEarly? || e.CancelLate?)
    modifies client`pending, client`conns, client`holder
    ensures client.Valid() && d == Done(e, old(OutcomeOf(client, e)))
    ensures StateOf(client) == After(old(StateOf(client)), d) && NetNow(client) == NetAfter(old(NetNow(client)), d)
  {
    d := Done(e, Nothing);
    if e.CancelLate? {
      client.RemovePending(e.id);
    } else if client.holder.Some? {
      var f := client.holder.value.frame;
      if e.WriteFrame? {
        client.Write(e.reached, e.ok);
        d := Done(e, Wrote(f));
      } else {
        client.GiveUp();
        d := Done(e, GaveUp(f));
      }
    }
  }

  /** A server answers the next request of a connection. */
  method OnServer(client: Client, e: Event) returns (d: Done)
    requires client.Valid() && e.ServeNext?
    modifies client`conns
    ensures client.Valid() && d == Done(e, old(OutcomeOf(client, e)))
    ensures StateOf(client) == After(old(StateOf(client)), d) && NetNow(client) == NetAfter(old(NetNow(client)), d)
  {
    d := Done(e, Nothing);
    if e.conn < |client.conns| {
      var r := client.Serve(e.conn, e.ok, e.data);
      d := if r.Some? then Done(e, Served(r.value)) else d;
    }
  }

  /** The client reads the next answer. */
  method OnReader(client: Client, e: Event) returns (d: Done)
    requires client.Valid() && e.ReadNext?
    modifies client`pending, client`chans, client`conns
    ensures client.Valid() && d == Done(e, old(OutcomeOf(client, e)))
    ensures StateOf(client) == After(old(StateOf(client)), d) && NetNow(client) == NetAfter(old(NetNow(client)), d)
  {
    d := Done(e, Nothing);
    if client.conn.Some? {
      var r := client.ReadReply();
      d := if r.Some? then Done(e, Delivered(r.value)) else d;
    }
  }

  /** A connection is made. */
  method OnConnect(client: Client, e: Event) returns (d: Done)
    requires client.Valid() && client.nextId < LAST_ID && e.Connect?
    modifies client`nextId, client`conns
    ensures client.Valid() && d == Done(e, old(OutcomeOf(client, e)))
    ensures StateOf(client) == After(old(StateOf(client)), d) && NetNow(client) == NetAfter(old(NetNow(client)), d)
  {
    d := Done(e, Nothing);
    if client.holder.None? {
      var f := client.Dial(e.token);
      d := Done(e, Dialled(f));
    }
  }

  /** Its authentication was answered. */
  method OnEstablished(client: Client, e: Event) returns (d: Done)
    requires client.Valid() && e.Established?
    modifies client`conns, client`conn
    ensures client.Valid() && d == Done(e, old(OutcomeOf(client, e)))
    ensures StateOf(client) == After(old(StateOf(client)), d) && NetNow(client) == NetAfter(old(NetNow(client)), d)
  {
    var ok := client.Establish();
    d := Done(e, if ok then Ready else Nothing);
  }

  /** It is lost or closed. */
  method OnLoss(client: Client, e: Event) returns (d: Done)
    requires client.Valid() && (e.Lost? || e.Shut?)
    modifies client`closed, client`conn, client`pending, client`chans
    ensures client.Valid() && d == Done(e, old(OutcomeOf(client, e)))
    ensures StateOf(client) == After(old(StateOf(client)), d) && NetNow(client) == NetAfter(old(NetNow(client)), d)
  {
    d := Done(e, FailedAll(client.pending));
    if e.Lost? {
      client.Detach();
    } else {
      client.Close();
    }
  }

  /** Any step comes to what it should, and moves the client as its outcome says. */
  method Step(client: Client, e: Event) returns (d: Done)
    requires client.Valid() && client.nextId < LAST_ID
    modifies client
    ensures client.Valid() && d == Done(e, old(OutcomeOf(client, e)))
    ensures StateOf(client) == After(old(StateOf(client)), d) && NetNow(client) == NetAfter(old(NetNow(client)), d)
  {
    if e.Call? {
      d := OnCall(client, e);
    } else if e.WriteFrame? || e.CancelEarly? || e.CancelLate? {
      d := OnHolder(client, e);
    } else if e.ServeNext? {
      d := OnServer(client, e);
    } else if e.ReadNext? {
      d := OnReader(client, e);
    } else if e.Connect? {
      d := OnConnect(client, e);
    } else if e.Established? {
      d := OnEstablished(client, e);
    } else {
      d := OnLoss(client, e);
    }
  }

  /** The log is of what happened to this client. */
  ghost predicate Logged(log: seq<Done>, client: Client)
    reads client
  {
    && Consistent(log, StateOf(client)) && NetOf(log) == NetNow(client) && AllPrompt(client.maxPending, log)
    && Made(client.conns, Sent(log), Answers(log))
  }

  /** What a sound client brings to its next step. */
  lemma Prepared(client: Client)
    requires client.Valid()
    ensures Unheard(StateOf(client)) && OwnAnswers(client.conns, client.chans)
  {
    forall c | 0 <= c < |client.conns| && client.conns[c].read < |client.conns[c].replies|
      ensures var r := client.conns[c].replies[client.conns[c].read];
              r.id in client.chans ==> r.of == client.chans[r.id].frame
    {
      var k := client.conns[c];
      assert ConnOk(k, client.Bound()) && FramesOwn(k, client.chans);
      assert k.replies[k.read].of == k.requests[k.read];
    }
  }

  method Log(client: Client, e: Event, log: seq<Done>) returns (d: Done)
    requires client.Valid() && client.nextId < LAST_ID && Logged(log, client)
    modifies client
    ensures client.Valid() && d.event == e && Logged(log + [d], client) && client.nextId <= old(client.nextId) + 1
  {
    ghost var s := StateOf(client);
    Prepared(client);
    d := Step(client, e);
    PromptFits(client.maxPending, log, d, s);
    MovingKeepsConsistent(client.maxPending, log, d, s);
    WiresFollow(NetOf(log), d, Sent(log), Answers(log));
    assert Front(log + [d]) == log && Back(log + [d]) == d;
  }

  /** Every interleaving with fewer than 2^64 requests. Every step comes to exactly what it should; new ids, of calls
      and authentications, increase; each call is told at most one thing, and only while it waits: a server's
      answer to the very frame it sent, or that the connection was lost, which all calls then waiting are told. */
  method Run(maxPending: nat, events: seq<Event>) returns (client: Client, log: seq<Done>)
    requires |events| < LAST_ID - 1
    ensures client.Valid() && |log| == |events| && forall i :: 0 <= i < |events| ==> log[i].event == events[i]
    ensures Disciplined(log) && AllPrompt(maxPending, log)
    ensures client.pending == Waiting(log) && client.chans.Keys == Calls(log).Keys
    ensures forall id :: id in Calls(log) ==>
              client.chans[id] == Chan(Calls(log)[id], Told(log, id))
              && |Told(log, id)| <= 1
    ensures forall c :: 0 <= c < |client.conns| ==> Ordered(client.conns[c].requests, client.nextId)
  {
    client := new Client(maxPending);
    log := [];
    for i := 0 to |events|
      invariant fresh(client) && client.Valid() && client.nextId <= 1 + i && Logged(log, client)
      invariant client.maxPending == maxPending
      invariant |log| == i && forall n :: 0 <= n < i ==> log[n].event == events[n]
    {
      var d := Log(client, events[i], log);
      log := log + [d];
    }
    Account(client, log);
  }

  lemma Account(client: Client, log: seq<Done>)
    requires client.Valid() && Logged(log, client)
    ensures AllPrompt(client.maxPending, log) && Disciplined(log)
    ensures client.pending == Waiting(log) && client.chans.Keys == Calls(log).Keys
    ensures forall id :: id in Calls(log) ==>
              client.chans[id] == Chan(Calls(log)[id], Told(log, id))
              && |Told(log, id)| <= 1
    ensures forall c :: 0 <= c < |client.conns| ==> Ordered(client.conns[c].requests, client.nextId)
  {
    forall c | 0 <= c < |client.conns|
      ensures Ordered(client.conns[c].requests, client.nextId)
    {
      assert ConnOk(client.conns[c], client.Bound());
    }
    assert forall id :: id in client.chans ==> ChanOk(client.chans[id], id, client.nextId);
  }
}
