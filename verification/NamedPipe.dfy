/** The request protocol of the helper's named pipe: callers that share one client, connections that come and
    go, and the server's loop on each connection.

    A call holds the request lock from the allocation of its id until its frame is written, so the steps
    below either find the lock free or belong to its holder. */
module NamedPipes {
  import opened Common

  const LAST_ID := 0xffff_ffff_ffff_ffff
  const AUTHENTICATE := 1

  datatype Frame = Frame(id: nat, op: nat, body: nat)

  /** A response, with the request it was made for. */
  datatype Reply = Reply(id: nat, op: nat, ok: bool, data: nat, of: Frame)

  /** What arrives on a response channel. */
  datatype Message = Answered(reply: Reply) | Failed

  /** The response channel of a call, capacity one: the call's own frame and all that was ever sent on it. */
  datatype Chan = Chan(frame: Frame, sent: seq<Message>)

  /** One connection: the frames written to it, how many of them the server has answered and with what, the
      last id the server saw, and how many answers the client has read. */
  datatype Conn = Conn(requests: seq<Frame>, replies: seq<Reply>, last: nat, read: nat)

  /** A call that holds the request lock: its frame is not yet written. */
  datatype Holder = Holder(frame: Frame, conn: nat)

  ghost predicate Ordered(requests: seq<Frame>, bound: nat) {
    && (forall i, j :: 0 <= i < j < |requests| ==> requests[i].id < requests[j].id)
    && (forall i :: 0 <= i < |requests| ==> 1 <= requests[i].id < bound)
  }

  /** Ids on a connection increase and stay below the bound, and answers match requests one to one. */
  ghost predicate ConnOk(c: Conn, bound: nat) {
    && Ordered(c.requests, bound) && c.read <= |c.replies| <= |c.requests|
    && c.last == (if c.replies == [] then 0 else c.requests[|c.replies| - 1].id)
    && (forall i :: 0 <= i < |c.replies| ==>
          && c.replies[i].of == c.requests[i]
          && c.replies[i].id == c.requests[i].id && c.replies[i].op == c.requests[i].op)
  }

  /** A call's frame on the wire is the call's own. */
  ghost predicate FramesOwn(c: Conn, chans: map<nat, Chan>) {
    forall i :: 0 <= i < |c.requests| && c.requests[i].id in chans ==> chans[c.requests[i].id].frame == c.requests[i]
  }

  /** At most one message on a channel, and an answer only to the call's own request. */
  ghost predicate ChanOk(ch: Chan, id: nat, nextId: nat) {
    && id < nextId && ch.frame.id == id && |ch.sent| <= 1
    && (forall i :: 0 <= i < |ch.sent| && ch.sent[i].Answered? ==> ch.sent[i].reply.of == ch.frame)
  }

  lemma WriteKeepsConn(c: Conn, f: Frame, bound: nat)
    requires ConnOk(c, bound) && f.id == bound && bound >= 1
    ensures ConnOk(c.(requests := c.requests + [f]), bound + 1)
  {
  }

  lemma WiderBound(c: Conn, bound: nat)
    requires ConnOk(c, bound)
    ensures ConnOk(c, bound + 1)
  {
  }

  ghost predicate ConnsOk(conns: seq<Conn>, bound: nat, chans: map<nat, Chan>) {
    forall c :: 0 <= c < |conns| ==> ConnOk(conns[c], bound) && FramesOwn(conns[c], chans)
  }

  lemma WiderBounds(conns: seq<Conn>, bound: nat, chans: map<nat, Chan>)
    requires ConnsOk(conns, bound, chans)
    ensures ConnsOk(conns, bound + 1, chans)
  {
    forall c | 0 <= c < |conns|
      ensures ConnOk(conns[c], bound + 1)
    {
      WiderBound(conns[c], bound);
    }
  }

  /** The holder's frame at the end of its connection. */
  function Sent(conns: seq<Conn>, h: Holder): seq<Conn>
    requires h.conn < |conns|
  {
    conns[h.conn := conns[h.conn].(requests := conns[h.conn].requests + [h.frame])]
  }

  /** The frame with the id at the bound goes onto one of the connections. */
  lemma WriteKeepsConns(conns: seq<Conn>, bound: nat, chans: map<nat, Chan>, c: nat, f: Frame)
    requires ConnsOk(conns, bound, chans) && c < |conns| && f.id == bound >= 1 && (f.id in chans ==>
             chans[f.id].frame == f)
    ensures ConnsOk(conns[c := conns[c].(requests := conns[c].requests + [f])], bound + 1, chans)
  {
    WiderBounds(conns, bound, chans);
    WriteKeepsConn(conns[c], f, bound);
  }

  /** A connection that has only its first frame. */
  function Opening(f: Frame): Conn {
    Conn([f], [], 0, 0)
  }

  lemma DialKeepsConns(conns: seq<Conn>, bound: nat, chans: map<nat, Chan>, f: Frame)
    requires ConnsOk(conns, bound, chans) && f.id == bound >= 1 && f.id !in chans
    ensures ConnsOk(conns + [Opening(f)], bound + 1, chans)
  {
    WiderBounds(conns, bound, chans);
    var c := Opening(f);
    assert ConnOk(c, bound + 1) && FramesOwn(c, chans);
  }

  /** The server's next request is later than the last one it saw, and answering it keeps the match. */
  lemma ServeKeepsConn(c: Conn, bound: nat, ok: bool, data: nat)
    requires ConnOk(c, bound) && |c.replies| < |c.requests|
    ensures var f := c.requests[|c.replies|];
            f.id > c.last && ConnOk(c.(replies := c.replies + [Reply(f.id, f.op, ok, data, f)], last := f.id), bound)
  {
    if c.replies != [] {
      assert c.requests[|c.replies| - 1].id < c.requests[|c.replies|].id;
    }
  }

  /** Everything on the wires is among these frames and answers. */
  ghost predicate Made(conns: seq<Conn>, frames: set<Frame>, replies: set<Reply>) {
    && (forall c, i :: 0 <= c < |conns| && 0 <= i < |conns[c].requests| ==> conns[c].requests[i] in frames)
    && (forall c, i :: 0 <= c < |conns| && 0 <= i < |conns[c].replies| ==> conns[c].replies[i] in replies)
  }

  ghost function AllFailed(chans: map<nat, Chan>, pending: set<nat>): map<nat, Chan> {
    map id | id in chans :: if id in pending then chans[id].(sent := [Failed]) else chans[id]
  }

  /** Every waiting channel gets the error. */
  method FailAll(chans: map<nat, Chan>, pending: set<nat>) returns (after: map<nat, Chan>)
    requires forall id :: id in pending ==> id in chans && chans[id].sent == []
    ensures after == AllFailed(chans, pending) && after.Keys == chans.Keys
    ensures forall id :: id in chans ==>
              after[id] == Chan(chans[id].frame, if id in pending then [Failed] else chans[id].sent)
  {
    after := chans;
    var todo := pending;
    while todo != {}
      invariant todo <= pending && after.Keys == chans.Keys
      invariant forall id :: id in chans ==>
                  after[id] == if id in pending && id !in todo then chans[id].(sent := [Failed]) else chans[id]
      decreases todo
    {
      var id :| id in todo;
      todo := todo - {id};
      assert after[id].sent == [];
      after := after[id := after[id].(sent := after[id].sent + [Failed])];
    }
  }

  /** The channel of an answered call holds the answer. */
  ghost function Handed(chans: map<nat, Chan>, reply: Reply): map<nat, Chan>
    requires reply.id in chans
  {
    chans[reply.id := chans[reply.id].(sent := [Answered(reply)])]
  }

  /** The next answer on the connection, if there is one, has been read. */
  function ReadOn(conns: seq<Conn>, c: nat): (conns': seq<Conn>)
    ensures |conns'| == |conns|
  {
    if c < |conns| && conns[c].read < |conns[c].replies| then conns[c := conns[c].(read := conns[c].read + 1)]
    else conns
  }

  /** The newest connection waits for the answer to its authentication, and that is there. */
  predicate Opens(conns: seq<Conn>, conn: Option<nat>, closed: bool) {
    && conns != [] && !closed && conn.None?
    && conns[|conns| - 1].read == 0 && |conns[|conns| - 1].replies| > 0
  }

  /** The next answer to read is one that is waited for. */
  predicate Hears(k: Conn, pending: set<nat>) {
    k.read < |k.replies| && k.replies[k.read].id in pending
  }

  datatype CallError = ClientClosed | NotReady | Budget

  class Client {
    const maxPending: nat
    var nextId: nat
    var pending: set<nat>
    var chans: map<nat, Chan>
    var conns: seq<Conn>
    var conn: Option<nat>
    var holder: Option<Holder>
    var closed: bool

    /** Ids below the bound may be on the wire. */
    ghost function Bound(): nat
      reads `nextId, `holder
    {
      if holder.Some? && nextId > 0 then nextId - 1 else nextId
    }

    ghost predicate Wires()
      reads `nextId, `holder, `conns, `chans
    {
      ConnsOk(conns, Bound(), chans)
    }

    ghost predicate Channels()
      reads `nextId, `chans, `pending
    {
      && (forall id :: id in chans ==> ChanOk(chans[id], id, nextId))
      && (forall id :: id in pending ==> id in chans && chans[id].sent == [])
    }

    ghost predicate Locks()
      reads `nextId, `holder, `conns, `chans, `conn
    {
      && nextId >= 1 && (conn.Some? ==> conn.value < |conns|)
      && (holder.Some? ==>
            var f := holder.value.frame;
            f.id == nextId - 1 && f.id >= 1 && f.id in chans && chans[f.id].frame == f && holder.value.conn < |conns|)
    }

    ghost predicate Valid()
      reads this
    {
      Wires() && Channels() && Locks()
    }

    constructor (maxPending: nat)
      ensures Valid() && nextId == 1 && holder == None && conns == [] && pending == {} && chans == map[]
      ensures conn == None && !closed && this.maxPending == maxPending
    {
      this.maxPending := maxPending;
      nextId, pending, chans, conns, conn, holder, closed := 1, {}, map[], [], None, None, false;
    }

    /** A call takes the request lock and, if it may proceed, an id and a channel. */
    method Start(op: nat, body: nat) returns (r: Result<Frame, CallError>)
      requires Valid() && holder.None? && nextId < LAST_ID
      modifies `nextId, `pending, `chans, `holder
      ensures Valid()
      ensures r.Ok? ==> && r.value == Frame(old(nextId), op, body) && r.value.id !in old(chans)
                        && nextId == old(nextId) + 1 && pending == old(pending) + {r.value.id}
                        && chans == old(chans)[r.value.id := Chan(r.value, [])]
                        && holder.Some? && holder.value.frame == r.value && Some(holder.value.conn) == conn
      ensures r.Ok? <==> !closed && conn.Some? && |old(pending)| < maxPending
      ensures r.Err? ==> r.error == if closed then ClientClosed else if conn.None? then NotReady else Budget
      ensures r.Err? ==> holder.None? && nextId == old(nextId) && pending == old(pending) && chans == old(chans)
    {
      if closed {
        return Err(ClientClosed);
      }
      if conn.None? {
        return Err(NotReady);
      }
      if |pending| >= maxPending {
        return Err(Budget);
      }
      var f := Frame(nextId, op, body);
      Allocate(f, conn.value);
      return Ok(f);
    }

    method Allocate(f: Frame, c: nat)
      requires Valid() && holder.None? && f.id == nextId && c < |conns|
      modifies `nextId, `pending, `chans, `holder
      ensures Valid() && nextId == old(nextId) + 1 && holder == Some(Holder(f, c))
      ensures chans == old(chans)[f.id := Chan(f, [])] && pending == old(pending) + {f.id}
    {
      nextId := nextId + 1;
      chans := chans[f.id := Chan(f, [])];
      pending := pending + {f.id};
      holder := Some(Holder(f, c));
    }

    method RemovePending(id: nat)
      requires Channels()
      modifies `pending
      ensures Channels() && pending == old(pending) - {id}
    {
      pending := pending - {id};
    }

    /** The holder writes its frame to the connection it saw, which may be gone by now, and lets go of the
        lock; `reached` says whether the frame got onto the wire, `ok` whether the write reported success. */
    method Write(reached: bool, ok: bool)
      requires Valid() && holder.Some?
      modifies `pending, `conns, `holder
      ensures Valid() && holder.None? && nextId == old(nextId)
      ensures conns == if reached then Sent(old(conns), old(holder).value) else old(conns)
      ensures reached ==>
                var c := old(holder).value.conn;
                conns == old(conns)[c := old(conns)[c].(requests := old(conns)[c].requests + [old(holder).value.frame])]
      ensures pending == if ok then old(pending) else old(pending) - {old(holder).value.frame.id}
    {
      var h := holder.value;
      Put(h, reached);
      if !ok {
        RemovePending(h.frame.id);
      }
    }

    method Put(h: Holder, reached: bool)
      requires Valid() && holder == Some(h)
      modifies `conns, `holder
      ensures Valid() && holder.None? && conns == if reached then Sent(old(conns), h) else old(conns)
    {
      WiderBounds(conns, Bound(), chans);
      if reached {
        WriteKeepsConns(conns, Bound(), chans, h.conn, h.frame);
        conns := Sent(conns, h);
      }
      holder := None;
    }

    /** The caller gives up: before its frame is written, or while it waits. */
    method GiveUp()
      requires Valid() && holder.Some?
      modifies `pending, `conns, `holder
      ensures Valid() && holder.None? && conns == old(conns)
      ensures pending == old(pending) - {old(holder).value.frame.id}
    {
      Write(false, false);
    }

    /** The server's loop on a connection answers its next request; its check that ids increase never fires. */
    method Serve(c: nat, ok: bool, data: nat) returns (r: Option<Reply>)
      requires Valid() && c < |conns|
      modifies `conns
      ensures Valid()
      ensures var k := old(conns)[c];
              if |k.replies| == |k.requests| then r == None && conns == old(conns)
              else
                var f := k.requests[|k.replies|];
                && r == Some(Reply(f.id, f.op, ok, data, f))
                && conns == old(conns)[c := k.(replies := k.replies + [r.value], last := f.id)]
    {
      var k := conns[c];
      if |k.replies| == |k.requests| {
        return None;
      }
      var f := k.requests[|k.replies|];
      ServeKeepsConn(k, Bound(), ok, data);
      assert !(f.id <= k.last);
      r := Some(Reply(f.id, f.op, ok, data, f));
      conns := conns[c := k.(replies := k.replies + [r.value], last := f.id)];
    }

    /** The client reads the next answer of its connection and hands it to the call that waits for it. */
    method ReadReply() returns (r: Option<Reply>)
      requires Valid() && conn.Some?
      modifies `conns, `pending, `chans
      ensures Valid()
      ensures var k := old(conns)[conn.value];
              if k.read == |k.replies| then r == None && conns == old(conns)
              else
                && r == (if k.replies[k.read].id in old(pending) then Some(k.replies[k.read]) else None)
                && conns == old(conns)[conn.value := k.(read := k.read + 1)]
      ensures r.Some? ==> r.value.id in old(chans) && r.value.of == old(chans)[r.value.id].frame
      ensures pending == if r.Some? then old(pending) - {r.value.id} else old(pending)
      ensures chans == if r.Some? then Handed(old(chans), r.value) else old(chans)
      ensures r.Some? ==>
                chans == old(chans)[r.value.id := Chan(old(chans)[r.value.id].frame, [Answered(r.value)])]
    {
      var k := conns[conn.value];
      if k.read == |k.replies| {
        return None;
      }
      var reply := k.replies[k.read];
      assert reply.id in chans ==> reply.of == chans[reply.id].frame by {
        assert reply.of == k.requests[k.read] && FramesOwn(k, chans);
      }
      Advance(conn.value);
      r := Resolve(reply);
    }

    method Advance(c: nat)
      requires Valid() && c < |conns| && conns[c].read < |conns[c].replies|
      modifies `conns
      ensures Valid() && conns == old(conns)[c := old(conns)[c].(read := old(conns)[c].read + 1)]
    {
      conns := conns[c := conns[c].(read := conns[c].read + 1)];
    }

    /** Sends on the channel under the lock, which cannot block: nothing was sent on it before. */
    method Resolve(reply: Reply) returns (r: Option<Reply>)
      requires Valid() && (reply.id in chans ==> reply.of == chans[reply.id].frame)
      modifies `pending, `chans
      ensures Valid() && r == if reply.id in old(pending) then Some(reply) else None
      ensures pending == if r.Some? then old(pending) - {reply.id} else old(pending)
      ensures r.Some? ==> reply.id in old(chans) && old(chans)[reply.id].sent == []
      ensures chans == if r.Some? then Handed(old(chans), reply) else old(chans)
    {
      if reply.id !in pending {
        return None;
      }
      pending := pending - {reply.id};
      var ch := chans[reply.id];
      assert ch.sent == [] && ch.sent + [Answered(reply)] == [Answered(reply)];
      chans := chans[reply.id := ch.(sent := ch.sent + [Answered(reply)])];
      return Some(reply);
    }

    /** A new connection starts with the authentication request, under the request lock. */
    method Dial(token: nat) returns (f: Frame)
      requires Valid() && holder.None? && nextId < LAST_ID
      modifies `nextId, `conns
      ensures Valid() && f == Frame(old(nextId), AUTHENTICATE, token)
      ensures nextId == old(nextId) + 1 && conns == old(conns) + [Conn([f], [], 0, 0)]
    {
      f := Frame(nextId, AUTHENTICATE, token);
      Launch(f);
    }

    method Launch(f: Frame)
      requires Valid() && holder.None? && f.id == nextId
      modifies `nextId, `conns
      ensures Valid() && nextId == old(nextId) + 1 && conns == old(conns) + [Opening(f)]
    {
      DialKeepsConns(conns, nextId, chans, f);
      conns := conns + [Opening(f)];
      nextId := nextId + 1;
    }

    /** The newest connection becomes the client's once its authentication is answered well. */
    method Establish() returns (ok: bool)
      requires Valid()
      modifies `conns, `conn
      ensures Valid() && conn == if ok then Some(|conns| - 1) else old(conn)
      ensures if old(conns) == [] || closed || old(conn).Some? then !ok && conns == old(conns)
              else
                var n := |old(conns)| - 1;
                var k := old(conns)[n];
                if k.read > 0 || k.replies == [] then !ok && conns == old(conns)
                else
                  && (ok <==> k.replies[0].op == AUTHENTICATE && k.replies[0].ok)
                  && conns == old(conns)[n := k.(read := 1)]
    {
      if conns == [] || closed || conn.Some? {
        return false;
      }
      var k := conns[|conns| - 1];
      if k.read != 0 || |k.replies| == 0 {
        return false;
      }
      var reply := k.replies[0];
      Advance(|conns| - 1);
      if reply.op != AUTHENTICATE || !reply.ok {
        return false;
      }
      conn := Some(|conns| - 1);
      return true;
    }

    /** The connection is lost or closed: every waiting call gets an error, once. */
    method Detach()
      requires Valid()
      modifies `conn, `pending, `chans
      ensures Valid() && conn == None && pending == {} && chans == AllFailed(old(chans), old(pending))
      ensures chans.Keys == old(chans).Keys
      ensures forall id :: id in chans ==>
                chans[id] == Chan(old(chans)[id].frame, if id in old(pending) then [Failed] else old(chans)[id].sent)
    {
      conn := None;
      var failed := FailAll(chans, pending);
      chans, pending := failed, {};
    }

    method Close()
      requires Valid()
      modifies `closed, `conn, `pending, `chans
      ensures Valid() && closed && conn == None && pending == {} && chans == AllFailed(old(chans), old(pending))
    {
      closed := true;
      Detach();
    }
  }
}
