/**
 The bytes of one connection: two channels, writes and reads of any size, and
 a fresh buffered reader for every message, thrown away with whatever it has
 read too far. Because the two ends take turns, nothing is ever thrown away.
 */
module LockStep {
  import opened Bytes
  import Text
  import opened Wire
  import opened Rio
  import opened Transfer
  import opened FileSystem
  import opened Names
  import opened Paths
  import opened Session

  /** What one end is doing: writing the rest of a message, reading one with a
      buffer of its own, or nothing any more. */
  datatype Phase = Sending(rest: bytes) | Receiving(got: bytes, buf: bytes) | Stopped
  {
    /** What its reader has, and what the reader's buffer holds. */
    function Got(): bytes {
      if Receiving? then got else []
    }

    function Held(): bytes {
      if Receiving? then buf else []
    }
  }

  const READING: Phase := Receiving([], [])

  /** `lost` counts the bytes thrown away with readers' buffers. */
  datatype Conn = Conn(cli: Client, srv: Server, cp: Phase, sp: Phase, c2s: bytes, s2c: bytes, lost: nat)

  datatype Move =
    | Writes(client: bool, n: nat)
    | Fills(client: bool, n: nat)
    | Copies(client: bool)
    | Finishes(client: bool)

  // ------------------------------------------------------- one end, one move

  /** `write`: some of the rest goes into the channel. */
  function Write(p: Phase, chan: bytes, n: nat, next: Phase): Option<(Phase, bytes)> {
    if p.Sending? && 0 < n <= |p.rest|
    then Some((if n == |p.rest| then next else Sending(p.rest[n..]), chan + p.rest[..n]))
    else None
  }

  /** The refill of `rio_read`: whatever is there, up to the buffer's size. */
  function Fill(p: Phase, chan: bytes, want: nat, n: nat): Option<(Phase, bytes)> {
    if p.Receiving? && p.buf == [] && want > 0 && 0 < n <= Min(RIO_BUFSIZE, |chan|)
    then Some((Receiving(p.got, chan[..n]), chan[n..]))
    else None
  }

  /** The copy of `rio_read`: from the buffer to the caller. */
  function Copy(p: Phase, want: nat): Option<Phase> {
    if p.Receiving? && p.buf != [] && want > 0
    then var k := Min(|p.buf|, want); Some(Receiving(p.got + p.buf[..k], p.buf[k..]))
    else None
  }

  /** A slave that has answered BYE reads no more. */
  function AfterReply(srv: Server): Phase {
    if srv.stage.Closed? then Stopped else READING
  }

  ghost predicate StoresOk(s: Conn) {
    StoreOk(s.cli.local) && StoreOk(s.srv.store)
  }

  /** The client reads the answer to a command only while it has one. */
  predicate Busy(s: Conn) {
    s.cli.done < |s.cli.script|
  }

  ghost function ClientStep(e: Env, s: Conn, m: Move): Option<Conn> {
    var kind := ClientKind(s.cli);
    match m
    case Writes(_, n) =>
      (match Write(s.cp, s.c2s, n, READING)
       case None => None
       case Some((p, chan)) => Some(s.(cp := p, c2s := chan)))
    case Fills(_, n) =>
      (if !s.cp.Receiving? then None else
       match Fill(s.cp, s.s2c, Want(e.o, kind, s.cp.got), n)
       case None => None
       case Some((p, chan)) => Some(s.(cp := p, s2c := chan)))
    case Copies(_) =>
      (if !s.cp.Receiving? then None else
       match Copy(s.cp, Want(e.o, kind, s.cp.got))
       case None => None
       case Some(p) => Some(s.(cp := p)))
    case Finishes(_) =>
      if !s.cp.Receiving? || Want(e.o, kind, s.cp.got) > 0 then None
      else
        var (cli, request) := ClientTurn(e, s.cli, s.cp.got);
        Some(s.(cli := cli, lost := s.lost + |s.cp.buf|,
                cp := match request case None => Stopped case Some(r) => Sending(r)))
  }

  ghost function ServerStep(e: Env, s: Conn, m: Move): Option<Conn> {
    var kind := ServerKind(e, s.srv);
    match m
    case Writes(_, n) =>
      (match Write(s.sp, s.s2c, n, AfterReply(s.srv))
       case None => None
       case Some((p, chan)) => Some(s.(sp := p, s2c := chan)))
    case Fills(_, n) =>
      (if !s.sp.Receiving? then None else
       match Fill(s.sp, s.c2s, Want(e.o, kind, s.sp.got), n)
       case None => None
       case Some((p, chan)) => Some(s.(sp := p, c2s := chan)))
    case Copies(_) =>
      (if !s.sp.Receiving? then None else
       match Copy(s.sp, Want(e.o, kind, s.sp.got))
       case None => None
       case Some(p) => Some(s.(sp := p)))
    case Finishes(_) =>
      if !s.sp.Receiving? || Want(e.o, kind, s.sp.got) > 0 then None
      else
        var (srv, reply) := ServerTurn(e, s.srv, s.sp.got);
        Some(s.(srv := srv, lost := s.lost + |s.sp.buf|, sp := Sending(reply)))
  }

  /** The connection after a move; None when the move cannot be made. */
  ghost function Step(e: Env, s: Conn, m: Move): Option<Conn> {
    if !StoresOk(s) then None
    else if !m.client then ServerStep(e, s, m)
    else if Busy(s) then ClientStep(e, s, m)
    else None
  }

  ghost function Moves(e: Env, s: Conn, moves: seq<Move>): Option<Conn> {
    if moves == [] then Some(s)
    else
      match Moves(e, s, moves[..|moves| - 1])
      case None => None
      case Some(r) => Step(e, r, moves[|moves| - 1])
  }

  /** A connection just opened, the client about to write its first request. */
  function Opening(t: Turn): Conn {
    if t.way.Over? then Conn(t.cli, t.srv, Stopped, AfterReply(t.srv), [], [], 0)
    else if t.way.ToServer? then Conn(t.cli, t.srv, Sending(t.msg), READING, [], [], 0)
    else Conn(t.cli, t.srv, READING, Sending(t.msg), [], [], 0)
  }

  // ------------------------------------------------------------- the invariant

  function Pending(p: Phase): bytes {
    if p.Sending? then p.rest else []
  }

  /** One message is on its way: what the receiver has, what its buffer holds,
      what is in the channel and what is still to be written make up exactly
      the message, and the other channel is empty. */
  ghost predicate Flows(sender: Phase, next: Phase, receiver: Phase, chan: bytes, back: bytes, msg: bytes) {
    && back == [] && receiver.Receiving?
    && (if sender.Sending? then sender.rest != [] else sender == next)
    && receiver.got + receiver.buf + chan + Pending(sender) == msg
  }

  ghost predicate Carries(s: Conn, t: Turn) {
    && s.cli == t.cli && s.srv == t.srv && s.lost == 0
    && if t.way.Over? then s.cp == Stopped && s.sp == AfterReply(t.srv) && s.c2s == [] && s.s2c == []
       else if t.way.ToServer? then Flows(s.cp, READING, s.sp, s.c2s, s.s2c, t.msg)
       else Flows(s.sp, AfterReply(t.srv), s.cp, s.s2c, s.c2s, t.msg)
  }

  lemma FlowWrite(sender: Phase, next: Phase, receiver: Phase, chan: bytes, msg: bytes, n: nat, p: Phase, c: bytes)
    requires Flows(sender, next, receiver, chan, [], msg) && Write(sender, chan, n, next) == Some((p, c))
    requires !next.Sending?
    ensures Flows(p, next, receiver, c, [], msg)
  {
    assert sender.rest == sender.rest[..n] + Pending(p);
    var front := receiver.got + receiver.buf;
    assert front + chan + sender.rest == front + c + Pending(p);
  }

  lemma FlowFill(sender: Phase, next: Phase, receiver: Phase, chan: bytes, msg: bytes, want: nat, n: nat, p: Phase, c: bytes)
    requires Flows(sender, next, receiver, chan, [], msg) && Fill(receiver, chan, want, n) == Some((p, c))
    ensures Flows(sender, next, p, c, [], msg)
  {
    assert chan == chan[..n] + c;
    assert receiver.got + receiver.buf + chan == p.got + p.buf + c;
  }

  lemma FlowCopy(sender: Phase, next: Phase, receiver: Phase, chan: bytes, msg: bytes, want: nat, p: Phase)
    requires Flows(sender, next, receiver, chan, [], msg) && Copy(receiver, want) == Some(p)
    ensures Flows(sender, next, p, chan, [], msg)
  {
    assert receiver.got + receiver.buf == p.got + p.buf;
  }

  /** A reader that is satisfied has the whole message and nothing else. */
  lemma FlowFinish(o: Order, kind: Kind, sender: Phase, next: Phase, receiver: Phase, chan: bytes, msg: bytes)
    requires Flows(sender, next, receiver, chan, [], msg) && Framed(o, kind, msg)
    requires Want(o, kind, receiver.Got()) == 0
    ensures receiver.Got() == msg && receiver.Held() == [] && chan == [] && sender == next
  {
    hide Want;
    var n := |receiver.got|;
    assert msg[..n] == receiver.got;
    assert n == |msg|;
  }

  /** A reader that has nothing yet is not satisfied. */
  lemma ReadersWant(e: Env, cli: Client, srv: Server)
    ensures Want(e.o, ClientKind(cli), []) > 0 && Want(e.o, ServerKind(e, srv), []) > 0
  {
  }

  // ------------------------------------------------------------- refinement

  /** The next turn can be carried out: it has a message and a reader. */
  ghost predicate Answerable(t: Turn) {
    !t.way.Over? ==> t.msg != [] && (t.way.ToServer? ==> !t.srv.stage.Closed?)
  }

  /** While its own message is on its way, an end can only write. */
  lemma SenderMoves(e: Env, s: Conn, t: Turn, m: Move, s': Conn)
    requires TurnOk(e, t) && Carries(s, t) && m.client == t.way.ToServer? && Step(e, s, m) == Some(s')
    ensures Carries(s', t)
  {
    hide Want, Framed, ServerTurn, ClientTurn, ServerKind, ClientKind, Write;
    ReadersWant(e, s.cli, s.srv);
    if m.Writes? {
      if t.way.ToServer? {
        FlowWrite(s.cp, READING, s.sp, s.c2s, t.msg, m.n, s'.cp, s'.c2s);
      } else {
        FlowWrite(s.sp, AfterReply(s.srv), s.cp, s.s2c, t.msg, m.n, s'.sp, s'.s2c);
      }
    }
  }

  /** The other end refills, copies, or has the whole message and answers. */
  lemma ReceiverMoves(e: Env, s: Conn, t: Turn, m: Move, s': Conn)
    requires TurnOk(e, t) && Carries(s, t) && m.client != t.way.ToServer? && Step(e, s, m) == Some(s')
    requires Answerable(Deliver(e, t))
    ensures if m.Finishes? then Carries(s', Deliver(e, t)) && s' == Opening(Deliver(e, t)) else Carries(s', t)
  {
    hide Want, Framed, ServerTurn, ClientTurn, ServerKind, ClientKind, Fill, Copy;
    var kind := ReceiverKind(e, t);
    if t.way.ToServer? {
      match m {
        case Writes(_, _) =>
        case Fills(_, n) => FlowFill(s.cp, READING, s.sp, s.c2s, t.msg, Want(e.o, kind, s.sp.got), n, s'.sp, s'.c2s);
        case Copies(_) => FlowCopy(s.cp, READING, s.sp, s.c2s, t.msg, Want(e.o, kind, s.sp.got), s'.sp);
        case Finishes(_) => FlowFinish(e.o, kind, s.cp, READING, s.sp, s.c2s, t.msg);
      }
    } else {
      var next := AfterReply(s.srv);
      match m {
        case Writes(_, _) =>
        case Fills(_, n) => FlowFill(s.sp, next, s.cp, s.s2c, t.msg, Want(e.o, kind, s.cp.got), n, s'.cp, s'.s2c);
        case Copies(_) => FlowCopy(s.sp, next, s.cp, s.s2c, t.msg, Want(e.o, kind, s.cp.got), s'.cp);
        case Finishes(_) => FlowFinish(e.o, kind, s.sp, next, s.cp, s.s2c, t.msg);
      }
    }
  }

  /** A finished connection stays as it is. */
  lemma EndedStays(e: Env, s: Conn, t: Turn, m: Move)
    requires t.way.Over? && t.cli.done == |t.cli.script| && Carries(s, t)
    ensures Step(e, s, m).None?
  {
    hide Want, ServerTurn, ClientTurn, ServerKind, ClientKind;
    ReadersWant(e, s.cli, s.srv);
  }

  /** The transfer under way is guarded: the body of an upload, or the reply to
      a download. */
  ghost predicate TurnGuarded(e: Env, script: seq<Command>, local: Store, w0: Effect, t: Turn) {
    t.cli.sent == t.way.ToServer? == Uploads(Doing(script, t.cli.done)) ==> GuardedAt(e, local, script, w0, t.cli.done)
  }

  /** What the next message needs to be carried. */
  lemma NextTurn(e: Env, script: seq<Command>, local: Store, w0: Effect, t: Turn)
    requires SessionOk(script, local, w0) && Tracks(e, script, local, w0, t) && !t.way.Over?
    requires TurnGuarded(e, script, local, w0, t)
    ensures TurnOk(e, t) && Tracks(e, script, local, w0, Deliver(e, t)) && Answerable(Deliver(e, t))
  {
    hide Deliver, ServeRequest, ServerTurn, Body, RequestOf, ExecAll;
    TrackedFramed(e, script, local, w0, t);
    DeliverTracks(e, script, local, w0, t);
    MessagesNotEmpty(e, script, local, w0, Deliver(e, t));
  }

  lemma MessagesNotEmpty(e: Env, script: seq<Command>, local: Store, w0: Effect, t: Turn)
    requires Tracks(e, script, local, w0, t)
    ensures Answerable(t)
  {
    hide Served, Session.Reply, ExecAll, Text.ParseResumeData, Text.ParseUpdate, ReadKey, Ascii, PutText, ReceiveUpload, RequestIn;
  }

  /** A session just opened. */
  function Begin(e: Env, script: seq<Command>, local: Store, w0: Effect): Conn {
    Opening(Start(e, script, local, w0))
  }

  /** Where the commands stand in a state reached by any moves. */
  lemma {:induction false} Reached(e: Env, script: seq<Command>, local: Store, w0: Effect, moves: seq<Move>, s: Conn)
    returns (t: Turn)
    requires SessionOk(script, local, w0) && AllGuarded(e, local, script, w0)
    requires Moves(e, Begin(e, script, local, w0), moves) == Some(s)
    ensures Tracks(e, script, local, w0, t) && Carries(s, t)
    decreases |moves|
  {
    hide Step, Tracks, Carries, Deliver, TurnOk, Begin;
    if moves == [] {
      t := Start(e, script, local, w0);
      StartTracks(e, script, local, w0);
      OpeningCarries(e, script, local, w0);
    } else {
      var rest := moves[..|moves| - 1];
      var r := Moves(e, Begin(e, script, local, w0), rest).value;
      var u := Reached(e, script, local, w0, rest, r);
      t := MoveKeeps(e, script, local, w0, r, u, moves[|moves| - 1], s);
    }
  }

  lemma OpeningCarries(e: Env, script: seq<Command>, local: Store, w0: Effect)
    ensures Carries(Begin(e, script, local, w0), Start(e, script, local, w0))
  {
  }

  lemma MoveKeeps(e: Env, script: seq<Command>, local: Store, w0: Effect, s: Conn, t: Turn, m: Move, s': Conn)
    returns (u: Turn)
    requires SessionOk(script, local, w0) && AllGuarded(e, local, script, w0)
    requires Tracks(e, script, local, w0, t) && Carries(s, t) && Step(e, s, m) == Some(s')
    ensures Tracks(e, script, local, w0, u) && Carries(s', u)
  {
    assert t.cli.script == script && (if t.way.Over? then t.cli.done == |script| else t.cli.done < |script|);
    hide Step, Tracks, Carries, Deliver, TurnOk, GuardedAt;
    if t.way.Over? {
      EndedStays(e, s, t, m);
      u := t;
    } else {
      NextTurn(e, script, local, w0, t);
      if m.client == t.way.ToServer? {
        SenderMoves(e, s, t, m, s');
        u := t;
      } else {
        ReceiverMoves(e, s, t, m, s');
        u := if m.Finishes? then Deliver(e, t) else t;
      }
    }
  }

  /** Lock-step framing. Whatever the sizes of the writes and reads and
      however they interleave, no reader ever throws a byte away; whenever the
      client is about to send a request, both channels and the slave's buffer
      are empty and the slave has decoded exactly the requests sent and done
      exactly the commands before it, as whole operations; and a session that
      has stopped has done them all. */
  lemma LockStepFraming(e: Env, script: seq<Command>, local: Store, w0: Effect, moves: seq<Move>, s: Conn)
    requires SessionOk(script, local, w0) && AllGuarded(e, local, script, w0)
    requires Moves(e, Begin(e, script, local, w0), moves) == Some(s)
    ensures s.lost == 0 && s.cli.done <= |script|
    ensures var w := ExecFirst(e, local, script, s.cli.done, w0);
            && s.cli.results == w.results
            && (s.cli.done < |script| && !s.cli.sent && s.cp == Sending(RequestOf(e, Doing(script, s.cli.done))) ==>
                  && s.c2s == [] && s.s2c == [] && s.sp == READING
                  && s.srv == ServerAt(w, script, s.cli.done, Serving))
            && (s.cp == Stopped ==>
                  && s.cli.done == |script| && s.c2s == [] && s.s2c == []
                  && s.srv.store == w.store && s.srv.log == w.log && s.srv.requests == Asked(script, |script|))
  {
    hide Moves, RequestOf, ExecAll, Body, ServeRequest, ServerTurn;
    var t := Reached(e, script, local, w0, moves, s);
    if t.way.ToServer? && s.cp == Sending(t.msg) {
      WholePending(s.cp, READING, s.sp, s.c2s, s.s2c, t.msg);
    }
  }

  lemma WholePending(sender: Phase, next: Phase, receiver: Phase, chan: bytes, back: bytes, msg: bytes)
    requires Flows(sender, next, receiver, chan, back, msg) && sender == Sending(msg)
    ensures receiver == READING && chan == [] && back == []
  {
    assert |receiver.got| + |receiver.buf| + |chan| + |msg| == |msg|;
  }

  // ---------------------------------------------------------------- progress

  /** How far the message under way still has to go. */
  ghost function Distance(s: Conn, toServer: bool): nat {
    if toServer then 3 * |Pending(s.cp)| + 2 * |s.c2s| + (if s.sp.Receiving? then |s.sp.buf| else 0)
    else 3 * |Pending(s.sp)| + 2 * |s.s2c| + (if s.cp.Receiving? then |s.cp.buf| else 0)
  }

  lemma {:induction false} MovesJoin(e: Env, s: Conn, a: seq<Move>, t: Conn, b: seq<Move>)
    requires Moves(e, s, a) == Some(t)
    ensures Moves(e, s, a + b) == Moves(e, t, b)
    decreases |b|
  {
    hide Step;
    if b == [] {
      assert a + b == a;
    } else {
      var init := b[..|b| - 1];
      assert (a + b)[..|a + b| - 1] == a + init;
      MovesJoin(e, s, a, t, init);
    }
  }

  lemma OneMove(e: Env, s: Conn, m: Move)
    ensures Moves(e, s, [m]) == Step(e, s, m)
  {
    hide Step;
    assert [m][..0] == [];
    assert Moves(e, s, []) == Some(s);
  }

  /** What an unsatisfied or satisfied reader can do next. */
  function ReaderMove(client: bool, p: Phase, chan: bytes, want: nat): Move {
    if want == 0 then Finishes(client)
    else if p.Receiving? && p.buf != [] then Copies(client)
    else Fills(client, Min(RIO_BUFSIZE, |chan|))
  }

  /** An unsatisfied reader with an empty buffer has bytes to wait for. */
  lemma MoreToCome(o: Order, kind: Kind, sender: Phase, next: Phase, receiver: Phase, chan: bytes, msg: bytes)
    requires Flows(sender, next, receiver, chan, [], msg) && Framed(o, kind, msg) && !sender.Sending?
    requires Want(o, kind, receiver.Got()) > 0 && receiver.Held() == []
    ensures chan != []
  {
    hide Want;
    assert receiver.got + chan == msg;
    assert receiver.got + [] == receiver.got;
  }

  /** There is always a move that brings the message nearer, until it is
      whole and answered. */
  lemma NextMove(e: Env, s: Conn, t: Turn) returns (m: Move, s': Conn)
    requires TurnOk(e, t) && Carries(s, t)
    ensures Step(e, s, m) == Some(s')
    ensures !m.Finishes? ==> Distance(s', t.way.ToServer?) < Distance(s, t.way.ToServer?)
    ensures m.Finishes? ==> m.client != t.way.ToServer?
  {
    hide Want, Framed, ServerTurn, ClientTurn, ServerKind, ClientKind;
    var kind := ReceiverKind(e, t);
    var (sender, receiver, chan) := if t.way.ToServer? then (s.cp, s.sp, s.c2s) else (s.sp, s.cp, s.s2c);
    if sender.Sending? {
      m := Writes(t.way.ToServer?, |sender.rest|);
    } else {
      var want := Want(e.o, kind, receiver.got);
      m := ReaderMove(!t.way.ToServer?, receiver, chan, want);
      if want > 0 && receiver.buf == [] {
        var next := if t.way.ToServer? then READING else AfterReply(s.srv);
        MoreToCome(e.o, kind, sender, next, receiver, chan, t.msg);
      }
    }
    s' := Step(e, s, m).value;
  }

  lemma {:induction false} TurnCompletes(e: Env, s: Conn, t: Turn) returns (moves: seq<Move>)
    requires TurnOk(e, t) && Carries(s, t) && Answerable(Deliver(e, t))
    ensures Moves(e, s, moves) == Some(Opening(Deliver(e, t)))
    decreases Distance(s, t.way.ToServer?)
  {
    hide Step, Distance, Carries, Deliver, Moves, Opening;
    var m, s1 := NextMove(e, s, t);
    OneMove(e, s, m);
    if m.Finishes? {
      ReceiverMoves(e, s, t, m, s1);
      moves := [m];
    } else {
      if m.client == t.way.ToServer? {
        SenderMoves(e, s, t, m, s1);
      } else {
        ReceiverMoves(e, s, t, m, s1);
      }
      var rest := TurnCompletes(e, s1, t);
      MovesJoin(e, s, [m], s1, rest);
      moves := [m] + rest;
    }
  }

  /** Messages left in the script. */
  ghost function TurnsLeft(t: Turn): nat {
    if t.way.Over? || t.cli.done >= |t.cli.script| then 0
    else 4 * (|t.cli.script| - t.cli.done) - (if t.cli.sent then 2 else 0) - (if t.way.ToServer? then 0 else 1)
  }

  lemma DeliverNearer(e: Env, t: Turn)
    requires TurnOk(e, t) && (t.cli.sent ==> Uploads(Doing(t.cli.script, t.cli.done)))
    ensures TurnsLeft(Deliver(e, t)) < TurnsLeft(t)
  {
    hide ServerTurn, AnswerIn, DownloadResult, RequestOf, Body, Ready;
  }

  predicate Transfers(c: Command) {
    Uploads(c) || Downloads(c)
  }

  /** The transfer of command `goal` is about to be sent: the body of an upload
      to the slave, a file to the client. */
  predicate AtTransfer(t: Turn, c: Command, goal: nat) {
    !t.way.Over? && t.cli.done == goal && t.cli.sent == t.way.ToServer? == Uploads(c)
  }

  /** The transfer of command `goal` has still to be sent. */
  predicate Before(t: Turn, script: seq<Command>, goal: nat) {
    && t.cli.done <= goal <= |script|
    && (!t.way.Over? && t.cli.done == goal && goal < |script| ==>
          || (!t.cli.sent && t.way.ToServer?)
          || AtTransfer(t, Doing(script, goal), goal)
          || (!t.cli.sent && Uploads(Doing(script, goal))))
  }

  /** The transfer of command `goal` is reached, or the end of the script. */
  predicate Arrived(t: Turn, script: seq<Command>, goal: nat) {
    if goal < |script| then AtTransfer(t, Doing(script, goal), goal) else t.way.Over?
  }

  ghost predicate GuardedUntil(e: Env, local: Store, script: seq<Command>, w0: Effect, goal: nat) {
    forall i :: 0 <= i < goal ==> GuardedAt(e, local, script, w0, i)
  }

  /** From the opening of one of its messages, a guarded session runs on to the
      transfer of command `goal`, or to its end. */
  lemma {:induction false} RunsOn(e: Env, script: seq<Command>, local: Store, w0: Effect, t: Turn, goal: nat)
    returns (moves: seq<Move>, u: Turn)
    requires SessionOk(script, local, w0) && Tracks(e, script, local, w0, t) && Before(t, script, goal)
    requires GuardedUntil(e, local, script, w0, goal) && (goal < |script| ==> Transfers(Doing(script, goal)))
    ensures Moves(e, Opening(t), moves) == Some(Opening(u)) && Tracks(e, script, local, w0, u)
    ensures Arrived(u, script, goal)
    decreases TurnsLeft(t)
  {
    assert t.cli.script == script && (if t.way.Over? then t.cli.done == |script| else t.cli.done < |script|);
    assert !t.way.Over? ==> (t.cli.sent ==> Uploads(Doing(script, t.cli.done)));
    hide Step, Tracks, Carries, Deliver, TurnOk, GuardedAt, TurnsLeft;
    if t.way.Over? || Arrived(t, script, goal) {
      moves, u := [], t;
    } else {
      MessagesNotEmpty(e, script, local, w0, t);
      NextTurn(e, script, local, w0, t);
      FreshCarries(t);
      var now := TurnCompletes(e, Opening(t), t);
      StillBefore(e, script, local, w0, t, goal);
      DeliverNearer(e, t);
      var rest;
      rest, u := RunsOn(e, script, local, w0, Deliver(e, t), goal);
      MovesJoin(e, Opening(t), now, Opening(Deliver(e, t)), rest);
      moves := now + rest;
    }
  }

  lemma FreshCarries(t: Turn)
    requires Answerable(t)
    ensures Carries(Opening(t), t)
  {
  }

  /** Delivering does not pass the transfer aimed at. */
  lemma StillBefore(e: Env, script: seq<Command>, local: Store, w0: Effect, t: Turn, goal: nat)
    requires SessionOk(script, local, w0) && Tracks(e, script, local, w0, t) && TurnOk(e, t)
    requires Tracks(e, script, local, w0, Deliver(e, t)) && Before(t, script, goal) && !Arrived(t, script, goal)
    requires goal < |script| ==> Transfers(Doing(script, goal))
    ensures Before(Deliver(e, t), script, goal) && t.cli.done <= Deliver(e, t).cli.done
  {
    if t.way.ToClient? && !t.cli.sent && Uploads(Doing(script, t.cli.done)) {
      ReadyDelivered(e, script, local, w0, t);
    } else {
      hide ServerTurn, ServeRequest, AnswerIn, DownloadResult, RequestOf, Body, ExecFirst, Framed, Ready, StoreOk;
      assert t.cli.script == script;
    }
  }

  /** No deadlock: from every reachable state of a guarded session some moves
      lead to its end, with every command done. */
  lemma SessionCompletes(e: Env, script: seq<Command>, local: Store, w0: Effect, moves: seq<Move>, s: Conn)
    returns (more: seq<Move>, r: Conn)
    requires SessionOk(script, local, w0) && AllGuarded(e, local, script, w0)
    requires Moves(e, Begin(e, script, local, w0), moves) == Some(s)
    ensures Moves(e, Begin(e, script, local, w0), moves + more) == Some(r) && r.cp == Stopped && r.lost == 0
    ensures r.srv.store == ExecAll(e, local, script, w0).store && r.cli.results == ExecAll(e, local, script, w0).results
  {
    var s0 := Begin(e, script, local, w0);
    var t := Reached(e, script, local, w0, moves, s);
    assert t.cli.script == script && (t.way.Over? ==> t.cli.done == |script|);
    assert script[..|script|] == script;
    if t.way.Over? {
      assert moves + [] == moves;
      more, r := [], s;
    } else {
      NextTurn(e, script, local, w0, t);
      var first := TurnCompletes(e, s, t);
      hide Step, Moves, ExecAll, GuardedAt, Deliver, Begin;
      var rest, last := RunsOn(e, script, local, w0, Deliver(e, t), |script|);
      r := Opening(last);
      MovesJoin(e, s, first, Opening(Deliver(e, t)), rest);
      MovesJoin(e, s0, moves, s, first + rest);
      more := first + rest;
    }
  }

  lemma {:induction false} FirstUnguarded(e: Env, local: Store, script: seq<Command>, w0: Effect, n: nat) returns (i: nat)
    requires !GuardedAt(e, local, script, w0, n)
    ensures i <= n && !GuardedAt(e, local, script, w0, i) && GuardedUntil(e, local, script, w0, i)
    decreases n
  {
    hide GuardedAt;
    if m :| 0 <= m < n && !GuardedAt(e, local, script, w0, m) {
      i := FirstUnguarded(e, local, script, w0, m);
    } else {
      i := n;
    }
  }

  /** Moves given with the states they pass through. */
  ghost predicate Stepped(e: Env, states: seq<Conn>, moves: seq<Move>) {
    |states| == |moves| + 1 && forall i :: 0 <= i < |moves| ==> Step(e, states[i], moves[i]) == Some(states[i + 1])
  }

  lemma {:induction false} SteppedMoves(e: Env, states: seq<Conn>, moves: seq<Move>)
    requires Stepped(e, states, moves)
    ensures Moves(e, states[0], moves) == Some(states[|moves|])
    decreases |moves|
  {
    hide Step;
    if moves != [] {
      var n := |moves| - 1;
      SteppedMoves(e, states[..n + 1], moves[..n]);
    }
  }

  lemma TwoPieces(m: bytes, n: nat)
    requires n <= |m|
    ensures m[..n] + m[n..] == m && [] + m[..n] == m[..n] && m[..|m|] == m && [] + m == m
  {
  }

  /** A reader that stops at the header keeps the rest in its buffer, which
      goes with it. */
  lemma HeaderWanted(e: Env, t: Turn)
    requires t.way.ToServer? && t.srv.stage.Awaiting? ==> !Openable(e, t.srv.store, t.srv.stage.path)
    requires !t.way.ToServer? ==> ClientKind(t.cli) == Kind.Blocks(StartAndDest(Doing(t.cli.script, t.cli.done)).0, false)
    requires (t.way.ToServer? ==> t.srv.stage.Awaiting?) && |t.msg| >= HEADER_BYTES
    ensures Want(e.o, ReceiverKind(e, t), []) == HEADER_BYTES
    ensures Want(e.o, ReceiverKind(e, t), t.msg[..HEADER_BYTES]) == 0
  {
    hide Openable, HeaderFromImage, Accepting;
  }

  /** An upload that is not guarded leaves its blocks in the buffer of a reader
      that has stopped at the header. */
  lemma BodyLost(e: Env, t: Turn) returns (moves: seq<Move>, r: Conn)
    requires t.way.ToServer? && t.cli.done < |t.cli.script| && t.srv.stage.Awaiting?
    requires StoreOk(t.cli.local) && StoreOk(t.srv.store)
    requires |t.msg| > HEADER_BYTES && !Openable(e, t.srv.store, t.srv.stage.path)
    ensures Moves(e, Opening(t), moves) == Some(r) && r.lost > 0
  {
    hide ServerTurn, ClientTurn, ClientKind, Openable, StoreOk, Want, ServerKind;
    var (m, n, k) := (t.msg, Min(RIO_BUFSIZE, |t.msg|), HEADER_BYTES);
    HeaderWanted(e, t);
    TwoPieces(m, n);
    CopySome(m[..n], k);
    assert m[..n][..k] == m[..k];
    var s0 := Opening(t);
    var s1 := s0.(cp := READING, c2s := m);
    var s2 := s1.(sp := Receiving([], m[..n]), c2s := m[n..]);
    var s3 := s2.(sp := Receiving(m[..k], m[..n][k..]));
    assert Step(e, s0, Writes(true, |m|)) == Some(s1);
    assert Step(e, s1, Fills(false, n)) == Some(s2);
    assert Step(e, s2, Copies(false)) == Some(s3);
    r := Step(e, s3, Finishes(false)).value;
    assert r.lost == |m[..n][k..]|;
    hide Step;
    moves := [Writes(true, |m|), Fills(false, n), Copies(false), Finishes(false)];
    SteppedMoves(e, [s0, s1, s2, s3, r], moves);
  }

  lemma CopySome(buf: bytes, want: nat)
    requires 0 < want <= |buf|
    ensures Copy(Receiving([], buf), want) == Some(Receiving(buf[..want], buf[want..]))
  {
    assert [] + buf[..want] == buf[..want];
  }

  /** A download that is not guarded leaves its blocks in the same way. */
  lemma ReplyLost(e: Env, t: Turn) returns (moves: seq<Move>, r: Conn)
    requires t.way.ToClient? && t.cli.done < |t.cli.script|
    requires StoreOk(t.cli.local) && StoreOk(t.srv.store) && |t.msg| > HEADER_BYTES
    requires ClientKind(t.cli) == Kind.Blocks(StartAndDest(Doing(t.cli.script, t.cli.done)).0, false)
    ensures Moves(e, Opening(t), moves) == Some(r) && r.lost > 0
  {
    hide ServerTurn, ClientTurn, StoreOk, Want, ServerKind, ClientKind;
    var (m, n, k) := (t.msg, Min(RIO_BUFSIZE, |t.msg|), HEADER_BYTES);
    HeaderWanted(e, t);
    TwoPieces(m, n);
    CopySome(m[..n], k);
    assert m[..n][..k] == m[..k];
    var s0 := Opening(t);
    var s1 := s0.(sp := AfterReply(t.srv), s2c := m);
    var s2 := s1.(cp := Receiving([], m[..n]), s2c := m[n..]);
    var s3 := s2.(cp := Receiving(m[..k], m[..n][k..]));
    assert Step(e, s0, Writes(false, |m|)) == Some(s1);
    assert Step(e, s1, Fills(true, n)) == Some(s2);
    assert Step(e, s2, Copies(true)) == Some(s3);
    r := Step(e, s3, Finishes(true)).value;
    assert r.lost == |m[..n][k..]|;
    hide Step;
    moves := [Writes(false, |m|), Fills(true, n), Copies(true), Finishes(true)];
    SteppedMoves(e, [s0, s1, s2, s3, r], moves);
  }

  /** The guard is exact: a session never throws a byte away, under any
      schedule, if and only if every transfer with blocks to send finds a
      receiver that reads them: an upload a destination the slave can open, a
      download names that fit the client's buffers, directories it can make and
      a `.part` that reaches its start. */
  lemma FramingExact(e: Env, script: seq<Command>, local: Store, w0: Effect)
    requires SessionOk(script, local, w0)
    ensures AllGuarded(e, local, script, w0)
       <==> forall moves: seq<Move>, r: Conn :: Moves(e, Begin(e, script, local, w0), moves) == Some(r) ==> r.lost == 0
  {
    hide Begin;
    if AllGuarded(e, local, script, w0) {
      forall moves: seq<Move>, r: Conn | Moves(e, Begin(e, script, local, w0), moves) == Some(r) ensures r.lost == 0 {
        hide Moves, ExecAll, GuardedAt;
        var t := Reached(e, script, local, w0, moves, r);
      }
    } else {
      var moves, r := LosingRun(e, script, local, w0);
    }
  }

  lemma LosingRun(e: Env, script: seq<Command>, local: Store, w0: Effect) returns (moves: seq<Move>, r: Conn)
    requires SessionOk(script, local, w0) && !AllGuarded(e, local, script, w0)
    ensures Moves(e, Begin(e, script, local, w0), moves) == Some(r) && r.lost > 0
  {
    var n: nat :| n < |script| && !GuardedAt(e, local, script, w0, n);
    var i := FirstUnguarded(e, local, script, w0, n);
    assert Transfers(Doing(script, i));
    StartTracks(e, script, local, w0);
    hide Moves, ExecAll, GuardedAt, StoreOk, ClientKind;
    var start := Start(e, script, local, w0);
    var there, u := RunsOn(e, script, local, w0, start, i);
    var four;
    UnguardedTurn(e, script, local, w0, u);
    if Uploads(Doing(script, i)) {
      four, r := BodyLost(e, u);
    } else {
      four, r := ReplyLost(e, u);
    }
    MovesJoin(e, Opening(start), there, Opening(u), four);
    moves := there + four;
  }

  /** An unguarded transfer is about to be sent to a reader that stops at its
      header. */
  lemma UnguardedTurn(e: Env, script: seq<Command>, local: Store, w0: Effect, t: Turn)
    requires SessionOk(script, local, w0) && Tracks(e, script, local, w0, t) && !GuardedAt(e, local, script, w0, t.cli.done)
    requires AtTransfer(t, Doing(script, t.cli.done), t.cli.done)
    ensures t.cli.done < |t.cli.script| && t.cli.script == script && StoreOk(t.cli.local) && StoreOk(t.srv.store)
    ensures |t.msg| > HEADER_BYTES
    ensures if Uploads(Doing(script, t.cli.done)) then
              t.srv.stage.Awaiting? && !Openable(e, t.srv.store, t.srv.stage.path)
            else ClientKind(t.cli) == Kind.Blocks(StartAndDest(Doing(script, t.cli.done)).0, false)
  {
    hide ExecAll, Transfer.Blocks, ReadKey, WriteKey, Text.ParseResumeData, Text.ResumePayload, Asked, Accepting;
    var c := script[t.cli.done];
    assert CommandOk(c) by { assert c in script; }
    if c.Resume? {
      ResumeReads(c);
    }
  }

  /** The sessions of a single download that lose bytes: a name too long for
      the buffers, directories that cannot be made, or a `.part` shorter than
      the start. */
  lemma DownloadsLose(e: Env, local: Store, w0: Effect, c: Command, f: bytes) returns (moves: seq<Move>, r: Conn)
    requires SessionOk([c], local, w0) && Downloads(c) && ReadFile(w0.store, e.dir, PathOf(c)) == Some(f)
    requires StartAndDest(c).0 < |f|
    requires var (k, here) := StartAndDest(c); |TmpPath(PathOf(c))| >= MAXLINE || here.blocked || here.part < k
    ensures Moves(e, Begin(e, [c], local, w0), moves) == Some(r) && r.lost > 0
  {
    hide ReadKey;
    assert [c][..0] == [];
    assert !GuardedAt(e, local, [c], w0, 0);
    moves, r := LosingRun(e, [c], local, w0);
  }

  function Slashes(n: nat): bytes {
    seq(n, i => SLASH)
  }

  lemma {:induction false} SlashesSkipped(n: nat, name: bytes)
    requires name != [] && SLASH !in name
    ensures SkipSlashes(Slashes(n) + name) == name && Components(Slashes(n) + name) == [name]
    decreases n
  {
    hide Components;
    var path := Slashes(n) + name;
    if n == 0 {
      assert path == name;
      ComponentAlone(name);
    } else {
      var rest := Slashes(n - 1) + name;
      assert path == [SLASH] + rest;
      hide Slashes;
      SlashesSkipped(n - 1, name);
      SlashesDoNotMatter([], rest);
      assert path[0] == SLASH && path[1..] == rest;
    }
  }

  /** Slashes in front of a name do not change what it names. */
  lemma SlashedName(dir: bytes, n: nat, name: bytes)
    requires name != [] && SLASH !in name && Plain(name) && dir != [] && |dir| + |name| < MAXLINE && n > 0
    ensures var path := Slashes(n) + name; Downward(path) && PathKey(dir, path) == Some([name]) && FinalPath(path) == path
  {
    var path := Slashes(n) + name;
    assert path[0] == SLASH && path[|path| - 1] == name[|name| - 1];
    SlashesSkipped(n, name);
    hide Components, SkipSlashes, Slashes, KeyOf, Downward;
    KeyOfPlain(path);
  }

  /** A download of a file by its name behind slashes. */
  function SlashedGet(n: nat, name: bytes, here: Dest): Command {
    Get(Slashes(n) + name, here)
  }

  lemma SlashedServed(e: Env, local: Store, w0: Effect, name: bytes, n: nat, here: Dest, f: bytes)
    requires IsCString(name) && name != [] && SLASH !in name && Plain(name) && 0 < n && n + |name| < MAXLINE
    requires e.dir != [] && |e.dir| + |name| < MAXLINE && StoreOk(local) && StoreOk(w0.store) && Holds(w0.store, [name], f)
    ensures SessionOk([SlashedGet(n, name, here)], local, w0)
    ensures ReadFile(w0.store, e.dir, Slashes(n) + name) == Some(f)
    ensures |TmpPath(Slashes(n) + name)| == n + |name| + |META_SUFFIX + TMP_SUFFIX|
  {
    var path := Slashes(n) + name;
    assert IsCString(path) && |path| == n + |name|;
    SlashedName(e.dir, n, name);
    DownwardReads(w0.store, e.dir, path);
    hide Slashes, ReadKey, PathKey, Downward, StaysInside, FinalPath, StoreOk;
  }

  /** The store holds this file. */
  predicate Holds(s: Store, k: Key, f: bytes) {
    k in s.files && s.files[k] == f
  }

  /** However long the name, the slave serves the file: slashes in front of a
      path do not count, while the client's buffers hold them all. */
  lemma SlashesLose(e: Env, local: Store, w0: Effect, name: bytes, n: nat, here: Dest, f: bytes)
    returns (moves: seq<Move>, r: Conn)
    requires IsCString(name) && name != [] && SLASH !in name && Plain(name)
    requires 0 < n && n + |name| < MAXLINE <= n + |name| + |META_SUFFIX + TMP_SUFFIX|
    requires e.dir != [] && |e.dir| + |name| < MAXLINE && StoreOk(local) && StoreOk(w0.store)
    requires Holds(w0.store, [name], f) && f != []
    ensures SessionOk([SlashedGet(n, name, here)], local, w0)
    ensures Moves(e, Begin(e, [SlashedGet(n, name, here)], local, w0), moves) == Some(r) && r.lost > 0
  {
    hide Moves, Begin, SessionOk, StoreOk, ReadFile, TmpPath, Slashes;
    SlashedServed(e, local, w0, name, n, here, f);
    moves, r := DownloadsLose(e, local, w0, SlashedGet(n, name, here), f);
  }
}
