/**
 The pieces together: a client's session on one slave and the replay of its
 log on another, both down to the bytes on their connections.
 */
module EndToEnd {
  import opened Bytes
  import opened Text
  import opened Wire
  import opened Rio
  import opened Transfer
  import opened Paths
  import opened FileSystem
  import opened Session
  import opened LockStep
  import opened Replication

  // --------------------------------------------- a session as logged events

  /** What one command adds to the log's story. */
  function EventsOfCommand(e: Env, local: Store, c: Command, s: Store): seq<Event> {
    match c
    case Rm(path) => [Removal(path)]
    case Put(path) =>
      var file := ReadFile(local, e.localDir, path);
      [Upload(path, if Openable(e, s, path) then file else None)]
    case _ => []
  }

  function EventsOf(e: Env, local: Store, script: seq<Command>, w: Effect): seq<Event> {
    if script == [] then []
    else
      var rest := script[..|script| - 1];
      EventsOf(e, local, rest, w)
      + EventsOfCommand(e, local, script[|script| - 1], ExecAll(e, local, rest, w).store)
  }

  lemma EventsJoin(e: Env, s: Store, a: seq<Event>, x: Event)
    ensures AllHappen(e, s, a + [x]) == Happens(e, AllHappen(e, s, a), x)
    ensures SessionPossible(e, s, a) && Possible(e, AllHappen(e, s, a), x) ==> SessionPossible(e, s, a + [x])
    ensures LogOf(a + [x]) == LogOf(a) + [EntryOf(x)]
  {
    hide Happens, Possible;
    var all := a + [x];
    assert all[..|a|] == a;
    if SessionPossible(e, s, a) && Possible(e, AllHappen(e, s, a), x) {
      forall i | 0 <= i < |all| ensures Possible(e, HappenFirst(e, s, all, i), all[i]) {
        if i < |a| {
          assert Possible(e, HappenFirst(e, s, a, i), a[i]);
          assert a[..i] == all[..i];
        }
      }
    }
  }

  lemma NothingLogged(e: Env, s: Store)
    ensures SessionPossible(e, s, []) && AllHappen(e, s, []) == s && LogOf([]) == []
  {
  }

  lemma Assoc3(a: Log, b: Log, c: Log)
    ensures a + (b + c) == a + b + c
  {
  }

  /** A client's commands change the slave's files exactly as the events they
      log say, and the log lists them in order. */
  lemma {:induction false} SessionLogged(e: Env, local: Store, script: seq<Command>, w: Effect)
    requires forall c :: c in script ==> !c.Update?
    ensures var events := EventsOf(e, local, script, w);
            var r := ExecAll(e, local, script, w);
            && r.store == AllHappen(e, w.store, events) && SessionPossible(e, w.store, events)
            && r.log == w.log + LogOf(events)
    decreases |script|
  {
    hide Exec, Happens, Possible, EventsOfCommand, SessionPossible;
    if script == [] {
      NothingLogged(e, w.store);
    } else {
      var rest, c := script[..|script| - 1], script[|script| - 1];
      assert c in script;
      SessionLogged(e, local, rest, w);
      var a := EventsOf(e, local, rest, w);
      var before := ExecAll(e, local, rest, w);
      var v := CommandLogged(e, local, c, before);
      assert ExecAll(e, local, script, w) == Exec(e, local, c, before);
      if c.Rm? || c.Put? {
        EventsJoin(e, w.store, a, v);
        hide ExecAll, AllHappen;
        Assoc3(w.log, LogOf(a), [EntryOf(v)]);
      } else {
        assert a + [] == a;
      }
    }
  }

  lemma CommandLogged(e: Env, local: Store, c: Command, w: Effect) returns (v: Event)
    requires !c.Update?
    ensures var x := EventsOfCommand(e, local, c, w.store);
            var r := Exec(e, local, c, w);
            if c.Rm? || c.Put? then
              && x == [v] && r.store == Happens(e, w.store, v) && Possible(e, w.store, v)
              && r.log == w.log + [EntryOf(v)]
            else x == [] && r.store == w.store && r.log == w.log
  {
    hide ReadKey, WriteKey, CanOpen, RemovalText, PutText;
    var x := EventsOfCommand(e, local, c, w.store);
    v := if x == [] then Removal([]) else x[0];
  }

  /** An upload cut anywhere, or sent by anyone, is an event too: whatever the
      stream holds, the file is untouched, or holds a prefix of what was sent. */
  lemma CutUploadIsEvent(e: Env, s: Store, path: bytes, stream: bytes) returns (stored: Option<bytes>)
    ensures Possible(e, s, Upload(path, stored))
    ensures ReceiveUpload(e, s, path, stream).store == Happens(e, s, Upload(path, stored))
  {
    hide HeaderFromImage, Receive, WriteKey, CanOpen;
    stored := None;
    if |stream| >= HEADER_BYTES {
      var h := HeaderFromImage(e.o, stream[..HEADER_BYTES]);
      if h.error == NO_ERROR_R && Openable(e, s, path) {
        stored := Some(Receive(e.o, stream[HEADER_BYTES..], h.total, 0).data);
      }
    }
  }

  // ----------------------------------------------------- the replay's session

  lemma {:induction false} UpdatesOk(log: Log)
    requires forall x :: x in log ==> IsCString(x.1) && Downward(x.1)
    ensures forall c :: c in UpdateScript(log) ==> CommandOk(c) && c.Update?
    decreases |log|
  {
    if log != [] {
      assert log[|log| - 1] in log;
      UpdatesOk(log[..|log| - 1]);
      hide UpdatePayload, Downward;
      UpdateText(log[|log| - 1]);
      DownwardReads(EMPTY, [], log[|log| - 1].1);
    }
  }

  lemma UpdateText(entry: (u32, bytes))
    requires IsCString(entry.1)
    ensures IsCString(UpdatePayload(entry.0, entry.1))
  {
  }

  lemma {:induction false} ExecAllKeepsStores(e: Env, local: Store, script: seq<Command>, w: Effect)
    requires StoreOk(local) && StoreOk(w.store)
    ensures StoreOk(ExecAll(e, local, script, w).store)
    decreases |script|
  {
    hide Exec, StoreOk;
    if script != [] {
      var rest := script[..|script| - 1];
      ExecAllKeepsStores(e, local, rest, w);
      ExecKeepsStores(e, local, script[|script| - 1], ExecAll(e, local, rest, w));
    }
  }

  /** A client's session that has run to its end, as logged events. */
  lemma SessionDone(e: Env, local: Store, script: seq<Command>, origin0: Store, moves: seq<Move>, done: Conn)
    returns (events: seq<Event>)
    requires forall c :: c in script ==> !c.Update?
    requires var w := Effect(origin0, [], []);
             && SessionOk(script, local, w) && AllGuarded(e, local, script, w)
             && Moves(e, Begin(e, script, local, w), moves) == Some(done) && done.cp == Stopped
    ensures done.srv.store == AllHappen(e, origin0, events) && done.srv.log == LogOf(events)
    ensures SessionPossible(e, origin0, events) && StoreOk(done.srv.store)
  {
    hide Moves, Begin, AllGuarded, ExecAll, AllHappen, SessionPossible, RequestOf;
    var w := Effect(origin0, [], []);
    LockStepFraming(e, script, local, w, moves, done);
    assert script[..|script|] == script;
    SessionLogged(e, local, script, w);
    ExecAllKeepsStores(e, local, script, w);
    events := EventsOf(e, local, script, w);
    assert [] + LogOf(events) == LogOf(events);
  }

  /** A replay's session that has run to its end. */
  lemma ReplayDone(e: Env, origin: Store, log: Log, peer0: Store, moves: seq<Move>, done: Conn)
    requires e.localDir == e.dir && StoreOk(origin) && StoreOk(peer0) && Takes(e, origin, log, peer0)
    requires Sendable(e, origin, log) && forall x :: x in log ==> IsCString(x.1) && Downward(x.1)
    requires Moves(e, Begin(e, UpdateScript(log), origin, Effect(peer0, [], [])), moves) == Some(done)
    requires done.cp == Stopped
    ensures done.srv.store == Replay(e, origin, log, peer0) && done.srv.log == []
  {
    hide Moves, Begin, AllGuarded, ExecAll, Replay, UpdateScript, Takes, Sendable, Downward, RequestOf;
    var w := Effect(peer0, [], []);
    var updates := UpdateScript(log);
    UpdatesOk(log);
    TakesIsGuarded(e, origin, log, peer0);
    assert SessionOk(updates, origin, w) by {
      assert forall i :: 0 <= i < |updates| ==> updates[i] in updates;
    }
    LockStepFraming(e, updates, origin, w, moves, done);
    assert updates[..|updates|] == updates;
    ReplayIsSession(e, origin, log, w);
  }

  /** The whole chain. A client's session runs over one connection, in pieces
      of any size, to its end; its log is then replayed over a connection to a
      peer that had the same files. When the second session ends, the peer's
      files are the origin's, and the peer has logged nothing. */
  lemma ReplicaEndToEnd(e: Env, local: Store, script: seq<Command>, origin0: Store, peer0: Store,
                        clientMoves: seq<Move>, first: Conn, peerMoves: seq<Move>, second: Conn)
    requires e.localDir == e.dir && origin0.files == peer0.files && StoreOk(peer0)
    requires forall c :: c in script ==> !c.Update?
    requires SessionOk(script, local, Effect(origin0, [], [])) && AllGuarded(e, local, script, Effect(origin0, [], []))
    requires Moves(e, Begin(e, script, local, Effect(origin0, [], [])), clientMoves) == Some(first)
    requires forall x :: x in first.srv.log ==> IsCString(x.1) && Downward(x.1)
    requires Carried(e, origin0, first.srv.log) && Sendable(e, first.srv.store, first.srv.log)
    requires Takes(e, first.srv.store, first.srv.log, peer0)
    requires Moves(e, Begin(e, UpdateScript(first.srv.log), first.srv.store, Effect(peer0, [], [])), peerMoves)
             == Some(second)
    requires first.cp == Stopped && second.cp == Stopped
    ensures second.srv.store.files == first.srv.store.files && second.srv.log == []
  {
    hide Moves, Begin, AllGuarded, ExecAll, AllHappen, Replay, UpdateScript, Fits, Takes, Sendable, Carried, InStep,
         Downward, SessionPossible;
    var events := SessionDone(e, local, script, origin0, clientMoves, first);
    forall v | v in events ensures Downward(v.path) {
      var i :| 0 <= i < |events| && events[i] == v;
      assert LogOf(events)[i] in first.srv.log;
    }
    Converges(e, origin0, events, peer0);
    ReplayDone(e, first.srv.store, first.srv.log, peer0, peerMoves, second);
  }

  // ------------------------------------------------- a replay that loses step

  lemma CopyAll(p: Phase, want: nat)
    requires p.Receiving? && p.Held() != [] && |p.Held()| <= want
    ensures Copy(p, want) == Some(Receiving(p.Got() + p.Held(), []))
  {
    assert p.buf[..|p.buf|] == p.buf && p.buf[|p.buf|..] == [];
  }

  /** A response crosses the connection, whatever lies in the other channel. */
  lemma ResponseArrives(e: Env, s: Conn, m: bytes) returns (moves: seq<Move>, r: Conn)
    requires StoresOk(s) && Busy(s) && ClientKind(s.cli) == Fixed(RESPONSE_BYTES)
    requires s.sp == Sending(m) && |m| == RESPONSE_BYTES && s.cp == READING && s.s2c == []
    ensures Moves(e, s, moves) == Some(r)
    ensures r == s.(sp := AfterReply(s.srv), cli := ClientTurn(e, s.cli, m).0,
                    cp := match ClientTurn(e, s.cli, m).1 case None => Stopped case Some(q) => Sending(q))
  {
    hide ClientTurn, ServerTurn, ClientKind, ServerKind, AfterReply;
    var (size, half) := (RESPONSE_BYTES, RIO_BUFSIZE);
    TwoPieces(m, half);
    var s1 := s.(sp := AfterReply(s.srv), s2c := m);
    var s2 := s1.(cp := Receiving([], m[..half]), s2c := m[half..]);
    var s3 := s2.(cp := Receiving(m[..half], []));
    var s4 := s3.(cp := Receiving(m[..half], m[half..]), s2c := []);
    var s5 := s4.(cp := Receiving(m, []));
    var (cli, request) := ClientTurn(e, s.cli, m);
    r := s5.(cli := cli, cp := match request case None => Stopped case Some(q) => Sending(q));
    assert m[half..][..size - half] == m[half..] && m[half..][size - half..] == [];
    assert Step(e, s, Writes(false, size)) == Some(s1);
    assert Step(e, s1, Fills(true, half)) == Some(s2);
    CopyAll(s2.cp, size);
    assert Step(e, s2, Copies(true)) == Some(s3);
    assert Step(e, s3, Fills(true, size - half)) == Some(s4);
    CopyAll(s4.cp, size - half);
    assert Step(e, s4, Copies(true)) == Some(s5);
    assert Step(e, s5, Finishes(true)) == Some(r);
    hide Step;
    moves := [Writes(false, size), Fills(true, half), Copies(true), Fills(true, size - half), Copies(true), Finishes(true)];
    SteppedMoves(e, [s, s1, s2, s3, s4, s5, r], moves);
  }

  /** A request crosses it behind bytes left over: the slave takes as many bytes
      as a request has, from the first. */
  lemma RequestMisread(e: Env, s: Conn, m: bytes, taken: bytes, rest: bytes) returns (moves: seq<Move>, r: Conn)
    requires StoresOk(s) && Busy(s) && ServerKind(e, s.srv) == Fixed(REQUEST_BYTES) && !s.srv.stage.Awaiting?
    requires s.cp == Sending(m) && |m| == |taken| == REQUEST_BYTES && s.sp == READING
    requires s.c2s + m == taken + rest
    ensures Moves(e, s, moves) == Some(r)
    ensures var (srv, reply) := ServerTurn(e, s.srv, taken);
            r == s.(cp := READING, srv := srv, sp := Sending(reply), c2s := rest)
  {
    hide ClientTurn, ServerTurn, ClientKind, ServerKind, AfterReply;
    var (all, size, half) := (s.c2s + m, REQUEST_BYTES, RIO_BUFSIZE);
    TwoPieces(taken, half);
    TwoPieces(m, size);
    assert all[..half] == taken[..half] && all[half..][..size - half] == taken[half..] && all[half..][size - half..] == rest;
    var s1 := s.(cp := READING, c2s := all);
    var s2 := s1.(sp := Receiving([], taken[..half]), c2s := all[half..]);
    var s3 := s2.(sp := Receiving(taken[..half], []));
    var s4 := s3.(sp := Receiving(taken[..half], taken[half..]), c2s := rest);
    var s5 := s4.(sp := Receiving(taken, []));
    var (srv, reply) := ServerTurn(e, s.srv, taken);
    r := s5.(srv := srv, sp := Sending(reply));
    assert Step(e, s, Writes(true, size)) == Some(s1);
    assert Step(e, s1, Fills(false, half)) == Some(s2);
    CopyAll(s2.sp, size);
    assert Step(e, s2, Copies(false)) == Some(s3);
    assert Step(e, s3, Fills(false, size - half)) == Some(s4);
    CopyAll(s4.sp, size - half);
    assert Step(e, s4, Copies(false)) == Some(s5);
    assert Step(e, s5, Finishes(false)) == Some(r);
    hide Step;
    moves := [Writes(true, size), Fills(false, half), Copies(false), Fills(false, size - half), Copies(false), Finishes(false)];
    SteppedMoves(e, [s, s1, s2, s3, s4, s5, r], moves);
  }

  lemma AllWrites(e: Env, s: Conn, m: bytes)
    requires StoresOk(s) && Busy(s) && s.cp == Sending(m) && m != []
    ensures Step(e, s, Writes(true, |m|)) == Some(s.(cp := READING, c2s := s.c2s + m))
  {
    hide StoresOk, ServerTurn, ClientTurn, ClientKind, ServerKind, Want;
    TwoPieces(m, |m|);
  }

  /** A slave that waits for an upload reads what has arrived of it. */
  lemma SlaveReads(e: Env, s: Conn, front: bytes, rest: bytes)
    requires StoresOk(s) && s.sp == READING && s.c2s == front + rest && 0 < |front| <= RIO_BUFSIZE
    requires Want(e.o, ServerKind(e, s.srv), []) == |front|
    ensures var s1 := s.(sp := Receiving([], front), c2s := rest);
            && Step(e, s, Fills(false, |front|)) == Some(s1)
            && Step(e, s1, Copies(false)) == Some(s1.(sp := Receiving(front, [])))
  {
    hide StoreOk, ServerTurn, ClientTurn, ClientKind, ServerKind, Want;
    assert s.c2s[..|front|] == front && s.c2s[|front|..] == rest && [] + front == front;
    CopyAll(Receiving([], front), |front|);
  }

  /** An upload refused at its header, of which only the header has arrived: the
      rest stays on the connection. */
  lemma BodyRefused(e: Env, s: Conn, path: bytes, head: bytes, body: bytes) returns (moves: seq<Move>, r: Conn)
    requires StoresOk(s) && Busy(s) && s.srv.stage == Awaiting(path, true) && !Openable(e, s.srv.store, path)
    requires s.cp == Sending(head + body) && |head| == HEADER_BYTES && s.sp == READING && s.c2s == []
    ensures Moves(e, s, moves) == Some(r)
    ensures var (srv, reply) := ServerTurn(e, s.srv, head);
            r == s.(cp := READING, srv := srv, sp := Sending(reply), c2s := body)
  {
    hide ServerTurn, ClientTurn, ClientKind, Openable, StoreOk, Want, ServerKind;
    var m := head + body;
    assert [] + m == m && m[..HEADER_BYTES] == head;
    HeaderWanted(e, Turn(s.cli, s.srv, ToServer, m));
    var s1 := s.(cp := READING, c2s := m);
    var s2 := s1.(sp := Receiving([], head), c2s := body);
    var s3 := s2.(sp := Receiving(head, []));
    var (srv, reply) := ServerTurn(e, s.srv, head);
    r := s.(cp := READING, srv := srv, sp := Sending(reply), c2s := body);
    assert Step(e, s3, Finishes(false)) == Some(r);
    hide Step;
    AllWrites(e, s, m);
    SlaveReads(e, s1, head, body);
    moves := [Writes(true, |m|), Fills(false, HEADER_BYTES), Copies(false), Finishes(false)];
    SteppedMoves(e, [s, s1, s2, s3, r], moves);
  }

  /** The head of the only block of a file of one zero. */
  function HeadOfZero(o: Order): bytes {
    if o.Little? then [0, 0, 1, 0, 0] else [0, 0, 0, 1, 0]
  }

  lemma BlockHead(o: Order)
    ensures HeadOfZero(o) <= BlockImage(o, MakeBlock(0, [0]))
  {
    var b := MakeBlock(0, [0]);
    assert b.num == 0 && b.size == 1 && b.data[0] == 0;
    var head := U16Bytes(o, 0) + U16Bytes(o, 1);
    assert head == if o.Little? then [0, 0, 1, 0] else [0, 0, 0, 1];
    assert BlockImage(o, b)[..5] == head + [b.data[0]];
  }

  /** Taken for a request, it is of no known type. */
  lemma NoKnownType(e: Env, image: bytes)
    requires |image| == REQUEST_BYTES && HeadOfZero(e.o) <= image
    ensures RequestIn(e, image).0 > UPDATE
  {
    hide CString, Swap32;
    assert image[..REQUEST_BYTES] == image;
    assert forall i :: 0 <= i < 5 ==> image[i] == image[..5][i];
    SwapLanes(0, 0, 1, 0);
    SwapLanes(1, 0, 0, 0);
  }

  lemma BlockIsNoRequest(e: Env, srv: Server, taken: bytes)
    requires |taken| == REQUEST_BYTES && srv.stage == Serving && HeadOfZero(e.o) <= taken
    ensures var (r, reply) := ServerTurn(e, srv, taken);
            r.store == srv.store && r.stage == Serving && reply == Session.Reply(e, [], TYPE_ERROR_R)
  {
    hide Session.Reply, ReadFile, RemovePath, Served, RequestIn;
    NoKnownType(e, taken);
  }

  /** The answer to an upload's body, or to one that is not ready for it, ends
      the command, whatever it says. */
  lemma UploadEnds(e: Env, cli: Client, msg: bytes)
    requires Doing(cli.script, cli.done).Update? && |msg| == RESPONSE_BYTES
    requires cli.sent || AnswerIn(msg).1 != NO_ERROR_R
    ensures var (next, request) := ClientTurn(e, cli, msg);
            && next == cli.(done := cli.done + 1, sent := false, results := next.results)
            && request == if next.done < |cli.script| then Some(RequestOf(e, Doing(cli.script, next.done))) else None
  {
    hide RequestOf, AnswerIn, Body, Ready;
  }

  lemma HeaderAnswered(e: Env, srv: Server, path: bytes, msg: bytes)
    requires srv.stage == Awaiting(path, true) && |msg| >= HEADER_BYTES && !Openable(e, srv.store, path)
    ensures var (r, reply) := ServerTurn(e, srv, msg);
            r == srv.(stage := Serving) && |reply| == RESPONSE_BYTES
  {
    hide Openable, HeaderFromImage, Receive, Session.Reply, PutText;
  }

  /** What is sent for a file of one zero. */
  lemma OneZero(o: Order)
    ensures Served(o, Some([0]), 0) == GoodHeader(o, 1) + BlockImage(o, MakeBlock(0, [0]))
  {
    hide HeaderImage, BlockImage, MakeBlock;
    BlocksStep(o, [0], 0, 0);
    var f: bytes := [0];
    assert f[0..1] == f && BlockEnd(f, 0) == 1;
    assert Transfer.Blocks(o, f, 1, 1) == [];
    var b := BlockImage(o, MakeBlock(0, f));
    assert b + [] == b;
  }

  /** The updates of two logged uploads. */
  lemma TwoUpdates(p: bytes, q: bytes)
    requires Fits((PUT, p)) && Fits((PUT, q))
    ensures UpdateScript([(PUT, p), (PUT, q)]) == [Update(PUT, p), Update(PUT, q)]
  {
    hide Fits;
    var log: Log := [(PUT, p), (PUT, q)];
    assert log[..1] == [(PUT, p)] && log[..1][..0] == [];
    assert UpdateScript(log[..1]) == [Update(PUT, p)];
  }

  /** From the refused body on: the block left over is taken for the head of
      the next request, which is never seen. */
  lemma LosesStep(e: Env, s: Conn, path: bytes) returns (moves: seq<Move>, r: Conn)
    requires StoresOk(s) && s.cli.done == 0 && s.cli.sent && |s.cli.script| == 2
    requires Doing(s.cli.script, 0).Update? && Doing(s.cli.script, 1).Update?
    requires s.srv.stage == Awaiting(path, true) && !Openable(e, s.srv.store, path)
    requires s.cp == Sending(Served(e.o, Some([0]), 0)) && s.sp == READING && s.c2s == [] && s.s2c == []
    ensures Moves(e, s, moves) == Some(r) && r.cp == Stopped && r.srv.store == s.srv.store
  {
    hide Step, Moves, ServerTurn, ClientTurn, Openable, RequestOf, BlockImage, MakeBlock, Served, StoreOk, Session.Reply,
         AnswerIn, GoodHeader;
    OneZero(e.o);
    var (head, block) := (GoodHeader(e.o, 1), BlockImage(e.o, MakeBlock(0, [0])));
    HeaderAnswered(e, s.srv, path, head);
    var first, s1 := BodyRefused(e, s, path, head, block);
    UploadEnds(e, s1.cli, s1.sp.rest);
    var second, s2 := ResponseArrives(e, s1, s1.sp.rest);
    var m := s2.cp.rest;
    var all := block + m;
    var (taken, rest) := (all[..REQUEST_BYTES], all[REQUEST_BYTES..]);
    BlockHead(e.o);
    assert taken[..5] == block[..5] && all == taken + rest;
    BlockIsNoRequest(e, s2.srv, taken);
    var third, s3 := RequestMisread(e, s2, m, taken, rest);
    AnswerDecoded(e, [], TYPE_ERROR_R);
    UploadEnds(e, s3.cli, s3.sp.rest);
    var fourth;
    fourth, r := ResponseArrives(e, s3, s3.sp.rest);
    MovesJoin(e, s2, third, s3, fourth);
    MovesJoin(e, s1, second, s2, third + fourth);
    MovesJoin(e, s, first, s1, second + (third + fourth));
    moves := first + (second + (third + fourth));
  }

  /** The session that logs it: a client that has no such file uploads by a name
      the slave refuses, and then a file of one zero by its own name. */
  function RefusedFirst(p: bytes, q: bytes): seq<Event> {
    [Upload(p, None), Upload(q, Some([0]))]
  }

  lemma RefusedFirstHappens(e: Env, p: bytes, q: bytes)
    requires Accepted(e, q)
    ensures SessionPossible(e, EMPTY, RefusedFirst(p, q))
    ensures AllHappen(e, EMPTY, RefusedFirst(p, q)) == Written(EMPTY, Named(q), [0])
    ensures LogOf(RefusedFirst(p, q)) == [(PUT, p), (PUT, q)]
  {
    EmptyOpens(e, q);
    hide Named, WriteKey, CanOpen, PathKey, Accepted;
    TwoEvents(e, EMPTY, Upload(p, None), Upload(q, Some([0])));
  }

  /** The slave waits for the body of the first upload of these, which the
      client is about to write. */
  ghost predicate AtBody(e: Env, script: seq<Command>, origin: Store, w: Effect, s: Conn) {
    var path := PathOf(Doing(script, 0));
    && StoresOk(s) && s.cli.done == 0 && s.cli.sent && s.cli.script == script
    && s.srv.stage == Awaiting(path, true) && s.srv.store == w.store
    && s.cp == Sending(Body(e, origin, path)) && s.sp == READING && s.c2s == [] && s.s2c == []
  }

  lemma BodyNext(e: Env, script: seq<Command>, origin: Store, w: Effect, t: Turn)
    requires SessionOk(script, origin, w) && Tracks(e, script, origin, w, t) && Doing(script, 0).Update?
    requires AtTransfer(t, Doing(script, 0), 0) && Uploads(Doing(script, 0))
    ensures AtBody(e, script, origin, w, Opening(t))
  {
    hide Body, ServerTurn, ServeRequest, RequestOf, Asked;
    assert script[..0] == [];
    assert ExecAll(e, origin, [], w) == w;
  }

  /** Such a replay reaches the body of its first upload. */
  lemma ReachesBody(e: Env, script: seq<Command>, origin: Store, w: Effect) returns (moves: seq<Move>, s: Conn)
    requires SessionOk(script, origin, w) && script != [] && Doing(script, 0).Update? && Uploads(Doing(script, 0))
    ensures Moves(e, Begin(e, script, origin, w), moves) == Some(s) && AtBody(e, script, origin, w, s)
  {
    assert StoreOk(origin);
    hide Step, Moves, Tracks, Body, GuardedAt, RequestOf, ExecAll, Opening, Start, StoresOk, StoreOk;
    StartTracks(e, script, origin, w);
    StartsBefore(e, script, origin, w);
    var u;
    moves, u := RunsOn(e, script, origin, w, Start(e, script, origin, w), 0);
    BodyNext(e, script, origin, w, u);
    s := Opening(u);
  }

  /** On the wire that replay can end with the peer still empty: nothing more of
      the log reaches it. */
  lemma RefusedReplayStops(e: Env, p: bytes, q: bytes) returns (moves: seq<Move>, r: Conn)
    requires e.localDir == e.dir && IsCString(p) && IsCString(q) && Fits((PUT, p)) && Fits((PUT, q))
    requires Accepted(e, q) && !Accepted(e, p) && PathKey(e.dir, p) == Some(Named(q))
    ensures var log := LogOf(RefusedFirst(p, q));
            var origin := AllHappen(e, EMPTY, RefusedFirst(p, q));
            && SessionPossible(e, EMPTY, RefusedFirst(p, q)) && origin.files == map[Named(q) := [0]]
            && Moves(e, Begin(e, UpdateScript(log), origin, Effect(EMPTY, [], [])), moves) == Some(r)
            && r.cp == Stopped && r.srv.store == EMPTY
  {
    hide Step, Moves, Named, Fits, Accepted, Body, RequestOf, UpdateScript, AllHappen, SessionPossible, LogOf, Downward,
         Opening, Begin, Start, StoresOk, CommandOk;
    var log: Log := [(PUT, p), (PUT, q)];
    var origin := Written(EMPTY, Named(q), [0]);
    var w := Effect(EMPTY, [], []);
    RefusedFirstHappens(e, p, q);
    TwoUpdates(p, q);
    var script := UpdateScript(log);
    AcceptedReads(e, origin, q);
    PathDown(e, p);
    UpdatesOk(log);
    assert SessionOk(script, origin, w);
    var there, s := ReachesBody(e, script, origin, w);
    DownwardReads(origin, e.dir, p);
    hide PathKey, ReadKey, SessionOk, StoreOk;
    BodyIs(e, origin, p, [0]);
    NotOpenable(e, EMPTY, p);
    var rest;
    rest, r := LosesStep(e, s, p);
    MovesJoin(e, Begin(e, script, origin, w), there, s, rest);
    moves := there + rest;
  }

  lemma StartsBefore(e: Env, script: seq<Command>, local: Store, w: Effect)
    ensures Before(Start(e, script, local, w), script, 0)
  {
  }

  lemma BodyIs(e: Env, local: Store, path: bytes, data: bytes)
    requires ReadFile(local, e.localDir, path) == Some(data)
    ensures Body(e, local, path) == Served(e.o, Some(data), 0)
  {
    hide ReadFile, Served;
  }

  lemma NotOpenable(e: Env, s: Store, path: bytes)
    requires !Accepted(e, path)
    ensures !Openable(e, s, path)
  {
  }
}
