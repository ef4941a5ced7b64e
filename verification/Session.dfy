/**
 One connection to a slave, message by message: what the two ends send and
 do, and what a command means as one atomic operation. `LockStep` shows that
 the bytes on the wire carry exactly these messages.
 */
module Session {
  import opened Bytes
  import opened Text
  import opened Wire
  import opened Transfer
  import opened Paths
  import opened FileSystem
  import opened Names

  /** The byte order of both hosts, the name and canonical path of the slave's
      directory, and the directory the other end sends files from. */
  datatype Env = Env(o: Order, dir: bytes, rootPath: bytes, localDir: bytes)

  /** What a download finds on the client's disk: whether a directory above the
      partial files cannot be made, because a regular file stands above the
      last of them or its name is too long for the system, and the length of
      `.part`, 0 when there is none. No other local call fails. */
  datatype Dest = Dest(blocked: bool, part: u32)

  /** What the client makes of a header it can go on from, in the order of the
      code: the names of the partial files must fit its buffers, their
      directories be made, `.part` reach the start, and the name of the
      temporary meta file fit. */
  function Prepare(path: bytes, offset: u32, here: Dest): (code: int) {
    if |MetaPath(path)| >= MAXLINE || here.blocked then LOCAL_ERROR
    else if here.part < offset then OFFSET_ERROR_R
    else if |TmpPath(path)| >= MAXLINE then LOCAL_ERROR
    else NO_ERROR_R
  }

  /** The client reads past the header only when it can write what follows. */
  predicate Accepting(path: bytes, offset: u32, here: Dest) {
    Prepare(path, offset, here) == NO_ERROR_R
  }

  datatype Command =
    | Get(path: bytes, here: Dest)
    | Resume(path: bytes, offset: u32, here: Dest)
    | Rm(path: bytes)
    | Put(path: bytes)
    | Update(kind: u32, path: bytes)   // sent by another slave
    | Bye

  datatype Result =
    | Downloaded(code: int, data: bytes)
    | Answered(text: bytes, error: byte)

  /** The bytes of a text of the program. */
  function Ascii(s: string): (b: bytes)
    ensures |b| == |s| && IsCString(b)
  {
    seq(|s|, i requires 0 <= i < |s| => if 0 < s[i] as int < 256 then s[i] as int else 63)
  }

  // ------------------------------------------------------------- the requests

  function KindOf(c: Command): u32 {
    match c
    case Get(_, _) => GET
    case Resume(_, _, _) => RESUME
    case Rm(_) => RM
    case Put(_) => PUT
    case Update(_, _) => UPDATE
    case Bye => BYE
  }

  function PayloadOf(c: Command): bytes {
    match c
    case Get(path, _) => path
    case Resume(path, offset, _) => ResumePayload(path, offset)
    case Rm(path) => path
    case Put(path) => path
    case Update(kind, path) => UpdatePayload(kind, path)
    case Bye => []
  }

  function PathOf(c: Command): bytes {
    if c.Bye? then [] else c.path
  }

  /** A command whose payload fits, with a path the payload's format carries
      and that does not lead above the root; an update forwards a removal or an
      upload. */
  ghost predicate CommandOk(c: Command) {
    && IsCString(PayloadOf(c)) && |PayloadOf(c)| < MAXLINE && StaysInside(PathOf(c))
    && (c.Resume? ==> c.path != [] && NL !in c.path)
    && (c.Update? ==> c.kind == RM || c.kind == PUT)
  }

  function RequestOf(e: Env, c: Command): (s: bytes)
    ensures |s| == REQUEST_BYTES
  {
    RequestImage(e.o, EncodeRequest(e.o, KindOf(c), PayloadOf(c)))
  }

  // ------------------------------------------------------------------- stores

  ghost predicate StoreOk(s: Store) {
    forall k :: k in s.files ==> IsFile(s.files[k])
  }

  /** `open_file_r`. */
  function ReadFile(s: Store, dir: bytes, path: bytes): Option<bytes> {
    match ReadKey(s, dir, path)
    case None => None
    case Some(k) => if k in s.files then Some(s.files[k]) else None
  }

  function RemovePath(s: Store, dir: bytes, path: bytes): Store {
    match ReadKey(s, dir, path)
    case None => s
    case Some(k) => Without(s, k)
  }

  predicate Openable(e: Env, s: Store, path: bytes) {
    WriteKey(e.dir, e.rootPath, path).Some? && CanOpen(s, WriteKey(e.dir, e.rootPath, path).value)
  }

  // --------------------------------------------------------------- the slave

  datatype Stage = Serving | Awaiting(path: bytes, update: bool) | Closed

  /** A slave's side of a connection: its files, the log of the connection,
      the requests it has decoded, and where it is. */
  datatype Server = Server(store: Store, log: seq<(u32, bytes)>, requests: seq<(u32, bytes)>, stage: Stage)

  function Reply(e: Env, text: bytes, error: byte): (s: bytes)
    ensures |s| == RESPONSE_BYTES
  {
    ResponseImage(EncodeResponse(e.o, text, error))
  }

  function Ready(update: bool): bytes {
    if update then Ascii("READY_UPDATE_PUT") else Ascii("READY_PUT")
  }

  function RemovalText(path: bytes, found: bool): bytes {
    if found then Ascii("File ") + path + Ascii(" removed successfully\n")
    else Ascii("Error: Could not remove file ") + path + Ascii("\n")
  }

  function PutText(update: bool, code: byte): bytes {
    if code == NO_ERROR_R then (if update then Ascii("UPDATE PUT OK\n") else Ascii("PUT completed successfully"))
    else (if update then Ascii("UPDATE PUT ERROR ") else Ascii("PUT failed with error ")) + Decimal(code)
  }

  /** `send_server_response` for a request, up to its first message; LS and
      unknown types are answered with TYPE_ERROR_R. */
  function ServeRequest(e: Env, srv: Server, kind: u32, path: bytes): (Server, bytes) {
    var logged := srv.(requests := srv.requests + [(kind, path)],
                       log := if kind == RM || kind == PUT then srv.log + [(kind, path)] else srv.log);
    var refused := (logged, Reply(e, [], TYPE_ERROR_R));
    if kind == GET then (logged, Served(e.o, ReadFile(srv.store, e.dir, path), 0))
    else if kind == RESUME then
      match ParseResumeData(path)
      case None => refused
      case Some((p, k)) => (logged, Served(e.o, ReadFile(srv.store, e.dir, p), k))
    else if kind == BYE then (logged.(stage := Closed), Reply(e, Ascii("BYE\n"), NO_ERROR_R))
    else if kind == RM then
      (logged.(store := RemovePath(srv.store, e.dir, path)),
       Reply(e, RemovalText(path, ReadFile(srv.store, e.dir, path).Some?), NO_ERROR_R))
    else if kind == PUT then (logged.(stage := Awaiting(path, false)), Reply(e, Ready(false), NO_ERROR_R))
    else if kind == UPDATE then
      match ParseUpdate(path)
      case None => refused
      case Some((forwarded, p)) =>
        if forwarded == RM then
          var found := ReadFile(srv.store, e.dir, p).Some?;
          (logged.(store := RemovePath(srv.store, e.dir, p)),
           Reply(e, if found then Ascii("UPDATE RM OK\n") else Ascii("UPDATE RM ERROR\n"),
                 if found then NO_ERROR_R else PATH_ERROR_R))
        else if forwarded == PUT then (logged.(stage := Awaiting(p, true)), Reply(e, Ready(true), NO_ERROR_R))
        else refused
    else refused
  }

  datatype Reception = Reception(store: Store, code: int)

  /** `receive_file_by_blocks_to_path` on what it consumed of the stream. */
  function ReceiveUpload(e: Env, s: Store, path: bytes, stream: bytes): Reception {
    if |stream| < HEADER_BYTES then Reception(s, CLIENT_DISCONNECTED_R)
    else
      var h := HeaderFromImage(e.o, stream[..HEADER_BYTES]);
      if h.error != NO_ERROR_R then Reception(s, h.error)
      else if !Openable(e, s, path) then Reception(s, PATH_ERROR_R)
      else
        var r := Receive(e.o, stream[HEADER_BYTES..], h.total, 0);
        Reception(Written(s, WriteKey(e.dir, e.rootPath, path).value, r.data), r.code)
  }

  // ----------------------------------------------------- how a message is read

  /** What a reader takes for one message: a structure of fixed size, or a
      transfer, of which it may refuse everything after the header. */
  datatype Kind = Fixed(size: nat) | Blocks(offset: u32, open: bool)

  /** How much the current `Rio_readnb` still wants; 0 when the message is
      complete. */
  function Want(o: Order, kind: Kind, got: bytes): nat {
    match kind
    case Fixed(size) => if |got| >= size then 0 else size - |got|
    case Blocks(offset, open) =>
      if |got| < HEADER_BYTES then HEADER_BYTES - |got|
      else
        var h := HeaderFromImage(o, got[..HEADER_BYTES]);
        var rest := got[HEADER_BYTES..];
        if h.error != NO_ERROR_R || !open || offset > h.total then 0
        else if Receive(o, rest, h.total, offset).code != CLIENT_DISCONNECTED_R then 0
        else BLOCK_BYTES - |rest| % BLOCK_BYTES
  }

  /** A reader of this kind takes all of the message and stops only there. */
  ghost predicate Framed(o: Order, kind: Kind, msg: bytes) {
    msg != [] && Want(o, kind, msg) == 0 && forall n :: 0 <= n < |msg| ==> Want(o, kind, msg[..n]) > 0
  }

  function ServerKind(e: Env, srv: Server): Kind {
    match srv.stage
    case Awaiting(path, _) => Blocks(0, Openable(e, srv.store, path))
    case _ => Fixed(REQUEST_BYTES)
  }

  /** The request in a message, and the answer in one. */
  function RequestIn(e: Env, msg: bytes): (u32, bytes) {
    if |msg| < REQUEST_BYTES then (BYE, []) else DecodeRequest(e.o, RequestFromImage(e.o, msg[..REQUEST_BYTES]))
  }

  function AnswerIn(msg: bytes): (bytes, byte) {
    if |msg| < RESPONSE_BYTES then ([], NO_ERROR_R) else DecodeResponse(msg[..RESPONSE_BYTES])
  }

  /** What the slave does with a complete message, and what it sends; it stops
      when no complete request comes. */
  function ServerTurn(e: Env, srv: Server, msg: bytes): (Server, bytes) {
    match srv.stage
    case Awaiting(path, update) =>
      var up := ReceiveUpload(e, srv.store, path, msg);
      (srv.(store := up.store, stage := Serving), Reply(e, PutText(update, up.code % 256), up.code % 256))
    case _ =>
      if |msg| < REQUEST_BYTES then (srv.(stage := Closed), [])
      else
        var (kind, path) := RequestIn(e, msg);
        ServeRequest(e, srv, kind, path)
  }

  // ---------------------------------------------------------------- the client

  /** The other side: the commands, how many are done, whether the body of the
      current upload has been sent, the files it sends from, and its results. */
  datatype Client = Client(script: seq<Command>, done: nat, sent: bool, local: Store, results: seq<Result>)

  predicate Uploads(c: Command) {
    c.Put? || (c.Update? && c.kind == PUT)
  }

  /** Command number `n` of a script; BYE after its end. */
  function Doing(script: seq<Command>, n: nat): Command {
    if n < |script| then script[n] else Bye
  }

  function ClientKind(cli: Client): Kind {
    match Doing(cli.script, cli.done)
    case Get(path, here) => Blocks(0, Accepting(path, 0, here))
    case Resume(path, offset, here) => Blocks(offset, Accepting(path, offset, here))
    case _ => Fixed(RESPONSE_BYTES)
  }

  function Body(e: Env, local: Store, path: bytes): bytes {
    Served(e.o, ReadFile(local, e.localDir, path), 0)
  }

  /** The next command's request, or nothing after the last. */
  function Advance(e: Env, cli: Client, r: Result): (Client, Option<bytes>) {
    var next := cli.(done := cli.done + 1, sent := false, results := cli.results + [r]);
    (next, if next.done < |cli.script| then Some(RequestOf(e, cli.script[next.done])) else None)
  }

  /** `receive_file_by_blocks_resume` on a complete message. */
  function DownloadResult(o: Order, msg: bytes, path: bytes, offset: u32, here: Dest): Result {
    if |msg| < HEADER_BYTES then Downloaded(LOCAL_ERROR, [])
    else
      var h := HeaderFromImage(o, msg[..HEADER_BYTES]);
      if h.error != NO_ERROR_R then Downloaded(h.error, [])
      else if offset > h.total then Downloaded(OFFSET_ERROR_R, [])
      else if !Accepting(path, offset, here) then Downloaded(Prepare(path, offset, here), [])
      else
        var r := Receive(o, msg[HEADER_BYTES..], h.total, offset);
        Downloaded(r.code, r.data)
  }

  /** What the client does with a complete message, and what it sends; it stops
      when no complete answer comes. */
  function ClientTurn(e: Env, cli: Client, msg: bytes): (Client, Option<bytes>) {
    var c := Doing(cli.script, cli.done);
    match c
    case Get(path, here) => Advance(e, cli, DownloadResult(e.o, msg, path, 0, here))
    case Resume(path, offset, here) => Advance(e, cli, DownloadResult(e.o, msg, path, offset, here))
    case _ =>
      if |msg| < RESPONSE_BYTES then (cli, None)
      else
        var (text, error) := AnswerIn(msg);
        var ready := !cli.sent && error == NO_ERROR_R && text == Ready(c.Update?);
        if Uploads(c) && ready then (cli.(sent := true), Some(Body(e, cli.local, PathOf(c))))
        else Advance(e, cli, Answered(text, error))
  }

  // ------------------------------------------------------ commands as a whole

  /** The slave's files and log and the client's results after some commands. */
  datatype Effect = Effect(store: Store, log: seq<(u32, bytes)>, results: seq<Result>)

  function FetchResult(file: Option<bytes>, path: bytes, offset: u32, here: Dest): Result {
    match file
    case None => Downloaded(PATH_ERROR_R, [])
    case Some(f) =>
      if offset > |f| then Downloaded(OFFSET_ERROR_R, [])
      else if !Accepting(path, offset, here) then Downloaded(Prepare(path, offset, here), [])
      else Downloaded(NO_ERROR_R, f[offset..])
  }

  /** An upload: refused with the error of its header, refused for its path, or
      stored whole. */
  function Uploaded(e: Env, s: Store, file: Option<bytes>, path: bytes): (Store, byte) {
    match file
    case None => (s, PATH_ERROR_R)
    case Some(data) =>
      if !Openable(e, s, path) then (s, PATH_ERROR_R)
      else (Written(s, WriteKey(e.dir, e.rootPath, path).value, data), NO_ERROR_R)
  }

  function Truncated(text: bytes): bytes {
    text[..Min(|text|, MAXLINE - 1)]
  }

  /** What a command does, as one operation. */
  function Exec(e: Env, local: Store, c: Command, w: Effect): Effect {
    var s := w.store;
    var log := if c.Rm? || c.Put? then w.log + [(KindOf(c), c.path)] else w.log;
    match c
    case Get(path, here) => w.(results := w.results + [FetchResult(ReadFile(s, e.dir, path), path, 0, here)])
    case Resume(path, k, here) => w.(results := w.results + [FetchResult(ReadFile(s, e.dir, path), path, k, here)])
    case Rm(path) =>
      Effect(RemovePath(s, e.dir, path), log,
             w.results + [Answered(Truncated(RemovalText(path, ReadFile(s, e.dir, path).Some?)), NO_ERROR_R)])
    case Put(path) =>
      var (s', code) := Uploaded(e, s, ReadFile(local, e.localDir, path), path);
      Effect(s', log, w.results + [Answered(PutText(false, code), code)])
    case Update(kind, path) =>
      if kind == RM then
        var found := ReadFile(s, e.dir, path).Some?;
        Effect(RemovePath(s, e.dir, path), log,
               w.results + [Answered(if found then Ascii("UPDATE RM OK\n") else Ascii("UPDATE RM ERROR\n"),
                                     if found then NO_ERROR_R else PATH_ERROR_R)])
      else
        var (s', code) := Uploaded(e, s, ReadFile(local, e.localDir, path), path);
        Effect(s', log, w.results + [Answered(PutText(true, code), code)])
    case Bye => w.(results := w.results + [Answered(Ascii("BYE\n"), NO_ERROR_R)])
  }

  function ExecAll(e: Env, local: Store, script: seq<Command>, w: Effect): Effect {
    if script == [] then w
    else Exec(e, local, script[|script| - 1], ExecAll(e, local, script[..|script| - 1], w))
  }

  /** The answer to the last command. */
  function LastResult(w: Effect): Result {
    if w.results == [] then Answered([], NO_ERROR_R) else w.results[|w.results| - 1]
  }

  /** The texts of the program. */
  lemma Texts(path: bytes, code: byte)
    ensures Ready(false) == Ascii("READY_PUT") && Ready(true) == Ascii("READY_UPDATE_PUT")
    ensures RemovalText(path, true) == Ascii("File ") + path + Ascii(" removed successfully\n")
    ensures RemovalText(path, false) == Ascii("Error: Could not remove file ") + path + Ascii("\n")
    ensures PutText(false, 0) == Ascii("PUT completed successfully") && PutText(true, 0) == Ascii("UPDATE PUT OK\n")
    ensures code != 0 ==>
              && PutText(false, code) == Ascii("PUT failed with error ") + Decimal(code)
              && PutText(true, code) == Ascii("UPDATE PUT ERROR ") + Decimal(code)
  {
    hide Ascii;
  }

  /** The answer to RM always carries error 0, and its text alone tells: it
      begins with "File " exactly when the file named was there and is there no
      longer. */
  lemma RemovalAnswered(e: Env, local: Store, path: bytes, w: Effect)
    ensures var r := Exec(e, local, Rm(path), w);
            var was := ReadFile(w.store, e.dir, path).Some?;
            && LastResult(r)
               == Answered(Truncated(if was then Ascii("File ") + path + Ascii(" removed successfully\n")
                                     else Ascii("Error: Could not remove file ") + path + Ascii("\n")), 0)
            && (was ==> Ascii("File ") <= LastResult(r).text && ReadFile(r.store, e.dir, path).None?)
            && (!was ==> !(Ascii("File ") <= LastResult(r).text) && r.store == w.store)
  {
    hide ReadKey;
    var was := ReadFile(w.store, e.dir, path).Some?;
    Texts(path, 0);
    SameDirsRead(w.store, RemovePath(w.store, e.dir, path), e.dir, path);
    var k := ReadKey(w.store, e.dir, path);
    if k.Some? && k.value !in w.store.files {
      assert Without(w.store, k.value).files == w.store.files;
    }
    hide Exec;
    assert Ascii("File ")[0] == 70 && Ascii("Error: Could not remove file ")[0] == 69;
    assert RemovalText(path, true)[..5] == Ascii("File ");
  }

  /** The answer to an upload, a client's or a slave's: its text and its error
      tell whether the file is stored as it was sent. */
  lemma UploadAnswered(e: Env, local: Store, c: Command, w: Effect)
    requires Uploads(c)
    ensures var r := Exec(e, local, c, w);
            var file := ReadFile(local, e.localDir, PathOf(c));
            var stored := file.Some? && Openable(e, w.store, PathOf(c));
            && LastResult(r)
               == (if stored then Answered(if c.Put? then Ascii("PUT completed successfully") else Ascii("UPDATE PUT OK\n"), 0)
                   else Answered((if c.Put? then Ascii("PUT failed with error ") else Ascii("UPDATE PUT ERROR ")) + Decimal(1), 1))
            && r.store == if stored then Written(w.store, Components(PathOf(c)), file.value) else w.store
  {
    hide ReadKey, CanOpen, Accepts, Components, Written;
    Texts([], 1);
    hide PutText, Ascii;
  }

  /** The answer to a removal that a slave forwards. */
  lemma ForwardedRemoval(e: Env, local: Store, path: bytes, w: Effect)
    ensures var r := Exec(e, local, Update(RM, path), w);
            var was := ReadFile(w.store, e.dir, path).Some?;
            && LastResult(r) == (if was then Answered(Ascii("UPDATE RM OK\n"), 0) else Answered(Ascii("UPDATE RM ERROR\n"), 1))
            && r.store == Exec(e, local, Rm(path), w).store
  {
    hide ReadKey, Ascii;
  }

  /** A removal leaves the directories, and with them what a path names. */
  lemma {:induction false} SameDirsLead(s: Store, s': Store, at: Key, cs: Key)
    requires s'.dirs == s.dirs
    ensures Leads(s', at, cs) == Leads(s, at, cs)
    decreases |cs|
  {
    if cs != [] {
      SameDirsLead(s, s', Enter(at, cs[0]), cs[1..]);
    }
  }

  lemma SameDirsRead(s: Store, s': Store, dir: bytes, path: bytes)
    requires s'.dirs == s.dirs
    ensures ReadKey(s', dir, path) == ReadKey(s, dir, path)
  {
    SameDirsLead(s, s', [], Components(path));
  }

  /** The codes of a download, in the order in which `receive_file_by_blocks_
      resume` comes to them: a name or a directory that cannot be made is 1,
      a `.part` that is too short 5. */
  lemma DownloadCodes(o: Order, msg: bytes, path: bytes, offset: u32, here: Dest)
    ensures var r := DownloadResult(o, msg, path, offset, here);
            var name := |path| + if Relative(path) then |CLIENT_DIR| else 0;
            if |msg| < HEADER_BYTES then r.code == LOCAL_ERROR
            else
              var h := HeaderFromImage(o, msg[..HEADER_BYTES]);
              var got := Receive(o, msg[HEADER_BYTES..], h.total, offset);
              if h.error != NO_ERROR_R then r.code == h.error
              else if offset > h.total then r.code == OFFSET_ERROR_R
              else if here.blocked || name + |META_SUFFIX| >= MAXLINE then r.code == LOCAL_ERROR
              else if here.part < offset then r.code == OFFSET_ERROR_R
              else if name + |META_SUFFIX + TMP_SUFFIX| >= MAXLINE then r.code == LOCAL_ERROR
              else r == Downloaded(got.code, got.data)
  {
    hide HeaderFromImage, Receive;
  }

  predicate Downloads(c: Command) {
    c.Get? || c.Resume?
  }

  /** Where a download starts, and what it finds on the client's disk. */
  function StartAndDest(c: Command): (u32, Dest) {
    match c
    case Get(_, here) => (0, here)
    case Resume(_, offset, here) => (offset, here)
    case _ => (0, Dest(false, 0))
  }

  /** A transfer of which something follows the header finds a receiver that
      reads on: an upload a destination the slave can open, a download one the
      client can write. Otherwise its blocks are left unread. */
  predicate Guarded(e: Env, local: Store, c: Command, s: Store) {
    if Uploads(c) then
      match ReadFile(local, e.localDir, c.path)
      case None => true
      case Some(data) => data == [] || Openable(e, s, c.path)
    else if Downloads(c) then
      match ReadFile(s, e.dir, c.path)
      case None => true
      case Some(f) => StartAndDest(c).0 >= |f| || Accepting(c.path, StartAndDest(c).0, StartAndDest(c).1)
    else true
  }

  /** The effect of the first `n` commands. */
  function ExecFirst(e: Env, local: Store, script: seq<Command>, n: nat, w: Effect): Effect {
    ExecAll(e, local, script[..Min(n, |script|)], w)
  }

  /** Command number `n` is guarded when its turn comes. */
  predicate GuardedAt(e: Env, local: Store, script: seq<Command>, w: Effect, n: nat) {
    Guarded(e, local, Doing(script, n), ExecFirst(e, local, script, n, w).store)
  }

  ghost predicate AllGuarded(e: Env, local: Store, script: seq<Command>, w: Effect) {
    forall i :: 0 <= i < |script| ==> GuardedAt(e, local, script, w, i)
  }

  // -------------------------------------------------------------- turn by turn

  /** Whose message is on its way, or the end of the script. */
  datatype Way = ToServer | ToClient | Over

  datatype Turn = Turn(cli: Client, srv: Server, way: Way, msg: bytes)

  function ReceiverKind(e: Env, t: Turn): Kind {
    if !t.way.Over? && t.way.ToServer? then ServerKind(e, t.srv) else ClientKind(t.cli)
  }

  ghost predicate TurnOk(e: Env, t: Turn) {
    && !t.way.Over? && t.cli.done < |t.cli.script|
    && StoreOk(t.cli.local) && StoreOk(t.srv.store)
    && Framed(e.o, ReceiverKind(e, t), t.msg)
  }

  /** A message of the client, or the end of the session. */
  function Onward(cli: Client, srv: Server, request: Option<bytes>): Turn {
    match request
    case None => Turn(cli, srv, Over, [])
    case Some(m) => Turn(cli, srv, ToServer, m)
  }

  /** The receiver takes the message and answers. */
  function Deliver(e: Env, t: Turn): Turn {
    match t.way
    case Over => t
    case ToServer => var (srv, reply) := ServerTurn(e, t.srv, t.msg); Turn(t.cli, srv, ToClient, reply)
    case ToClient => var (cli, request) := ClientTurn(e, t.cli, t.msg); Onward(cli, t.srv, request)
  }

  /** The requests a slave should have decoded after `n` commands. */
  function Asked(script: seq<Command>, n: nat): seq<(u32, bytes)> {
    if n == 0 then [] else Asked(script, n - 1) + [(KindOf(Doing(script, n - 1)), PayloadOf(Doing(script, n - 1)))]
  }

  /** A session that can be run: commands that fit, BYE only at the end, and
      files below 4 GiB on both sides. */
  ghost predicate SessionOk(script: seq<Command>, local: Store, w: Effect) {
    && (forall c :: c in script ==> CommandOk(c))
    && (forall i :: 0 <= i < |script| - 1 ==> !script[i].Bye?)
    && StoreOk(local) && StoreOk(w.store)
  }

  function ServerAt(w: Effect, script: seq<Command>, n: nat, stage: Stage): Server {
    Server(w.store, w.log, Asked(script, n), stage)
  }

  function Start(e: Env, script: seq<Command>, local: Store, w: Effect): Turn {
    var cli := Client(script, 0, false, local, w.results);
    var srv := ServerAt(w, script, 0, Serving);
    if script == [] then Turn(cli, srv, Over, []) else Turn(cli, srv, ToServer, RequestOf(e, script[0]))
  }

  /** The slave while it waits for the body of upload `c`. */
  function AwaitingBody(w: Effect, script: seq<Command>, n: nat): Server {
    var c := Doing(script, n);
    var log := if c.Put? then w.log + [(PUT, c.path)] else w.log;
    Server(w.store, log, Asked(script, n + 1), Awaiting(PathOf(c), c.Update?))
  }

  /** Where a session stands: `n` commands done exactly as `ExecAll` says, and
      the current one at one of its messages. */
  ghost predicate Tracks(e: Env, script: seq<Command>, local: Store, w0: Effect, t: Turn) {
    && t.cli.script == script && t.cli.local == local && t.cli.done <= |script|
    && var n := t.cli.done;
       var w := ExecFirst(e, local, script, n, w0);
       && t.cli.results == w.results
       && StoreOk(w.store)
       && if t.way.Over? then
            n == |script| && t.srv.store == w.store && t.srv.log == w.log && t.srv.requests == Asked(script, n)
          else
            && n < |script|
            && (t.cli.sent ==> Uploads(script[n]))
            && var c := script[n];
               if !t.cli.sent then
                 if t.way.ToServer? then t.srv == ServerAt(w, script, n, Serving) && t.msg == RequestOf(e, c)
                 else (t.srv, t.msg) == ServeRequest(e, ServerAt(w, script, n, Serving), KindOf(c), PayloadOf(c))
               else
                 var waiting := AwaitingBody(w, script, n);
                 if t.way.ToServer? then t.srv == waiting && t.msg == Body(e, local, PathOf(c))
                 else (t.srv, t.msg) == ServerTurn(e, waiting, Body(e, local, PathOf(c)))
  }

  // ------------------------------------------------- transfers are well framed

  lemma HeaderOf(o: Order, h: Header, rest: bytes)
    requires h.endian == Tag(o)
    ensures var s := HeaderImage(o, h) + rest;
            |s| >= HEADER_BYTES && HeaderFromImage(o, s[..HEADER_BYTES]) == h && s[HEADER_BYTES..] == rest
  {
    hide HeaderImage, HeaderFromImage;
    HeaderRoundTrip(o, h);
    assert (HeaderImage(o, h) + rest)[..HEADER_BYTES] == HeaderImage(o, h);
  }

  /** What is sent for a file is one framed message, unless its reader stops at
      the header while blocks follow. */
  lemma ServedFramed(o: Order, file: Option<bytes>, offset: u32, open: bool)
    requires file.Some? ==> IsFile(file.value)
    ensures Framed(o, Kind.Blocks(offset, open), Served(o, file, offset))
       <==> open || file.None? || offset >= |file.value|
  {
    hide HeaderImage, HeaderFromImage, Receive, Transfer.Blocks;
    var s := Served(o, file, offset);
    if file.None? {
      HeaderOf(o, Header(0, BLOCK_SIZE, Tag(o), PATH_ERROR_R), []);
      assert HeaderImage(o, Header(0, BLOCK_SIZE, Tag(o), PATH_ERROR_R)) + [] == s;
    } else if offset > |file.value| {
      HeaderOf(o, Header(0, BLOCK_SIZE, Tag(o), OFFSET_ERROR_R), []);
      assert HeaderImage(o, Header(0, BLOCK_SIZE, Tag(o), OFFSET_ERROR_R)) + [] == s;
    } else {
      var f := file.value;
      var blocks := Transfer.Blocks(o, f, offset, BlockNumber(offset));
      var h := Header(|f|, BLOCK_SIZE, Tag(o), NO_ERROR_R);
      HeaderOf(o, h, blocks);
      assert blocks + [] == blocks;
      ReceiveInvertsBlocks(o, f, offset, BlockNumber(offset), []);
      forall n | HEADER_BYTES <= n < |s|
        ensures Want(o, Kind.Blocks(offset, true), s[..n]) > 0 && (!open ==> Want(o, Kind.Blocks(offset, open), s[..n]) == 0)
      {
        assert s[..n][..HEADER_BYTES] == s[..HEADER_BYTES];
        assert s[..n][HEADER_BYTES..] == blocks[..n - HEADER_BYTES];
        ReceiveOfCut(o, f, offset, BlockNumber(offset), blocks[..n - HEADER_BYTES]);
      }
      assert !open && |s| > HEADER_BYTES ==> Want(o, Kind.Blocks(offset, open), s[..HEADER_BYTES]) == 0;
    }
  }

  lemma FixedFramed(o: Order, size: nat, msg: bytes)
    requires |msg| == size > 0
    ensures Framed(o, Fixed(size), msg)
  {
  }

  /** Reading back what was served. */
  lemma ServedResult(o: Order, file: Option<bytes>, path: bytes, offset: u32, here: Dest)
    requires file.Some? ==> IsFile(file.value)
    ensures DownloadResult(o, Served(o, file, offset), path, offset, here) == FetchResult(file, path, offset, here)
  {
    hide Prepare, HeaderImage, HeaderFromImage, Receive, Transfer.Blocks;
    var s := Served(o, file, offset);
    if file.None? {
      HeaderOf(o, Header(0, BLOCK_SIZE, Tag(o), PATH_ERROR_R), []);
      assert HeaderImage(o, Header(0, BLOCK_SIZE, Tag(o), PATH_ERROR_R)) + [] == s;
    } else if offset > |file.value| {
      HeaderOf(o, Header(0, BLOCK_SIZE, Tag(o), OFFSET_ERROR_R), []);
      assert HeaderImage(o, Header(0, BLOCK_SIZE, Tag(o), OFFSET_ERROR_R)) + [] == s;
    } else {
      var f := file.value;
      var blocks := Transfer.Blocks(o, f, offset, BlockNumber(offset));
      HeaderOf(o, Header(|f|, BLOCK_SIZE, Tag(o), NO_ERROR_R), blocks);
      assert blocks + [] == blocks;
      ReceiveInvertsBlocks(o, f, offset, BlockNumber(offset), []);
    }
  }

  /** Storing what was sent for an upload. */
  lemma BodyStored(e: Env, s: Store, file: Option<bytes>, path: bytes)
    requires file.Some? ==> IsFile(file.value)
    ensures var up := ReceiveUpload(e, s, path, Served(e.o, file, 0));
            (up.store, up.code) == (Uploaded(e, s, file, path).0, Uploaded(e, s, file, path).1 as int)
  {
    hide HeaderImage, HeaderFromImage, Receive, Transfer.Blocks, Openable, WriteKey;
    var m := Served(e.o, file, 0);
    if file.None? {
      HeaderOf(e.o, Header(0, BLOCK_SIZE, Tag(e.o), PATH_ERROR_R), []);
      assert HeaderImage(e.o, Header(0, BLOCK_SIZE, Tag(e.o), PATH_ERROR_R)) + [] == m;
    } else {
      var f := file.value;
      var blocks := Transfer.Blocks(e.o, f, 0, BlockNumber(0));
      HeaderOf(e.o, Header(|f|, BLOCK_SIZE, Tag(e.o), NO_ERROR_R), blocks);
      assert blocks + [] == blocks;
      ReceiveInvertsBlocks(e.o, f, 0, BlockNumber(0), []);
      assert f[0..] == f;
    }
  }

  // -------------------------------------------- each message does its command

  lemma DecodedAsSent(e: Env, c: Command)
    requires CommandOk(c)
    ensures RequestIn(e, RequestOf(e, c)) == (KindOf(c), PayloadOf(c))
  {
    hide DecodeRequest, RequestFromImage, RequestImage;
    var image := RequestOf(e, c);
    assert image[..REQUEST_BYTES] == image;
    RequestRoundTrip(e.o, e.o, KindOf(c), PayloadOf(c));
    assert PayloadOf(c)[..|PayloadOf(c)|] == PayloadOf(c);
  }

  lemma AnswerDecoded(e: Env, text: bytes, error: byte)
    requires IsCString(text)
    ensures AnswerIn(Reply(e, text, error)) == (Truncated(text), error)
  {
    hide DecodeResponse, ResponseImage, PathField;
    var short := Truncated(text);
    assert IsCString(short);
    TruncatedField(text);
    ResponseRoundTrip(e.o, short, error);
    var r := Reply(e, text, error);
    assert r[..RESPONSE_BYTES] == r;
  }

  lemma TruncatedField(text: bytes)
    ensures PathField(Truncated(text)) == PathField(text)
  {
  }

  lemma TextsOk(update: bool, code: byte)
    ensures IsCString(Ready(update)) && |Ready(update)| < MAXLINE
    ensures IsCString(PutText(update, code)) && |PutText(update, code)| < MAXLINE
    ensures IsCString(Ascii("BYE\n")) && IsCString(Ascii("UPDATE RM OK\n")) && IsCString(Ascii("UPDATE RM ERROR\n"))
  {
    hide Ascii;
    DecimalLength(code);
  }

  lemma RemovalTextOk(path: bytes, found: bool)
    requires IsCString(path)
    ensures IsCString(RemovalText(path, found))
  {
    hide Ascii;
  }

  lemma ExecNext(e: Env, local: Store, script: seq<Command>, n: nat, w0: Effect)
    requires n < |script|
    ensures ExecFirst(e, local, script, n + 1, w0) == Exec(e, local, Doing(script, n), ExecFirst(e, local, script, n, w0))
  {
    hide Exec;
    assert script[..n + 1][..n] == script[..n];
  }

  lemma ExecKeepsStores(e: Env, local: Store, c: Command, w: Effect)
    requires StoreOk(local) && StoreOk(w.store)
    ensures StoreOk(Exec(e, local, c, w).store)
  {
    hide ReadKey, WriteKey, CanOpen, RemovalText, PutText, Ascii;
  }

  lemma StartTracks(e: Env, script: seq<Command>, local: Store, w: Effect)
    requires SessionOk(script, local, w)
    ensures Tracks(e, script, local, w, Start(e, script, local, w))
  {
    assert script[..0] == [];
  }

  /** In a session that keeps to its guard, every message is read whole. */
  lemma TrackedFramed(e: Env, script: seq<Command>, local: Store, w0: Effect, t: Turn)
    requires SessionOk(script, local, w0) && Tracks(e, script, local, w0, t) && !t.way.Over?
    requires t.cli.sent == t.way.ToServer? == Uploads(Doing(script, t.cli.done)) ==> GuardedAt(e, local, script, w0, t.cli.done)
    ensures TurnOk(e, t)
  {
    hide Framed, Served, ExecAll, Reply, RequestOf, Ascii, ParseResumeData, ParseUpdate, ResumePayload, UpdatePayload;
    var n := t.cli.done;
    var c := script[n];
    var w := ExecFirst(e, local, script, n, w0);
    assert CommandOk(c) by { assert c in script; }
    if !t.cli.sent {
      if t.way.ToServer? {
        FixedFramed(e.o, REQUEST_BYTES, t.msg);
      } else {
        ReplyFramed(e, ServerAt(w, script, n, Serving), c, t);
      }
    } else {
      var file := ReadFile(local, e.localDir, c.path);
      ServedFramed(e.o, file, 0, Openable(e, w.store, c.path));
      if !t.way.ToServer? {
        UploadStoresOk(e, w.store, file, c.path);
        BodyStored(e, w.store, file, c.path);
        FixedFramed(e.o, RESPONSE_BYTES, t.msg);
      }
    }
  }

  lemma UploadStoresOk(e: Env, s: Store, file: Option<bytes>, path: bytes)
    requires StoreOk(s) && (file.Some? ==> IsFile(file.value))
    ensures StoreOk(Uploaded(e, s, file, path).0)
  {
    hide WriteKey, CanOpen;
  }

  /** The first reply to each guarded command is of the kind its client reads. */
  lemma ReplyFramed(e: Env, srv: Server, c: Command, t: Turn)
    requires CommandOk(c) && StoreOk(srv.store) && StoreOk(t.cli.local)
    requires !t.way.Over? && !t.way.ToServer? && t.cli.done < |t.cli.script| && Doing(t.cli.script, t.cli.done) == c
    requires (t.srv, t.msg) == ServeRequest(e, srv, KindOf(c), PayloadOf(c))
    requires Downloads(c) ==> Guarded(e, t.cli.local, c, srv.store)
    ensures TurnOk(e, t)
  {
    hide Framed, Served, Reply, Ascii, ParseResumeData, ParseUpdate, ResumePayload, UpdatePayload, ReadKey, Accepting,
         StaysInside;
    match c {
      case Get(path, here) => ServedFramed(e.o, ReadFile(srv.store, e.dir, path), 0, Accepting(path, 0, here));
      case Resume(path, k, here) =>
        ResumeReads(c);
        ServedFramed(e.o, ReadFile(srv.store, e.dir, path), k, Accepting(path, k, here));
      case Update(kind, path) =>
        UpdateRoundTrip(kind, path);
        FixedFramed(e.o, RESPONSE_BYTES, t.msg);
      case _ => FixedFramed(e.o, RESPONSE_BYTES, t.msg);
    }
  }

  lemma ResumeReads(c: Command)
    requires CommandOk(c) && c.Resume?
    ensures ParseResumeData(PayloadOf(c)) == Some((PathOf(c), c.offset))
  {
    hide ParseResumeData;
    ResumeRoundTrip(c.path, c.offset);
  }

  /** The turn that follows a completed command. */
  function Advanced(e: Env, cli: Client, srv: Server, r: Result): Turn {
    Onward(Advance(e, cli, r).0, srv, Advance(e, cli, r).1)
  }

  lemma AdvanceTracks(e: Env, script: seq<Command>, local: Store, w0: Effect, cli: Client, srv: Server, r: Result)
    requires SessionOk(script, local, w0)
    requires cli.script == script && cli.local == local && cli.done < |script|
    requires var w := ExecFirst(e, local, script, cli.done, w0);
             var w' := Exec(e, local, Doing(script, cli.done), w);
             && StoreOk(w.store) && cli.results == w.results
             && srv.store == w'.store && srv.log == w'.log && srv.requests == Asked(script, cli.done + 1)
             && w'.results == w.results + [r]
    requires cli.done + 1 < |script| ==> srv.stage == Serving
    ensures Tracks(e, script, local, w0, Advanced(e, cli, srv, r))
  {
    hide Exec, ExecAll, RequestOf, Asked;
    var n := cli.done;
    ExecNext(e, local, script, n, w0);
    ExecKeepsStores(e, local, script[n], ExecFirst(e, local, script, n, w0));
  }

  /** A request reaches the slave as it was sent. */
  lemma RequestDelivered(e: Env, script: seq<Command>, local: Store, w0: Effect, t: Turn)
    requires SessionOk(script, local, w0) && Tracks(e, script, local, w0, t)
    requires !t.way.Over? && t.way.ToServer? && !t.cli.sent
    ensures Tracks(e, script, local, w0, Deliver(e, t))
  {
    hide ServeRequest, RequestIn, RequestOf, ExecAll, Asked;
    var c := script[t.cli.done];
    assert CommandOk(c) by { assert c in script; }
    DecodedAsSent(e, c);
  }

  lemma BodyDelivered(e: Env, script: seq<Command>, local: Store, w0: Effect, t: Turn)
    requires SessionOk(script, local, w0) && Tracks(e, script, local, w0, t)
    requires !t.way.Over? && t.way.ToServer? && t.cli.sent
    ensures Tracks(e, script, local, w0, Deliver(e, t))
  {
    hide ServerTurn, Body, ExecAll, Asked;
  }

  /** The reply to a download or a removal completes the command. */
  lemma ReplyDelivered(e: Env, script: seq<Command>, local: Store, w0: Effect, t: Turn)
    requires SessionOk(script, local, w0) && Tracks(e, script, local, w0, t) && TurnOk(e, t)
    requires !t.way.Over? && !t.way.ToServer? && !t.cli.sent && !Uploads(Doing(script, t.cli.done))
    ensures Tracks(e, script, local, w0, Deliver(e, t))
  {
    hide Framed, Served, Reply, Ascii, ParseResumeData, ParseUpdate, ResumePayload, UpdatePayload, ReadKey, StaysInside,
         AnswerIn, DownloadResult, ExecAll, RequestOf, Tracks;
    var n := t.cli.done;
    TracksReply(e, script, local, w0, t);
    var c := script[n];
    var w := ExecFirst(e, local, script, n, w0);
    assert CommandOk(c) by { assert c in script; }
    TextsOk(c.Update?, 0);
    var r := LastResult(Exec(e, local, c, w));
    match c {
      case Get(path, here) => ServedResult(e.o, ReadFile(w.store, e.dir, path), path, 0, here);
      case Resume(path, k, here) =>
        ResumeReads(c);
        ServedResult(e.o, ReadFile(w.store, e.dir, path), path, k, here);
      case Rm(path) =>
        var found := ReadFile(w.store, e.dir, path).Some?;
        RemovalTextOk(path, found);
        AnswerDecoded(e, RemovalText(path, found), NO_ERROR_R);
      case Update(kind, path) =>
        UpdateRoundTrip(kind, path);
        var found := ReadFile(w.store, e.dir, path).Some?;
        UpdateTexts(e, found);
      case Bye => ByeText(e);
      case Put(_) =>
    }
    AdvanceTracks(e, script, local, w0, t.cli, t.srv, r);
  }

  lemma UpdateTexts(e: Env, found: bool)
    ensures var text := if found then Ascii("UPDATE RM OK\n") else Ascii("UPDATE RM ERROR\n");
            var error := if found then NO_ERROR_R else PATH_ERROR_R;
            AnswerIn(Reply(e, text, error)) == (text, error)
  {
    hide Ascii, Reply, AnswerIn;
    var text := if found then Ascii("UPDATE RM OK\n") else Ascii("UPDATE RM ERROR\n");
    AnswerDecoded(e, text, if found then NO_ERROR_R else PATH_ERROR_R);
    ShortText(text);
  }

  lemma ByeText(e: Env)
    ensures AnswerIn(Reply(e, Ascii("BYE\n"), NO_ERROR_R)) == (Ascii("BYE\n"), NO_ERROR_R)
  {
    hide Ascii, Reply, AnswerIn;
    AnswerDecoded(e, Ascii("BYE\n"), NO_ERROR_R);
    ShortText(Ascii("BYE\n"));
  }

  lemma ShortText(text: bytes)
    requires |text| < MAXLINE
    ensures Truncated(text) == text
  {
  }

  lemma TracksReply(e: Env, script: seq<Command>, local: Store, w0: Effect, t: Turn)
    requires SessionOk(script, local, w0) && Tracks(e, script, local, w0, t)
    requires !t.way.Over? && !t.way.ToServer? && !t.cli.sent
    ensures t.cli.script == script && t.cli.local == local && t.cli.done < |script|
    ensures var n := t.cli.done;
            var w := ExecFirst(e, local, script, n, w0);
            && t.cli.results == w.results && StoreOk(w.store)
            && (t.srv, t.msg) == ServeRequest(e, ServerAt(w, script, n, Serving), KindOf(Doing(script, n)), PayloadOf(Doing(script, n)))
  {
    hide ServeRequest, ExecAll;
  }

  /** The reply to an upload's request asks for its body. */
  lemma ReadyDelivered(e: Env, script: seq<Command>, local: Store, w0: Effect, t: Turn)
    requires SessionOk(script, local, w0) && Tracks(e, script, local, w0, t) && TurnOk(e, t)
    requires !t.way.Over? && !t.way.ToServer? && !t.cli.sent && Uploads(Doing(script, t.cli.done))
    ensures Tracks(e, script, local, w0, Deliver(e, t))
    ensures var t' := Deliver(e, t); !t'.way.Over? && t'.way.ToServer? && t'.cli.sent && t'.cli.done == t.cli.done
  {
    hide Framed, Served, Reply, Ready, ParseUpdate, UpdatePayload, AnswerIn, ExecAll, RequestOf, Body;
    var n := t.cli.done;
    var c := script[n];
    TextsOk(c.Update?, 0);
    ShortText(Ready(c.Update?));
    AnswerDecoded(e, Ready(c.Update?), NO_ERROR_R);
    if c.Update? {
      UpdateRoundTrip(c.kind, c.path);
    }
  }

  lemma TracksSent(e: Env, script: seq<Command>, local: Store, w0: Effect, t: Turn)
    requires SessionOk(script, local, w0) && Tracks(e, script, local, w0, t)
    requires !t.way.Over? && !t.way.ToServer? && t.cli.sent
    ensures t.cli.script == script && t.cli.local == local && t.cli.done < |script|
    ensures var n := t.cli.done;
            var w := ExecFirst(e, local, script, n, w0);
            && t.cli.results == w.results && StoreOk(w.store) && Uploads(Doing(script, n))
            && (t.srv, t.msg) == ServerTurn(e, AwaitingBody(w, script, n), Body(e, local, PathOf(Doing(script, n))))
  {
    hide ServerTurn, ExecAll, Body;
  }

  /** What the slave makes of an upload's body. */
  lemma BodyAnswered(e: Env, local: Store, w: Effect, script: seq<Command>, n: nat)
    requires n < |script| && Uploads(Doing(script, n)) && StoreOk(local) && StoreOk(w.store)
    ensures var c := Doing(script, n);
            var (store, code) := Uploaded(e, w.store, ReadFile(local, e.localDir, PathOf(c)), PathOf(c));
            var waiting := AwaitingBody(w, script, n);
            ServerTurn(e, waiting, Body(e, local, PathOf(c)))
              == (waiting.(store := store, stage := Serving), Reply(e, PutText(c.Update?, code), code))
  {
    hide Served, Reply, PutText, Asked, ReceiveUpload, Uploaded, ReadKey;
    var c := script[n];
    BodyStored(e, w.store, ReadFile(local, e.localDir, c.path), c.path);
  }

  /** What an upload does, for both kinds of it. */
  lemma UploadEffect(e: Env, local: Store, c: Command, w: Effect)
    requires Uploads(c)
    ensures var (store, code) := Uploaded(e, w.store, ReadFile(local, e.localDir, PathOf(c)), PathOf(c));
            Exec(e, local, c, w) == Effect(store, if c.Put? then w.log + [(PUT, PathOf(c))] else w.log,
                                           w.results + [Answered(PutText(c.Update?, code), code)])
  {
    hide PutText, Uploaded, ReadKey;
  }

  /** The answer to an upload's body ends the command, whatever it says. */
  lemma AnswerAdvances(e: Env, t: Turn, text: bytes, error: byte)
    requires !t.way.Over? && !t.way.ToServer? && t.cli.sent && t.cli.done < |t.cli.script| && Uploads(Doing(t.cli.script, t.cli.done))
    requires StoreOk(t.cli.local) && StoreOk(t.srv.store) && |t.msg| == RESPONSE_BYTES
    requires AnswerIn(t.msg) == (text, error)
    ensures Deliver(e, t) == Advanced(e, t.cli, t.srv, Answered(text, error))
  {
    hide AnswerIn, Body, Ready, RequestOf, StoreOk;
  }

  /** The reply to a body completes the upload. */
  lemma UploadDelivered(e: Env, script: seq<Command>, local: Store, w0: Effect, t: Turn)
    requires SessionOk(script, local, w0) && Tracks(e, script, local, w0, t) && TurnOk(e, t)
    requires !t.way.Over? && !t.way.ToServer? && t.cli.sent
    ensures Tracks(e, script, local, w0, Deliver(e, t))
  {
    hide Framed, TurnOk, Served, Reply, PutText, AnswerIn, ExecAll, Exec, Asked, RequestOf, Uploaded, Tracks, ReadKey,
         ServerTurn, Body, Deliver, Advanced;
    TracksSent(e, script, local, w0, t);
    var n := t.cli.done;
    var c := script[n];
    var w := ExecFirst(e, local, script, n, w0);
    BodyAnswered(e, local, w, script, n);
    UploadEffect(e, local, c, w);
    UploadStoresOk(e, w.store, ReadFile(local, e.localDir, c.path), c.path);
    var code := Uploaded(e, w.store, ReadFile(local, e.localDir, c.path), c.path).1;
    var text := PutText(c.Update?, code);
    TextsOk(c.Update?, code);
    ShortText(text);
    AnswerDecoded(e, text, code);
    AnswerAdvances(e, t, text, code);
    AdvanceTracks(e, script, local, w0, t.cli, t.srv, Answered(text, code));
  }

  /** Delivering messages one after the other performs the commands one after
      the other, each as a whole. */
  lemma DeliverTracks(e: Env, script: seq<Command>, local: Store, w0: Effect, t: Turn)
    requires SessionOk(script, local, w0) && Tracks(e, script, local, w0, t) && TurnOk(e, t)
    ensures Tracks(e, script, local, w0, Deliver(e, t))
  {
    assert !t.way.Over? && t.cli.script == script && t.cli.done < |script|;
    hide Tracks, TurnOk, Deliver;
    if t.way.ToServer? {
      if t.cli.sent {
        BodyDelivered(e, script, local, w0, t);
      } else {
        RequestDelivered(e, script, local, w0, t);
      }
    } else if t.cli.sent {
      UploadDelivered(e, script, local, w0, t);
    } else if Uploads(script[t.cli.done]) {
      ReadyDelivered(e, script, local, w0, t);
    } else {
      ReplyDelivered(e, script, local, w0, t);
    }
  }
}
