/**
 Resumable download as a state machine: one step per side effect on the
 client's disk, with crashes, restarts, lost connections, refusals and local
 I/O failures between any two of them. `DownloadClient` shows that the
 client's code only takes these steps.

 A process has one connection. A session that stops early leaves what it has
 not read on it, and the next session takes that for its own answer.

 One remote path is followed. The server's file does not change.
 */
module Download {
  import opened Bytes
  import opened Text
  import opened Wire
  import opened Transfer
  import opened Names
  import Paths
  import Rio

  /** Whether the directories above the partial files are there, can be made,
      or cannot because a regular file stands above the last of them; or the
      last of them is itself a regular file, which `ensure_parent_dirs` takes
      for a directory that is there already. */
  datatype Above = Present | Missing | Blocked | ParentIsFile

  /** What does not change: the byte order of both hosts, the server's file,
      its remote path, what the final local path held before the first
      download, what is found above it, and the directory the client runs in. */
  datatype Setting = World(o: Order, f: bytes, remote: bytes, before: Option<bytes>, above: Above, home: Paths.Key)

  /** A file below 4 GiB, under a path whose derived names fit. */
  type World = w: Setting | IsFile(w.f) && WellNamed(w.remote)
    ghost witness World(Little, [], [97], None, Present, [])

  /** The partial files have a directory to be in, or one can be made. */
  predicate Placeable(w: World) {
    w.above.Present? || w.above.Missing?
  }

  /** Whether the directories above are made; the final file, `.part`,
      `.part.meta` and `.part.meta.tmp`. */
  datatype Disk = Disk(dirs: bool, final: Option<bytes>, part: Option<bytes>, meta: Option<bytes>, tmp: Option<bytes>)

  /** Where the client is. `k` is the start offset of the session, `n` what it
      counts as received, `data` the block that has arrived and `j` how much of
      it is written. */
  datatype Pc =
    | Down
    | Idle
    | Await(k: u32)
    | MakeDirs(k: u32)
    | OpenPart(k: u32)
    | Opened(k: u32)
    | MetaOpen(k: u32, n: u32)
    | MetaPrint(k: u32, n: u32)
    | MetaRename(k: u32, n: u32)
    | Recv(k: u32, n: u32)
    | Writing(k: u32, n: u32, data: bytes, j: nat)
    | Finalized
    | Purge
    | PurgeMeta
  {
    /** The start offset of the session under way, 0 when it has none. */
    function Start(): u32 {
      match this
      case Await(k) => k
      case MakeDirs(k) => k
      case OpenPart(k) => k
      case Opened(k) => k
      case MetaOpen(k, _) => k
      case MetaPrint(k, _) => k
      case MetaRename(k, _) => k
      case Recv(k, _) => k
      case Writing(k, _, _, _) => k
      case _ => 0
    }

    /** What the session counts as received. */
    function Count(): u32 {
      match this
      case MetaOpen(_, n) => n
      case MetaPrint(_, n) => n
      case MetaRename(_, n) => n
      case Recv(_, n) => n
      case Writing(_, n, _, _) => n
      case _ => 0
    }
  }

  /** The connection of the process: the bytes on it that no session has been
      given, how many of them the current session's reader holds in its buffer,
      and whether the slave's answers still arrive. */
  datatype Line = Line(unread: bytes, held: nat, live: bool)

  const NEW_LINE: Line := Line([], 0, true)
  const DEAD_LINE: Line := Line([], 0, false)

  /** How a request is answered: an error the slave refuses with (0 for none),
      and after how many bytes of the answer the connection ends, if it does. */
  datatype Answer = Answer(refusal: byte, cut: Option<nat>)

  const FULL: Answer := Answer(NO_ERROR_R, None)

  /** Bookkeeping over all sessions: bytes written to `.part`, bytes cut off it
      by `ftruncate`, bytes lost with it by `unlink`, bytes renamed into place,
      completed renames, interruptions of a running session, and whether a
      cleanup has ever removed `.part` before `.part.meta`. */
  datatype Tally = Tally(written: nat, truncated: nat, unlinked: nat, finished: nat,
                         completions: nat, interruptions: nat, cleanup: bool)

  /** `total` is the size the session's header announced. */
  datatype State = State(pc: Pc, disk: Disk, tally: Tally, line: Line, total: u32)

  datatype Event =
    | Crash
    | Restart
    | Get(answer: Answer)
    | AutoResume(answer: Answer)
    | Other(line: Line)     // a command for another path uses the connection
    | Header(held: nat)     // the header is read, or the connection ends first
    | Block(held: nat)      // the same for a block
    | Fail                  // the next local side effect fails
    | Go                    // the next step of the code is taken
    | Put(c: nat)           // the next `write` takes `c` bytes

  function Len(file: Option<bytes>): nat {
    if file.Some? then |file.value| else 0
  }

  /** `maybe_get_resume_offset`: 0 unless the meta file names this path and
      `.part` is at least as long as the offset it records. */
  function ResumeOffset(w: World, d: Disk): u32 {
    if d.meta.None? then 0
    else
      match ParseMeta(d.meta.value)
      case None => 0
      case Some((path, k)) =>
        if path != w.remote || k == 0 || d.part.None? || |d.part.value| % U32_LIMIT < k then 0 else k
  }

  /** The offset `auto_resume_downloads` resumes from; 0 when it removes the
      meta file instead. */
  function ScannedOffset(d: Disk): u32 {
    if d.meta.None? then 0
    else
      match ParseMeta(d.meta.value)
      case None => 0
      case Some((_, k)) => k
  }

  function Interrupted(t: Tally): Tally {
    t.(interruptions := t.interruptions + 1)
  }

  /** The end of a session: its reader goes, with what its buffer holds. */
  function Left(line: Line): Line {
    Line(line.unread[Min(line.held, |line.unread|)..], 0, line.live)
  }

  function Stopped(s: State, pc: Pc): State {
    s.(pc := pc, tally := Interrupted(s.tally), line := Left(s.line))
  }

  predicate Active(pc: Pc) {
    !pc.Down? && !pc.Idle?
  }

  /** A session that returns 1 is followed by `remove_partial_files` when it
      was resumed: 1 is PATH_ERROR_R, but also what every local failure and a
      missing header return. */
  function AfterOne(k: nat): Pc {
    if k > 0 then Purge else Idle
  }

  function AfterError(k: nat, error: byte): Pc {
    if error == PATH_ERROR_R then AfterOne(k) else Idle
  }

  // -------------------------------------------------------------- the machine

  /** What the slave sends for a request from an offset. */
  function Whole(w: World, k: u32, refusal: byte): bytes
  {
    if refusal != NO_ERROR_R then ErrorHeader(w.o, refusal) else Served(w.o, Some(w.f), k)
  }

  /** The bytes of an answer that arrive. */
  function Arriving(w: World, k: u32, a: Answer): bytes {
    var whole := Whole(w, k, a.refusal);
    match a.cut
    case None => whole
    case Some(n) => whole[..Min(n, |whole|)]
  }

  /** The connection once an answer is on its way. */
  function Answered(w: World, line: Line, k: u32, a: Answer): Line {
    if line.live then Line(line.unread + Arriving(w, k, a), 0, a.cut.None?) else line
  }

  function Asked(w: World, s: State, k: u32, a: Answer): State
  {
    s.(pc := Await(k), line := Answered(w, s.line, k, a))
  }

  /** The connection after `n` bytes of it have been handed out; `held` of the
      rest are in the reader's buffer. */
  function Taken(line: Line, n: nat, held: nat): Option<Line>
    requires n <= |line.unread|
  {
    var rest := line.unread[n..];
    if held <= |rest| && held < Rio.RIO_BUFSIZE then Some(Line(rest, held, line.live)) else None
  }

  /** The state after an event, or None when the event cannot happen. */
  function Next(w: World, s: State, e: Event): Option<State>
  {
    var d := s.disk;
    match e
    case Crash =>
      if s.pc.Down? then None
      else Some(State(Down, d, if Active(s.pc) then Interrupted(s.tally) else s.tally, DEAD_LINE, s.total))
    case Restart => if s.pc.Down? then Some(s.(pc := Idle, line := NEW_LINE)) else None
    case Get(a) => if s.pc.Idle? then Some(Asked(w, s, ResumeOffset(w, d), a)) else None
    case AutoResume(a) =>
      if !s.pc.Idle? || d.meta.None? || !Listed(w.home, w.remote) then None
      else if ScannedOffset(d) == 0 then Some(s.(disk := d.(meta := None)))
      else Some(Asked(w, s, ScannedOffset(d), a))
    case Other(line) =>
      if s.pc.Idle? && (s.line.live || Drains(s.line.unread, line.unread))
      then Some(s.(line := Line(line.unread, 0, s.line.live && line.live))) else None
    case Header(held) => HeaderStep(w, s, held)
    case Block(held) => BlockStep(w, s, held)
    case Fail => FailStep(w, s)
    case Go => GoStep(w, s)
    case Put(c) => PutStep(w, s, c)
  }

  /** What is left of a connection on which nothing more arrives. */
  predicate Drains(before: bytes, after: bytes) {
    |after| <= |before| && after == before[|before| - |after|..]
  }

  /** `receive_transfer_header` and the two checks after it. A reader that
      finds too little waits until the connection ends. */
  function HeaderStep(w: World, s: State, held: nat): Option<State> {
    if !s.pc.Await? then None
    else if |s.line.unread| < HEADER_BYTES then Some(Stopped(s.(line := DEAD_LINE), AfterOne(s.pc.k)))
    else
      var h := HeaderFromImage(w.o, s.line.unread[..HEADER_BYTES]);
      match Taken(s.line, HEADER_BYTES, held)
      case None => None
      case Some(line) =>
        var s' := s.(line := line);
        if h.error != NO_ERROR_R then Some(Stopped(s', AfterError(s.pc.k, h.error)))
        else if s.pc.k > h.total then Some(Stopped(s', Idle))
        else Some(s'.(pc := MakeDirs(s.pc.k), total := h.total))
  }

  /** `receive_data_block` and the checks after it; the count is a 32-bit
      number. */
  function BlockStep(w: World, s: State, held: nat): Option<State> {
    if !s.pc.Recv? || s.pc.n >= s.total then None
    else if |s.line.unread| < BLOCK_BYTES then Some(Stopped(s.(line := DEAD_LINE), Idle))
    else
      var b := BlockFromImage(w.o, s.line.unread[..BLOCK_BYTES]);
      match Taken(s.line, BLOCK_BYTES, held)
      case None => None
      case Some(line) =>
        var s' := s.(line := line);
        if b.size > BLOCK_SIZE || Count(s.pc.n, b.size) > s.total then Some(Stopped(s', Idle))
        else if b.size == 0 then Some(s'.(pc := MetaOpen(s.pc.k, s.pc.n)))
        else Some(s'.(pc := Writing(s.pc.k, s.pc.n, b.data[..b.size], 0)))
  }

  function Count(n: u32, size: nat): u32 {
    (n + size) % U32_LIMIT
  }

  /** A failed `open` of `.part` ends the process, like a crash. */
  function FailStep(w: World, s: State): Option<State> {
    var d := s.disk;
    match s.pc
    case MakeDirs(k) => Some(Stopped(s, AfterOne(k)))                     // mkdir
    case Opened(k) => Some(Stopped(s, AfterOne(k)))                       // ftruncate
    case MetaOpen(k, _) => Some(Stopped(s, AfterOne(k)))                  // fopen
    case MetaPrint(k, _) => Some(Stopped(s, AfterOne(k)).(disk := d.(tmp := None)))
    case MetaRename(k, _) => Some(Stopped(s, AfterOne(k)).(disk := d.(tmp := None)))
    case Recv(k, n) => if n < s.total then None else Some(Stopped(s, AfterOne(k))) // rename
    case Writing(k, _, _, _) => Some(Stopped(s, AfterOne(k)))
    case Finalized => Some(s.(pc := Idle, line := Left(s.line)))          // unlink, result ignored
    case _ => None
  }

  function GoStep(w: World, s: State): Option<State> {
    var d := s.disk;
    var t := s.tally;
    match s.pc
    case MakeDirs(k) =>
      if w.above.Blocked? then Some(Stopped(s, AfterOne(k)))
      else Some(s.(pc := OpenPart(k), disk := d.(dirs := Placeable(w))))
    case OpenPart(k) =>
      if w.above.ParentIsFile? then None // the failed `open` ends the process
      else Some(s.(pc := Opened(k), disk := d.(part := if d.part.None? then Some([]) else d.part)))
    case Opened(k) =>
      if d.part.None? || |d.part.value| % U32_LIMIT < k then Some(Stopped(s, Idle))
      else Some(s.(pc := MetaOpen(k, k), disk := d.(part := Some(d.part.value[..k])),
                   tally := t.(truncated := t.truncated + |d.part.value| - k)))
    case MetaOpen(k, n) => Some(s.(pc := MetaPrint(k, n), disk := d.(tmp := Some([]))))
    case MetaRename(k, n) => Some(s.(pc := Recv(k, n), disk := d.(meta := d.tmp, tmp := None)))
    case Recv(k, n) =>
      if n < s.total then None
      else Some(s.(pc := Finalized, disk := d.(final := d.part, part := None),
                   tally := t.(finished := t.finished + Len(d.part), completions := t.completions + 1)))
    case Finalized => Some(s.(pc := Idle, disk := d.(meta := None), line := Left(s.line)))
    case Purge => Some(s.(pc := PurgeMeta, disk := d.(part := None),
                          tally := t.(unlinked := t.unlinked + Len(d.part), cleanup := true)))
    case PurgeMeta => Some(s.(pc := Idle, disk := d.(meta := None)))
    case _ => None
  }

  /** A `write` of `c` bytes: of the block being received, or of the text of
      the new meta file. The last one moves on. */
  function PutStep(w: World, s: State, c: nat): Option<State> {
    var d := s.disk;
    var t := s.tally;
    match s.pc
    case MetaPrint(k, n) =>
      if d.tmp.None? then None
      else
        var text := MetaText(w.remote, n);
        var from := |d.tmp.value|;
        if c == 0 || from + c > |text| then None
        else Some(s.(pc := if from + c == |text| then MetaRename(k, n) else s.pc,
                     disk := d.(tmp := Some(d.tmp.value + text[from..from + c]))))
    case Writing(k, n, data, j) =>
      if d.part.None? || c == 0 || j + c > |data| then None
      else Some(s.(pc := if j + c == |data| then MetaOpen(k, Count(n, |data|)) else Writing(k, n, data, j + c),
                   disk := d.(part := Some(d.part.value + data[j..j + c])),
                   tally := t.(written := t.written + c)))
    case _ => None
  }

  /** The state after a sequence of events. */
  function Run(w: World, s: State, events: seq<Event>): Option<State>
  {
    if events == [] then Some(s)
    else
      match Run(w, s, events[..|events| - 1])
      case None => None
      case Some(r) => Next(w, r, events[|events| - 1])
  }

  const NO_TALLY: Tally := Tally(0, 0, 0, 0, 0, 0, false)

  /** A client that has never downloaded this path. */
  function Fresh(w: World): State {
    State(Down, Disk(w.above.Present?, w.before, None, None, None), NO_TALLY, DEAD_LINE, 0)
  }

  /** The event starts a session. */
  predicate Starts(s: State, e: Event) {
    s.pc.Idle? && (e.Get? || (e.AutoResume? && s.disk.meta.Some? && ScannedOffset(s.disk) > 0))
  }

  /** A session about to start finds the connection empty. */
  predicate StartsClean(s: State, e: Event) {
    Starts(s, e) ==> s.line.unread == []
  }

  /** No session is started on a connection that still carries something. */
  ghost predicate Guarded(w: World, s: State, events: seq<Event>)
  {
    events == [] ||
    var init := events[..|events| - 1];
    && Guarded(w, s, init)
    && (Run(w, s, init).Some? ==> StartsClean(Run(w, s, init).value, events[|events| - 1]))
  }

  // -------------------------------------------------------------- invariants

  /** The meta file is read as a record of this path and `k`. */
  ghost predicate Recorded(w: World, d: Disk, k: nat) {
    d.meta.Some? && ParseMeta(d.meta.value) == Some((w.remote, k))
  }

  /** `.part` holds at least what is recorded, and at most one block more. */
  ghost predicate Covered(d: Disk, k: nat) {
    d.part.Some? && k <= |d.part.value| <= k + BLOCK_SIZE
  }

  /** The meta file has outlived `.part`: the rename into place was not
      followed by its removal, or a cleanup was cut between its two removals. */
  ghost predicate Orphan(w: World, d: Disk, t: Tally, k: nat) {
    Len(d.part) == 0 && ((k == |w.f| && d.final == Some(w.f)) || t.cleanup)
  }

  ghost predicate MetaOk(w: World, d: Disk, t: Tally) {
    var k := ScannedOffset(d);
    if d.meta.None? then Len(d.part) <= BLOCK_SIZE
    else Recorded(w, d, k) && Boundary(w.f, k) && (Covered(d, k) || Orphan(w, d, t, k))
  }

  ghost predicate Safe(w: World, d: Disk) {
    && (d.part.Some? ==> d.part.value <= w.f)
    && (d.final == w.before || d.final == Some(w.f))
  }

  /** A session from 0 starts only when no long `.part` is recorded. */
  ghost predicate NothingToKeep(w: World, d: Disk) {
    d.meta.None? || Recorded(w, d, 0) || Len(d.part) == 0
  }

  ghost predicate StartOk(w: World, d: Disk, k: nat) {
    Boundary(w.f, k) && if k == 0 then NothingToKeep(w, d) else Recorded(w, d, k)
  }

  ghost predicate PcOk(w: World, s: State)
  {
    var d := s.disk;
    match s.pc
    case Await(k) => StartOk(w, d, k)
    case MakeDirs(k) => StartOk(w, d, k)
    case OpenPart(k) => StartOk(w, d, k)
    case Opened(k) => StartOk(w, d, k) && d.part.Some?
    case MetaOpen(k, n) => Boundary(w.f, n) && d.part == Some(w.f[..n])
    case MetaPrint(k, n) =>
      Boundary(w.f, n) && d.part == Some(w.f[..n]) && d.tmp.Some? && d.tmp.value < MetaText(w.remote, n)
    case MetaRename(k, n) =>
      Boundary(w.f, n) && d.part == Some(w.f[..n]) && d.tmp == Some(MetaText(w.remote, n))
    case Recv(k, n) => Boundary(w.f, n) && d.part == Some(w.f[..n]) && Recorded(w, d, n)
    case Writing(k, n, data, j) =>
      && n < |w.f| && Boundary(w.f, n) && data == w.f[n..BlockEnd(w.f, n)] && j < |data|
      && d.part == Some(w.f[..n + j]) && Recorded(w, d, n)
    case Finalized => d.final == Some(w.f) && d.part.None? && Recorded(w, d, |w.f|)
    case PurgeMeta => d.part.None? && s.tally.cleanup
    case _ => true
  }

  /** The answer to the session's own request, or the beginning of it: the
      file, or a header with an error and nothing after it. */
  ghost predicate Own(w: World, k: u32, unread: bytes)
  {
    || unread <= Served(w.o, Some(w.f), k)
    || |unread| < HEADER_BYTES
    || (|unread| == HEADER_BYTES && HeaderFromImage(w.o, unread).error != NO_ERROR_R)
  }

  /** The file's blocks from `n` on, or the beginning of them. */
  ghost predicate Coming(w: World, n: nat, unread: bytes) {
    n <= |w.f| && unread <= Blocks(w.o, w.f, n, BlockNumber(n))
  }

  /** What a session is about to read is meant for it. */
  ghost predicate Fed(w: World, s: State)
  {
    match s.pc
    case Await(k) => Own(w, k, s.line.unread)
    case MakeDirs(k) => s.total == |w.f| && Coming(w, k, s.line.unread)
    case OpenPart(k) => s.total == |w.f| && Coming(w, k, s.line.unread)
    case Opened(k) => s.total == |w.f| && Coming(w, k, s.line.unread)
    case MetaOpen(_, n) => s.total == |w.f| && Coming(w, n, s.line.unread)
    case MetaPrint(_, n) => s.total == |w.f| && Coming(w, n, s.line.unread)
    case MetaRename(_, n) => s.total == |w.f| && Coming(w, n, s.line.unread)
    case Recv(_, n) => s.total == |w.f| && Coming(w, n, s.line.unread)
    case Writing(_, n, data, _) => s.total == |w.f| && Coming(w, n + |data|, s.line.unread)
    case Finalized => s.line.unread == []
    case _ => true
  }

  /** Bytes a truncation at the recorded offset would discard. */
  function Slack(d: Disk): nat {
    if d.meta.None? then Len(d.part)
    else if Len(d.part) < ScannedOffset(d) then 0
    else Len(d.part) - ScannedOffset(d)
  }

  predicate Settled(pc: Pc) {
    pc.Down? || pc.Idle? || pc.Await? || pc.MakeDirs? || pc.OpenPart? || pc.Opened? || pc.Purge? || pc.PurgeMeta?
  }

  ghost predicate TallyOk(w: World, s: State) {
    var t := s.tally;
    && t.written == Len(s.disk.part) + t.truncated + t.unlinked + t.finished
    && t.finished == t.completions * |w.f|
    && (t.completions > 0 ==> s.disk.final == Some(w.f))
    && t.truncated + (if Settled(s.pc) then Slack(s.disk) else 0) <= BLOCK_SIZE * t.interruptions
  }

  ghost predicate Inv(w: World, s: State)
  {
    Safe(w, s.disk) && MetaOk(w, s.disk, s.tally) && PcOk(w, s) && TallyOk(w, s) && Fed(w, s)
  }

  /** The text of a meta file is read back. */
  lemma ReadsBack(w: World, k: u32)
    ensures ParseMeta(MetaText(w.remote, k)) == Some((w.remote, k))
  {
    MetaRoundTrip(w.remote, k);
  }

  lemma FreshOk(w: World)
    ensures Inv(w, Fresh(w))
  {
    hide Served, ErrorHeader;
  }

  /** Ending a session early, with the disk as it is. */
  lemma StopKeeps(w: World, s: State, line: Line, pc: Pc)
    requires Inv(w, s) && (pc.Down? || pc.Idle? || pc.Purge?)
    ensures var s' := s.(pc := pc, tally := Interrupted(s.tally), line := line);
            Inv(w, s') && Inv(w, s'.(disk := s.disk.(tmp := None)))
  {
    hide ParseMeta, MetaText, Served, ErrorHeader, Blocks, Own, Coming;
    assert Slack(s.disk) <= BLOCK_SIZE;
  }

  // -------------------------------------------------------- what is read

  lemma OwnHeader(w: World, k: u32, u: bytes)
    requires Own(w, k, u) && k <= |w.f| && |u| >= HEADER_BYTES
    ensures var h := HeaderFromImage(w.o, u[..HEADER_BYTES]);
            if h.error == NO_ERROR_R then h.total == |w.f| && Coming(w, k, u[HEADER_BYTES..])
            else u[HEADER_BYTES..] == []
  {
    hide HeaderImage, HeaderFromImage, Blocks;
    if u <= Served(w.o, Some(w.f), k) {
      var h := Wire.Header(|w.f|, BLOCK_SIZE, Tag(w.o), NO_ERROR_R);
      var all := Served(w.o, Some(w.f), k);
      HeaderRoundTrip(w.o, h);
      PrefixSplits(u, all, HEADER_BYTES);
      assert all[..HEADER_BYTES] == HeaderImage(w.o, h);
      assert all[HEADER_BYTES..] == Blocks(w.o, w.f, k, BlockNumber(k));
    } else {
      assert u[..HEADER_BYTES] == u;
    }
  }

  /** The next block of an honest stream that was cut somewhere. */
  lemma OwnBlock(w: World, n: nat, u: bytes)
    requires Coming(w, n, u) && Boundary(w.f, n) && n < |w.f| && |u| >= BLOCK_BYTES
    ensures var e := BlockEnd(w.f, n);
            var b := BlockFromImage(w.o, u[..BLOCK_BYTES]);
            && 0 < b.size == e - n <= BLOCK_SIZE && b.data[..b.size] == w.f[n..e] && Count(n, b.size) == e
            && Coming(w, e, u[BLOCK_BYTES..])
  {
    hide Blocks, BlockFromImage, MakeBlock;
    var e := BlockEnd(w.f, n);
    var num := BlockNumber(n);
    var all := Blocks(w.o, w.f, n, num);
    BlockFirst(w.o, w.f, n, num);
    PrefixSplits(u, all, BLOCK_BYTES);
    BlockFields(num, w.f[n..e]);
    NextNumber(w, n);
  }

  lemma NextNumber(w: World, n: nat)
    requires Boundary(w.f, n) && n < |w.f|
    ensures var e := BlockEnd(w.f, n);
            Boundary(w.f, e)
            && Blocks(w.o, w.f, e, (BlockNumber(n) + 1) % U16_LIMIT) == Blocks(w.o, w.f, e, BlockNumber(e))
  {
    hide BlockImage, MakeBlock;
    var e := BlockEnd(w.f, n);
    if e < |w.f| {
      OneBlockOn(n, e);
    }
  }

  /** The first block of a stream, and what follows it. */
  lemma BlockFirst(o: Order, f: bytes, n: nat, num: u16)
    requires n < |f|
    ensures var u := Blocks(o, f, n, num);
            && |u| >= BLOCK_BYTES
            && BlockFromImage(o, u[..BLOCK_BYTES]) == MakeBlock(num, f[n..BlockEnd(f, n)])
            && u[BLOCK_BYTES..] == Blocks(o, f, BlockEnd(f, n), (num + 1) % U16_LIMIT)
  {
    hide Blocks, BlockFromImage, MakeBlock;
    var all, rest := Blocks(o, f, n, num), Blocks(o, f, BlockEnd(f, n), (num + 1) % U16_LIMIT);
    FirstBlock(o, f, n, num, []);
    assert all + [] == all && rest + [] == rest;
  }

  /** The next block of the whole stream, and the stream after it. */
  lemma NextBlock(w: World, n: nat)
    requires Boundary(w.f, n) && n < |w.f|
    ensures var u := Blocks(w.o, w.f, n, BlockNumber(n));
            var e := BlockEnd(w.f, n);
            && Boundary(w.f, e) && |u| >= BLOCK_BYTES
            && BlockFromImage(w.o, u[..BLOCK_BYTES]).size == e - n
            && u[BLOCK_BYTES..] == Blocks(w.o, w.f, e, BlockNumber(e))
  {
    hide Blocks, BlockFromImage, MakeBlock;
    BlockFirst(w.o, w.f, n, BlockNumber(n));
    BlockFields(BlockNumber(n), w.f[n..BlockEnd(w.f, n)]);
    NextNumber(w, n);
  }

  /** On an empty connection a session reads what is sent for it. */
  lemma AnswerIsOwn(w: World, line: Line, k: u32, a: Answer)
    requires line.unread == []
    ensures Own(w, k, Answered(w, line, k, a).unread)
  {
    hide Served, ErrorHeader, HeaderFromImage;
    var whole := Whole(w, k, a.refusal);
    assert [] + whole == whole;
    if a.refusal != NO_ERROR_R {
      RefusalRead(w.o, a.refusal);
      assert whole[..HEADER_BYTES] == whole;
    }
  }

  lemma RefusalRead(o: Order, error: byte)
    ensures HeaderFromImage(o, ErrorHeader(o, error)).error == error
  {
    HeaderRoundTrip(o, Wire.Header(0, BLOCK_SIZE, Tag(o), error));
  }

  // --------------------------------------------------------- every step keeps

  lemma GetKeeps(w: World, s: State, a: Answer)
    requires Inv(w, s) && s.pc.Idle? && s.line.unread == []
    ensures Inv(w, Asked(w, s, ResumeOffset(w, s.disk), a))
  {
    hide MetaText, ParseMeta, Own, Answered;
    AnswerIsOwn(w, s.line, ResumeOffset(w, s.disk), a);
  }

  /** A `get` resumes from inside the file and inside `.part`. */
  lemma ResumeInside(w: World, s: State)
    requires Inv(w, s)
    ensures ResumeOffset(w, s.disk) <= |w.f| && ResumeOffset(w, s.disk) <= Len(s.disk.part) < U32_LIMIT
  {
    hide MetaText, ParseMeta, PcOk, TallyOk, Fed;
  }

  lemma AutoKeeps(w: World, s: State, a: Answer)
    requires Inv(w, s) && s.pc.Idle? && s.disk.meta.Some?
    requires ScannedOffset(s.disk) > 0 ==> s.line.unread == []
    ensures if ScannedOffset(s.disk) == 0 then Inv(w, s.(disk := s.disk.(meta := None)))
            else Inv(w, Asked(w, s, ScannedOffset(s.disk), a))
  {
    hide MetaText, ParseMeta, Own, Answered;
    if ScannedOffset(s.disk) > 0 {
      AnswerIsOwn(w, s.line, ScannedOffset(s.disk), a);
    }
  }

  lemma HeaderKeeps(w: World, s: State, held: nat, r: State)
    requires Inv(w, s) && HeaderStep(w, s, held) == Some(r)
    ensures Inv(w, r)
  {
    hide ParseMeta, MetaText, HeaderFromImage, Own, Coming, Slack;
    if r.pc.MakeDirs? {
      OwnHeader(w, s.pc.k, s.line.unread);
    } else {
      StopKeeps(w, s, r.line, r.pc);
    }
  }

  lemma BlockKeeps(w: World, s: State, held: nat, r: State)
    requires Inv(w, s) && BlockStep(w, s, held) == Some(r)
    ensures Inv(w, r)
  {
    hide ParseMeta, MetaText, BlockFromImage, Coming, Slack;
    if |s.line.unread| >= BLOCK_BYTES {
      OwnBlock(w, s.pc.n, s.line.unread);
    }
    if r.pc.Idle? {
      StopKeeps(w, s, r.line, r.pc);
    }
  }

  lemma TruncateKeeps(w: World, s: State, r: State)
    requires Inv(w, s) && s.pc.Opened? && GoStep(w, s) == Some(r)
    ensures Inv(w, r)
  {
    hide ParseMeta, MetaText, Coming, Served, ErrorHeader, Blocks, Own;
    var k := s.pc.k;
    if Len(s.disk.part) < k {
      StopKeeps(w, s, r.line, r.pc);
    } else {
      PrefixSplits(s.disk.part.value, w.f, k);
    }
  }

  lemma RenameKeeps(w: World, s: State, r: State)
    requires Inv(w, s) && s.pc.MetaRename? && GoStep(w, s) == Some(r)
    ensures Inv(w, r)
  {
    hide ParseMeta, MetaText, Coming;
    ReadsBack(w, s.pc.n);
  }

  lemma FinishKeeps(w: World, s: State, r: State)
    requires Inv(w, s) && s.pc.Recv? && GoStep(w, s) == Some(r)
    ensures Inv(w, r)
  {
    hide ParseMeta, MetaText;
    assert w.f[..s.pc.n] == w.f;
    assert r.tally.finished == (s.tally.completions + 1) * |w.f|;
  }

  lemma GoKeeps(w: World, s: State, r: State)
    requires Inv(w, s) && GoStep(w, s) == Some(r)
    ensures Inv(w, r)
  {
    hide ParseMeta, MetaText, Coming, Boundary;
    match s.pc {
      case MakeDirs(_) =>
        if w.above.Blocked? {
          StopKeeps(w, s, r.line, r.pc);
        }
      case Opened(_) => TruncateKeeps(w, s, r);
      case MetaRename(_, _) => RenameKeeps(w, s, r);
      case Recv(_, _) => FinishKeeps(w, s, r);
      case _ =>
    }
  }

  /** A piece of the current block is the next piece of the file. */
  lemma BlockPiece(f: bytes, n: nat, e: nat, j: nat, c: nat)
    requires n <= e <= |f| && j + c <= e - n
    ensures f[..n + j] + f[n..e][j..j + c] == f[..n + j + c]
  {
    var piece := f[n..e][j..j + c];
    assert |piece| == c;
    forall i | 0 <= i < c ensures piece[i] == f[n + j + i] {
    }
    assert piece == f[n + j..n + j + c];
  }

  /** A partial or complete write of the new meta file's text. */
  lemma PutTextKeeps(w: World, s: State, c: nat, r: State)
    requires Inv(w, s) && s.pc.MetaPrint? && PutStep(w, s, c) == Some(r)
    ensures Inv(w, r)
  {
    hide ParseMeta, MetaText, Coming, Boundary, MetaOk;
    var text := MetaText(w.remote, s.pc.n);
    var from := |s.disk.tmp.value|;
    assert s.disk.tmp.value == text[..from];
    assert text[..from] + text[from..from + c] == text[..from + c];
    assert from + c == |text| ==> text[..from + c] == text;
    assert MetaOk(w, r.disk, r.tally) by { hide *; SameMeta(w, s.disk, r.disk, s.tally, r.tally); }
  }

  lemma SameMeta(w: World, d: Disk, d': Disk, t: Tally, t': Tally)
    requires MetaOk(w, d, t) && d' == d.(tmp := d'.tmp) && t'.cleanup == t.cleanup
    ensures MetaOk(w, d', t')
  {
  }

  /** The same of the current block. */
  lemma PutBlockKeeps(w: World, s: State, c: nat, r: State)
    requires Inv(w, s) && s.pc.Writing? && PutStep(w, s, c) == Some(r)
    ensures Inv(w, r)
  {
    hide ParseMeta, MetaText, Coming, Blocks, BlockNumber;
    var (n, j) := (s.pc.n, s.pc.j);
    BlockPiece(w.f, n, BlockEnd(w.f, n), j, c);
    NextNumber(w, n);
    assert r.disk.part == Some(w.f[..n + j + c]);
  }

  /** The start offset of the session under way. */
  function StartOf(pc: Pc): nat {
    if pc.Down? || pc.Idle? || pc.Finalized? || pc.Purge? || pc.PurgeMeta? then 0 else pc.k
  }

  lemma FailKeeps(w: World, s: State, r: State)
    requires Inv(w, s) && FailStep(w, s) == Some(r)
    ensures Inv(w, r)
  {
    hide ParseMeta, MetaText;
    if !s.pc.Finalized? {
      StopKeeps(w, s, Left(s.line), AfterOne(StartOf(s.pc)));
    }
  }

  /** Every side effect, failure, crash, restart and session start keeps the
      invariant, as long as sessions start on an empty connection. */
  lemma StepKeeps(w: World, s: State, e: Event)
    requires Inv(w, s) && StartsClean(s, e) && Next(w, s, e).Some?
    ensures Inv(w, Next(w, s, e).Or(s))
  {
    hide ParseMeta, MetaText, GoStep, PutStep, FailStep, HeaderStep, BlockStep, Asked, Listed;
    var r := Next(w, s, e).value;
    match e {
      case Crash =>
        if Active(s.pc) {
          StopKeeps(w, s, DEAD_LINE, Down);
        }
      case Get(a) => GetKeeps(w, s, a);
      case AutoResume(a) => AutoKeeps(w, s, a);
      case Header(held) => HeaderKeeps(w, s, held, r);
      case Block(held) => BlockKeeps(w, s, held, r);
      case Fail => FailKeeps(w, s, r);
      case Go => GoKeeps(w, s, r);
      case Put(c) =>
        if s.pc.MetaPrint? {
          PutTextKeeps(w, s, c, r);
        } else {
          assert s.pc.Writing? by { PutWhere(w, s, c); }
          PutBlockKeeps(w, s, c, r);
        }
      case _ =>
    }
  }

  lemma PutWhere(w: World, s: State, c: nat)
    requires PutStep(w, s, c).Some?
    ensures s.pc.MetaPrint? || s.pc.Writing?
  {
  }

  // ------------------------------------------------- the reading steps in full

  lemma HeaderMissing(w: World, s: State)
    requires s.pc.Await? && |s.line.unread| < HEADER_BYTES
    ensures Next(w, s, Event.Header(0))
         == Some(s.(pc := AfterOne(s.pc.Start()), tally := Interrupted(s.tally), line := DEAD_LINE))
  {
  }

  lemma HeaderTaken(w: World, s: State, held: nat)
    requires s.pc.Await? && |s.line.unread| >= HEADER_BYTES && held < Rio.RIO_BUFSIZE
    requires held <= |s.line.unread[HEADER_BYTES..]|
    ensures var rest := s.line.unread[HEADER_BYTES..];
            var h := HeaderFromImage(w.o, s.line.unread[..HEADER_BYTES]);
            var over := s.(tally := Interrupted(s.tally), line := Line(rest[held..], 0, s.line.live));
            Next(w, s, Event.Header(held))
              == Some(if h.error != NO_ERROR_R then over.(pc := AfterError(s.pc.Start(), h.error))
                      else if s.pc.Start() > h.total then over.(pc := Idle)
                      else s.(pc := MakeDirs(s.pc.Start()), total := h.total, line := Line(rest, held, s.line.live)))
  {
    hide HeaderFromImage;
  }

  lemma BlockMissing(w: World, s: State)
    requires s.pc.Recv? && s.pc.Count() < s.total && |s.line.unread| < BLOCK_BYTES
    ensures Next(w, s, Event.Block(0)) == Some(s.(pc := Idle, tally := Interrupted(s.tally), line := DEAD_LINE))
  {
  }

  lemma BlockTaken(w: World, s: State, held: nat)
    requires s.pc.Recv? && s.pc.Count() < s.total && |s.line.unread| >= BLOCK_BYTES && held < Rio.RIO_BUFSIZE
    requires held <= |s.line.unread[BLOCK_BYTES..]|
    ensures var rest := s.line.unread[BLOCK_BYTES..];
            var b := BlockFromImage(w.o, s.line.unread[..BLOCK_BYTES]);
            var over := s.(tally := Interrupted(s.tally), line := Line(rest[held..], 0, s.line.live));
            var on := s.(line := Line(rest, held, s.line.live));
            Next(w, s, Event.Block(held))
              == Some(if b.size > BLOCK_SIZE || Count(s.pc.Count(), b.size) > s.total then over.(pc := Idle)
                      else if b.size == 0 then on.(pc := MetaOpen(s.pc.Start(), s.pc.Count()))
                      else on.(pc := Writing(s.pc.Start(), s.pc.Count(), b.data[..b.size], 0)))
  {
    hide BlockFromImage, Count;
  }

  // ----------------------------------------------------------- runs of events

  lemma RunSnoc(w: World, s: State, events: seq<Event>, e: Event)
    requires Run(w, s, events).Some?
    ensures Run(w, s, events + [e]) == Next(w, Run(w, s, events).Or(s), e)
    ensures Guarded(w, s, events + [e])
       <==> Guarded(w, s, events) && StartsClean(Run(w, s, events).Or(s), e)
  {
    hide Next, StartsClean;
    assert (events + [e])[..|events|] == events;
  }

  lemma {:induction false} RunJoin(w: World, s: State, a: seq<Event>, b: seq<Event>)
    requires Run(w, s, a).Some?
    ensures Run(w, s, a + b) == Run(w, Run(w, s, a).Or(s), b)
    ensures Guarded(w, s, a) && Guarded(w, Run(w, s, a).Or(s), b) ==> Guarded(w, s, a + b)
    decreases |b|
  {
    hide Next, StartsClean;
    if b == [] {
      assert a + b == a;
    } else {
      var init := b[..|b| - 1];
      assert (a + b)[..|a + b| - 1] == a + init;
      RunJoin(w, s, a, init);
    }
  }

  /** A run seen from its first event. */
  lemma RunCons(w: World, s: State, e: Event, t: State, rest: seq<Event>)
    requires Next(w, s, e) == Some(t)
    ensures Run(w, s, [e] + rest) == Run(w, t, rest)
    ensures StartsClean(s, e) && Guarded(w, t, rest) ==> Guarded(w, s, [e] + rest)
  {
    hide Next, StartsClean;
    assert [] + [e] == [e];
    RunSnoc(w, s, [], e);
    RunJoin(w, s, [e], rest);
  }

  /** A guarded run from one state to another. */
  ghost predicate Goes(w: World, s: State, events: seq<Event>, r: State) {
    Run(w, s, events) == Some(r) && Guarded(w, s, events)
  }

  lemma GoesThrough(w: World, s: State, a: seq<Event>, t: State, b: seq<Event>, r: State)
    requires Goes(w, s, a, t) && Goes(w, t, b, r)
    ensures Goes(w, s, a + b, r)
  {
    RunJoin(w, s, a, b);
  }

  lemma Single(w: World, s: State, e: Event, r: State)
    requires Next(w, s, e) == Some(r)
    ensures Run(w, s, [e]) == Some(r) && (StartsClean(s, e) ==> Guarded(w, s, [e]))
  {
    hide Next, StartsClean;
    assert [] + [e] == [e];
    RunSnoc(w, s, [], e);
  }

  lemma Pair(w: World, s: State, a: Event, t: State, b: Event, r: State)
    requires Next(w, s, a) == Some(t) && Next(w, t, b) == Some(r)
    ensures Run(w, s, [a, b]) == Some(r) && (StartsClean(s, a) && StartsClean(t, b) ==> Guarded(w, s, [a, b]))
  {
    hide Next, StartsClean, Run, Guarded;
    Single(w, s, a, t);
    assert [a] + [b] == [a, b];
    RunSnoc(w, s, [a], b);
  }

  lemma Triple(w: World, s: State, a: Event, t: State, b: Event, u: State, c: Event, r: State)
    requires Next(w, s, a) == Some(t) && Next(w, t, b) == Some(u) && Next(w, u, c) == Some(r)
    requires StartsClean(s, a) && StartsClean(t, b) && StartsClean(u, c)
    ensures Goes(w, s, [a, b, c], r)
  {
    hide Next, StartsClean, Run, Guarded;
    Pair(w, s, a, t, b, u);
    assert [a, b] + [c] == [a, b, c];
    RunSnoc(w, s, [a, b], c);
  }

  /** Only a `get` and an auto-resume start a session. */
  lemma Quiet(s: State, e: Event)
    requires !e.Get? && !e.AutoResume?
    ensures !Starts(s, e) && StartsClean(s, e)
  {
  }

  /** A run given with the states it passes through. */
  ghost predicate Chained(w: World, states: seq<State>, events: seq<Event>)
  {
    |states| == |events| + 1
    && forall i :: 0 <= i < |events| ==>
         Next(w, states[i], events[i]) == Some(states[i + 1]) && StartsClean(states[i], events[i])
  }

  lemma {:induction false} Through(w: World, states: seq<State>, events: seq<Event>)
    requires Chained(w, states, events)
    ensures Goes(w, states[0], events, states[|events|])
    decreases |events|
  {
    hide Next, StartsClean;
    if events != [] {
      var n := |events| - 1;
      Through(w, states[..n + 1], events[..n]);
    }
  }

  // ----------------------------------------------------------- the theorems

  lemma {:induction false} KeepsFrom(w: World, s: State, events: seq<Event>)
    requires Inv(w, s) && Guarded(w, s, events) && Run(w, s, events).Some?
    ensures Inv(w, Run(w, s, events).Or(s))
    decreases |events|
  {
    hide Next, Inv, StartsClean;
    if events != [] {
      KeepsFrom(w, s, events[..|events| - 1]);
      StepKeeps(w, Run(w, s, events[..|events| - 1]).value, events[|events| - 1]);
    }
  }

  /** Every state reached by a guarded sequence of events satisfies the
      invariant. */
  lemma RunKeeps(w: World, events: seq<Event>)
    requires Guarded(w, Fresh(w), events) && Run(w, Fresh(w), events).Some?
    ensures Inv(w, Run(w, Fresh(w), events).Or(Fresh(w)))
  {
    FreshOk(w);
    KeepsFrom(w, Fresh(w), events);
  }

  /** Crash safety: for every interleaving of steps, crashes, restarts, gets
      and auto-resumes in which sessions start on an empty connection, `.part`
      is a prefix of the server's file, and the final path holds its earlier
      content or exactly the server's file; once a rename has happened it is
      the server's file for good. */
  lemma CrashSafe(w: World, events: seq<Event>)
    requires Guarded(w, Fresh(w), events) && Run(w, Fresh(w), events).Some?
    ensures var s := Run(w, Fresh(w), events).Or(Fresh(w));
            && (s.disk.part.Some? ==> s.disk.part.Or([]) <= w.f)
            && (s.disk.final == w.before || s.disk.final == Some(w.f))
            && (s.tally.completions > 0 ==> s.disk.final == Some(w.f))
  {
    hide Fed, PcOk, MetaOk;
    RunKeeps(w, events);
  }

  /** A step leaves the meta file, removes it, or renames the temporary file. */
  lemma MetaComesFrom(w: World, s: State, e: Event)
    requires Next(w, s, e).Some?
    ensures var r := Next(w, s, e).Or(s);
            r.disk.meta.None? || r.disk.meta == s.disk.meta || (s.pc.MetaRename? && r.disk.meta == s.disk.tmp)
  {
    hide ParseMeta, MetaText, HeaderFromImage, BlockFromImage, Listed, ResumeOffset, Answered;
  }

  /** The meta file always holds the whole text of a record. */
  lemma {:induction false} MetaIsWhole(w: World, events: seq<Event>)
    requires Guarded(w, Fresh(w), events) && Run(w, Fresh(w), events).Some?
    ensures var d := Run(w, Fresh(w), events).Or(Fresh(w)).disk;
            d.meta.Some? ==> d.meta == Some(MetaText(w.remote, ScannedOffset(d)))
    decreases |events|
  {
    hide Next, StartsClean, ParseMeta, MetaText, Safe, MetaOk, TallyOk, Fed;
    if events != [] {
      var init, last := events[..|events| - 1], events[|events| - 1];
      MetaIsWhole(w, init);
      RunKeeps(w, init);
      var s := Run(w, Fresh(w), init).value;
      MetaComesFrom(w, s, last);
      if s.pc.MetaRename? {
        ReadsBack(w, s.pc.n);
      }
    }
  }

  /** What the meta file records in every reachable state: an offset on a block
      boundary or the end of the file, covered by `.part` with at most one
      block to spare; or the run is between the final rename and the removal
      of the meta file; or a cleanup has removed `.part` first. */
  lemma MetaInvariant(w: World, events: seq<Event>)
    requires Guarded(w, Fresh(w), events) && Run(w, Fresh(w), events).Some?
    ensures var s := Run(w, Fresh(w), events).Or(Fresh(w));
            var k := ScannedOffset(s.disk);
            s.disk.meta.Some? ==>
              && s.disk.meta == Some(MetaText(w.remote, k)) && Recorded(w, s.disk, k) && Boundary(w.f, k)
              && (Covered(s.disk, k) || (Len(s.disk.part) == 0 && k == |w.f| && s.disk.final == Some(w.f))
                  || (Len(s.disk.part) == 0 && s.tally.cleanup))
  {
    hide Fed, PcOk, ParseMeta, MetaText;
    RunKeeps(w, events);
    MetaIsWhole(w, events);
  }

  /** The check `current_size < start_offset` of a resumed session can only
      fire in those two windows. */
  lemma OffsetCheckFires(w: World, events: seq<Event>)
    requires Guarded(w, Fresh(w), events) && Run(w, Fresh(w), events).Some?
    requires var s := Run(w, Fresh(w), events).Or(Fresh(w)); s.pc.Opened? && Len(s.disk.part) < s.pc.Start()
    ensures var s := Run(w, Fresh(w), events).Or(Fresh(w));
            Len(s.disk.part) == 0 && ((s.pc.Start() == |w.f| && s.disk.final == Some(w.f)) || s.tally.cleanup)
  {
    hide ParseMeta, MetaText, Fed;
    RunKeeps(w, events);
  }

  /** Conservation of work: every byte ever written to `.part` is still there,
      was cut off by a truncation, went with a removed `.part`, or was renamed
      into place, a whole file at a time; and truncations discard at most one
      block for each interruption. */
  lemma WorkConserved(w: World, events: seq<Event>)
    requires Guarded(w, Fresh(w), events) && Run(w, Fresh(w), events).Some?
    ensures var s := Run(w, Fresh(w), events).Or(Fresh(w));
            var t := s.tally;
            && t.written == Len(s.disk.part) + t.truncated + t.unlinked + t.completions * |w.f|
            && t.truncated <= BLOCK_SIZE * t.interruptions
  {
    hide Fed, PcOk, MetaOk;
    RunKeeps(w, events);
  }
}
