/**
 Sessions on one connection. A session that stops with blocks of its answer
 unread leaves them to the next one, which reads them as its own header.
 */
module Stale {
  import opened Bytes
  import opened Text
  import opened Wire
  import opened Transfer
  import opened Names
  import opened Download
  import opened Losses
  import Rio

  /** Writing the meta file for `n` received bytes. */
  function MetaSteps(w: World, n: u32): seq<Event> {
    [Go, Put(|MetaText(w.remote, n)|), Go]
  }

  lemma MetaWritten(w: World, s: State, k: u32, n: u32) returns (r: State)
    requires s.pc == MetaOpen(k, n)
    ensures Goes(w, s, MetaSteps(w, n), r)
    ensures r == s.(pc := Recv(k, n), disk := s.disk.(meta := Some(MetaText(w.remote, n)), tmp := None))
  {
    hide MetaText, ParseMeta;
    var text := MetaText(w.remote, n);
    var s1 := Next(w, s, Go).value;
    assert [] + text[0..|text|] == text;
    var s2 := Next(w, s1, Put(|text|)).value;
    r := Next(w, s2, Go).value;
    hide Next, Run, Guarded;
    Triple(w, s, Go, s1, Put(|text|), s2, Go, r);
  }

  /** From a good header to the first block. */
  function OpenSteps(w: World, k: u32): seq<Event> {
    [Go, Go, Go] + MetaSteps(w, k)
  }

  /** The state these steps lead to. */
  function Prepared(w: World, s: State, k: u32): State {
    var part := if s.disk.part.None? then [] else s.disk.part.value[..Min(k, |s.disk.part.value|)];
    State(Recv(k, k), Disk(true, s.disk.final, Some(part), Some(MetaText(w.remote, k)), None),
          s.tally.(truncated := s.tally.truncated + Len(s.disk.part) - |part|), s.line, s.total)
  }

  lemma OpenedUp(w: World, s: State, k: u32)
    requires s.pc == MakeDirs(k) && Placeable(w) && Len(s.disk.part) % U32_LIMIT >= k
    ensures Goes(w, s, OpenSteps(w, k), Prepared(w, s, k))
  {
    hide MetaText, ParseMeta;
    var s1 := Next(w, s, Go).value;
    var s2 := Next(w, s1, Go).value;
    var s3 := Next(w, s2, Go).value;
    assert s3.(pc := Recv(k, k), disk := s3.disk.(meta := Some(MetaText(w.remote, k)), tmp := None)) == Prepared(w, s, k);
    hide Next, MetaSteps, Run, Guarded, Prepared;
    Triple(w, s, Go, s1, Go, s2, Go, s3);
    var r := MetaWritten(w, s3, k, k);
    GoesThrough(w, s, [Go, Go, Go], s3, MetaSteps(w, k), r);
  }

  /** A whole `get` that takes eight zeros for its header. */
  function EmptyGet(w: World): seq<Event> {
    [Get(FULL), Event.Header(0)] + (OpenSteps(w, 0) + [Go, Go])
  }

  /** The connection carries eight zeros. */
  predicate Zeroed(line: Line) {
    line.live && |line.unread| >= HEADER_BYTES && line.unread[..HEADER_BYTES] == Zeros(HEADER_BYTES)
  }

  /** Eight zeros read as a header say that the file is empty. */
  lemma ZeroHeader(o: Order, u: bytes)
    requires |u| >= HEADER_BYTES && u[..HEADER_BYTES] == Zeros(HEADER_BYTES)
    ensures var h := HeaderFromImage(o, u[..HEADER_BYTES]); h.error == NO_ERROR_R && h.total == 0
  {
  }

  /** A `get` takes them for its header: it goes on from offset 0, and stops
      from any other. */
  lemma ZeroTaken(w: World, s: State) returns (r: State)
    requires s.pc.Idle? && Zeroed(s.line)
    ensures Run(w, s, [Get(FULL), Event.Header(0)]) == Some(r) && r.disk == s.disk
    ensures if ResumeOffset(w, s.disk) == 0 then r.pc == MakeDirs(0) && r.total == 0 && r.tally == s.tally else r.pc.Idle?
  {
    hide ResumeOffset, Served, HeaderFromImage, Zeros;
    var s1 := Next(w, s, Get(FULL)).value;
    assert s1.line.unread[..HEADER_BYTES] == s.line.unread[..HEADER_BYTES];
    ZeroHeader(w.o, s1.line.unread);
    r := Next(w, s1, Event.Header(0)).value;
    hide Next, Run, Guarded;
    Pair(w, s, Get(FULL), s1, Event.Header(0), r);
  }

  /** On a connection that carries eight zeros, a `get` from offset 0 puts an
      empty file in place and reports success. */
  lemma EmptyFile(w: World, s: State) returns (r: State)
    requires s.pc.Idle? && Zeroed(s.line) && Placeable(w) && ResumeOffset(w, s.disk) == 0
    ensures Run(w, s, EmptyGet(w)) == Some(r) && r.pc.Idle?
    ensures r.disk.final == Some([]) && r.tally.completions == s.tally.completions + 1
  {
    hide Next, OpenSteps, Run, Guarded, ResumeOffset, Zeroed;
    var s1 := ZeroTaken(w, s);
    OpenedUp(w, s1, 0);
    var s2 := Prepared(w, s1, 0);
    r := Published(w, s2);
    RunJoin(w, s1, OpenSteps(w, 0), [Go, Go]);
    RunJoin(w, s, [Get(FULL), Event.Header(0)], OpenSteps(w, 0) + [Go, Go]);
  }

  /** The two steps after the last block. */
  lemma Published(w: World, s: State) returns (r: State)
    requires s.pc.Recv? && s.pc.n >= s.total
    ensures Goes(w, s, [Go, Go], r)
    ensures r.pc.Idle? && r.disk.final == s.disk.part && r.tally.completions == s.tally.completions + 1
  {
    hide Left;
    var s1 := Next(w, s, Go).value;
    r := Next(w, s1, Go).value;
    hide Next, Run, Guarded;
    Pair(w, s, Go, s1, Go, r);
  }

  // ------------------------------------------------------ how it comes about

  /** A start that finds `.part` shorter than recorded: the session stops at
      its header, and its reader takes the head of the first block with it. */
  function ShortResume(): seq<Event> {
    [AutoResume(FULL), Event.Header(4)] + [Go, Go, Go]
  }

  /** The first block of a file of zeros, without its four bytes of head. */
  lemma ZeroBlock(o: Order, f: bytes, k: nat, num: u16)
    requires k < |f| && f == Zeros(|f|)
    ensures |Blocks(o, f, k, num)| > BLOCK_SIZE && Zeroed(Line(Blocks(o, f, k, num)[4..], 0, true))
  {
    var data := f[k..BlockEnd(f, k)];
    var image := BlockImage(o, MakeBlock(num, data));
    BlocksStep(o, f, k, num);
    hide Blocks, BlockImage, MakeBlock;
    ZeroImage(o, num, |data|);
    assert data == Zeros(|data|);
    var u := Blocks(o, f, k, num)[4..];
    assert u[..HEADER_BYTES] == image[4..][..HEADER_BYTES];
  }

  lemma ZeroImage(o: Order, num: u16, size: nat)
    requires size <= BLOCK_SIZE
    ensures var image := BlockImage(o, MakeBlock(num, Zeros(size)));
            |image| == BLOCK_BYTES && image[4..] == Zeros(BLOCK_SIZE) && image[4..][..HEADER_BYTES] == Zeros(HEADER_BYTES)
  {
    var data := Zeros(size) + Zeros(BLOCK_SIZE - size);
    assert data == Zeros(BLOCK_SIZE);
    var image := BlockImage(o, MakeBlock(num, Zeros(size)));
    assert image[4..] == data;
    assert Zeros(BLOCK_SIZE)[..HEADER_BYTES] == Zeros(HEADER_BYTES);
  }

  /** What a session that stops at once leaves as it is. */
  predicate SameDisk(s: State, r: State) {
    && r.disk.meta == s.disk.meta && Len(r.disk.part) == Len(s.disk.part)
    && r.disk.final == s.disk.final && r.tally.completions == s.tally.completions
  }

  /** Up to the size check, which fails. */
  lemma TooShort(w: World, s: State, k: u32) returns (r: State)
    requires s.pc == MakeDirs(k) && Placeable(w) && Len(s.disk.part) < k
    ensures Goes(w, s, [Go, Go, Go], r) && r.pc.Idle? && r.line == Left(s.line) && SameDisk(s, r)
  {
    hide Left;
    var s1 := Next(w, s, Go).value;
    var s2 := Next(w, s1, Go).value;
    r := Next(w, s2, Go).value;
    hide Next, Run, Guarded;
    Triple(w, s, Go, s1, Go, s2, Go, r);
  }

  lemma ShortLeaves(w: World, s: State, k: nat) returns (r: State)
    requires CanResume(w, s, k) && Placeable(w) && Len(s.disk.part) < k < |w.f|
    ensures Goes(w, s, ShortResume(), r) && r.pc.Idle? && SameDisk(s, r)
    ensures r.line == Line(Blocks(w.o, w.f, k, BlockNumber(k))[4..], 0, true)
  {
    hide Run, Guarded, CanResume, Blocks;
    var s1 := ResumeBegins(w, s, k, 4);
    r := TooShort(w, s1, k);
    GoesThrough(w, s, [AutoResume(FULL), Event.Header(4)], s1, [Go, Go, Go], r);
  }

  /** A resume cut before its header, and a crash between the two removals that
      follow: the meta file is left alone. */
  function CutCleanup(): seq<Event> {
    [AutoResume(Answer(NO_ERROR_R, Some(0))), Event.Header(0), Go] + [Crash, Restart]
  }

  lemma CleanupCut(w: World, s: State, k: nat) returns (r: State)
    requires CanResume(w, s, k)
    ensures Goes(w, s, CutCleanup(), r) && CanResume(w, r, k) && r.disk == s.disk.(part := None)
    ensures r.tally.completions == s.tally.completions
  {
    var a := Answer(NO_ERROR_R, Some(0));
    hide Inv, Recorded, Listed, Run, Guarded;
    var s3 := HalfPurged(w, s, k);
    r := KilledAndStarted(w, s3);
    GoesThrough(w, s, [AutoResume(a), Event.Header(0), Go], s3, [Crash, Restart], r);
    KeepsFrom(w, s, CutCleanup());
    MetaStays(w, s.disk, r.disk, k);
  }

  lemma HalfPurged(w: World, s: State, k: nat) returns (r: State)
    requires CanResume(w, s, k)
    ensures Goes(w, s, [AutoResume(Answer(NO_ERROR_R, Some(0))), Event.Header(0), Go], r) && r.pc.PurgeMeta?
    ensures r.disk == s.disk.(part := None) && r.tally.completions == s.tally.completions
  {
    assert k > 0;
    hide CanResume, Whole, Next, Run, Guarded;
    var a := Answer(NO_ERROR_R, Some(0));
    var s1 := Resumes(w, s, k, a);
    HeaderMissing(w, s1);
    var s2 := Next(w, s1, Event.Header(0)).value;
    r := PartPurged(w, s2);
    Triple(w, s, AutoResume(a), s1, Event.Header(0), s2, Go, r);
  }

  lemma MetaStays(w: World, d: Disk, d': Disk, k: nat)
    requires Recorded(w, d, k) && d'.meta == d.meta
    ensures Recorded(w, d', k)
  {
    hide ParseMeta;
  }

  /** The first download of a file longer than a block, killed after it. */
  function OneBlock(w: World): seq<Event> {
    [Restart, Get(FULL), Event.Header(0)] + (OpenSteps(w, 0) + FirstBlockSteps(w))
  }

  function FirstBlockSteps(w: World): seq<Event> {
    [Event.Block(0), Put(BLOCK_SIZE)] + (MetaSteps(w, BLOCK_SIZE) + [Crash, Restart])
  }

  lemma OneBlockKept(w: World) returns (r: State)
    requires |w.f| > BLOCK_SIZE && Placeable(w) && Listed(w.home, w.remote)
    ensures Goes(w, Fresh(w), OneBlock(w), r) && CanResume(w, r, BLOCK_SIZE)
    ensures r.disk.final == w.before && r.disk.part == Some(w.f[..BLOCK_SIZE]) && r.tally.completions == 0
  {
    hide Run, Guarded, OpenSteps, FirstBlockSteps, Inv, MetaText, Blocks, ParseMeta, Listed;
    var s1 := FirstHeader(w, 0);
    OpenedUp(w, s1, 0);
    var s2 := Prepared(w, s1, 0);
    r := FirstBlockStored(w, s2);
    GoesThrough(w, s1, OpenSteps(w, 0), s2, FirstBlockSteps(w), r);
    GoesThrough(w, Fresh(w), [Restart, Get(FULL), Event.Header(0)], s1, OpenSteps(w, 0) + FirstBlockSteps(w), r);
    RunKeeps(w, OneBlock(w));
    ReadsBack(w, BLOCK_SIZE);
  }

  lemma FirstHeader(w: World, held: nat) returns (r: State)
    requires held <= |Blocks(w.o, w.f, 0, 0)| && held < Rio.RIO_BUFSIZE
    ensures Goes(w, Fresh(w), [Restart, Get(FULL), Event.Header(held)], r)
    ensures r == State(MakeDirs(0), Fresh(w).disk, NO_TALLY, Line(Blocks(w.o, w.f, 0, 0), held, true), |w.f|)
  {
    hide HeaderImage, HeaderFromImage, Blocks, ErrorHeader, HeaderStep, Served, ParseMeta;
    var s0 := Fresh(w);
    var s1 := Next(w, s0, Restart).value;
    var s2 := Next(w, s1, Get(FULL)).value;
    assert [] + Served(w.o, Some(w.f), 0) == Served(w.o, Some(w.f), 0);
    GoodHeaderRead(w, s2, 0, held);
    r := Next(w, s2, Event.Header(held)).value;
    hide Next, Run, Guarded;
    Triple(w, s0, Restart, s1, Get(FULL), s2, Event.Header(held), r);
  }

  /** The first block arrives, is written in one piece and recorded, and the
      client is killed and started again. */
  lemma FirstBlockStored(w: World, s: State) returns (r: State)
    requires |w.f| > BLOCK_SIZE && s.pc == Recv(0, 0) && s.total == |w.f|
    requires s.disk.part == Some([]) && s.line.unread == Blocks(w.o, w.f, 0, 0)
    ensures Goes(w, s, FirstBlockSteps(w), r) && r.pc == Idle && r.line == NEW_LINE
    ensures r.disk == s.disk.(part := Some(w.f[..BLOCK_SIZE]), meta := Some(MetaText(w.remote, BLOCK_SIZE)), tmp := None)
    ensures r.tally.completions == s.tally.completions
  {
    hide Blocks, BlockFromImage, MetaText, ParseMeta, MetaSteps;
    OwnBlock(w, 0, s.line.unread);
    var s1 := Next(w, s, Event.Block(0)).value;
    assert w.f[0..BLOCK_SIZE] == w.f[..BLOCK_SIZE] && [] + w.f[..BLOCK_SIZE][0..BLOCK_SIZE] == w.f[..BLOCK_SIZE];
    var s2 := Next(w, s1, Put(BLOCK_SIZE)).value;
    hide Next, Run, Guarded;
    Pair(w, s, Event.Block(0), s1, Put(BLOCK_SIZE), s2);
    var s3 := MetaWritten(w, s2, 0, BLOCK_SIZE);
    r := KilledAndStarted(w, s3);
    GoesThrough(w, s2, MetaSteps(w, BLOCK_SIZE), s3, [Crash, Restart], r);
    GoesThrough(w, s, [Event.Block(0), Put(BLOCK_SIZE)], s2, MetaSteps(w, BLOCK_SIZE) + [Crash, Restart], r);
  }

  /** The client is killed and started again. */
  lemma KilledAndStarted(w: World, s: State) returns (r: State)
    requires !s.pc.Down?
    ensures Goes(w, s, [Crash, Restart], r) && r.tally.completions == s.tally.completions
    ensures r.pc == Idle && r.line == NEW_LINE && r.disk == s.disk
  {
    var s1 := Next(w, s, Crash).value;
    r := Next(w, s1, Restart).value;
    hide Next, Run, Guarded;
    Pair(w, s, Crash, s1, Restart, r);
  }

  /** The whole story from a first download to the loss of the final file. */
  function Story(w: World): seq<Event> {
    OneBlock(w) + (CutCleanup() + ShortResume())
  }

  /** Without the guard crash safety is false: for every length above one
      block there is a file and a run in which every session but the last
      starts on an empty connection, and the last, an ordinary `get`, reports
      success and leaves an empty file in place of what was there. */
  lemma UnguardedUnsafe(w: World) returns (r: State)
    requires Placeable(w) && Listed(w.home, w.remote)
    requires |w.f| > BLOCK_SIZE && w.f == Zeros(|w.f|)
    ensures Guarded(w, Fresh(w), Story(w)) && !Guarded(w, Fresh(w), Story(w) + EmptyGet(w))
    ensures Run(w, Fresh(w), Story(w) + EmptyGet(w)) == Some(r)
    ensures r.pc.Idle? && r.disk.final == Some([]) && r.tally.completions == 1
  {
    hide Run, Guarded, OneBlock, CutCleanup, ShortResume, EmptyGet, CanResume, Blocks, Zeroed, Zeros, Listed;
    var s1 := OneBlockKept(w);
    var s2 := CleanupCut(w, s1, BLOCK_SIZE);
    var s3 := ShortLeaves(w, s2, BLOCK_SIZE);
    GoesThrough(w, s1, CutCleanup(), s2, ShortResume(), s3);
    GoesThrough(w, Fresh(w), OneBlock(w), s1, CutCleanup() + ShortResume(), s3);
    ZeroBlock(w.o, w.f, BLOCK_SIZE, BlockNumber(BLOCK_SIZE));
    FromTheStart(w, s2.disk, s3.disk, BLOCK_SIZE);
    r := EmptyFile(w, s3);
    RunJoin(w, Fresh(w), Story(w), EmptyGet(w));
    StartsStale(w, Fresh(w), Story(w), s3);
  }

  /** A `get` on a connection that is not empty is not guarded, whatever comes
      after it. */
  lemma StartsStale(w: World, s: State, events: seq<Event>, r: State)
    requires Run(w, s, events) == Some(r) && r.pc.Idle? && r.line.unread != []
    ensures !Guarded(w, s, events + EmptyGet(w))
  {
    hide OpenSteps;
    var all := events + EmptyGet(w);
    assert all[..|events| + 1] == events + [Get(FULL)];
    hide Run, Guarded, EmptyGet;
    RunSnoc(w, s, events, Get(FULL));
    if Guarded(w, s, all) {
      GuardedPrefix(w, s, all, |events| + 1);
    }
  }

  lemma {:induction false} GuardedPrefix(w: World, s: State, events: seq<Event>, i: nat)
    requires i <= |events| && Guarded(w, s, events)
    ensures Guarded(w, s, events[..i])
    decreases |events|
  {
    hide Next, StartsClean;
    if i == |events| {
      assert events[..i] == events;
    } else {
      assert events[..|events| - 1][..i] == events[..i];
      GuardedPrefix(w, s, events[..|events| - 1], i);
    }
  }

  /** Without anything in `.part`, or with less than is recorded, there is
      nothing to resume. */
  lemma FromTheStart(w: World, d: Disk, d': Disk, k: nat)
    requires Len(d'.part) == 0 || (Recorded(w, d, k) && d'.meta == d.meta && Len(d'.part) < k)
    ensures ResumeOffset(w, d') == 0
  {
    hide ParseMeta;
  }

  /** A local failure does the same: here the directories cannot be made for a
      first `get`, and the user tries again. */
  function FailedGet(): seq<Event> {
    [Restart, Get(FULL), Event.Header(4)] + [Fail]
  }

  lemma FailureUnsafe(w: World) returns (r: State)
    requires Placeable(w) && w.f != [] && w.f == Zeros(|w.f|)
    ensures Guarded(w, Fresh(w), FailedGet()) && Run(w, Fresh(w), FailedGet() + EmptyGet(w)) == Some(r)
    ensures r.pc.Idle? && r.disk.final == Some([]) && r.tally.completions == 1
  {
    hide Blocks, EmptyGet, Run, Guarded, Zeros, Zeroed, ParseMeta;
    ZeroBlock(w.o, w.f, 0, 0);
    var s1 := FirstHeader(w, 4);
    var s2 := Next(w, s1, Fail).value;
    hide Next;
    RunSnoc(w, Fresh(w), [Restart, Get(FULL), Event.Header(4)], Fail);
    FromTheStart(w, s2.disk, s2.disk, 0);
    r := EmptyFile(w, s2);
    RunJoin(w, Fresh(w), FailedGet(), EmptyGet(w));
  }

  // --------------------------------------- a start and a get, when nothing fails

  /** An event of a session that meets no failure, lost connection or crash. */
  predicate Undisturbed(e: Event) {
    e.Header? || e.Block? || e.Go? || e.Put?
  }

  ghost predicate AllUndisturbed(events: seq<Event>) {
    forall e :: e in events ==> Undisturbed(e)
  }

  /** The download is complete and the connection empty. */
  ghost predicate Done(w: World, s: State) {
    s.disk.final == Some(w.f) && s.disk.part.None? && s.disk.meta.None? && s.line.unread == []
  }

  /** A session from `k` on the whole answer to its request; `enough` says that
      `.part` reaches the offset. */
  ghost predicate Course(w: World, k: u32, enough: bool, s: State) {
    && k <= |w.f| && Inv(w, s) && s.line.live
    && match s.pc
       case Await(j) => j == k && s.line.unread == Served(w.o, Some(w.f), k) && enough == (Len(s.disk.part) >= k)
       case MakeDirs(j) => j == k && AllBlocks(w, k, s) && enough == (Len(s.disk.part) >= k)
       case OpenPart(j) => j == k && AllBlocks(w, k, s) && enough == (Len(s.disk.part) >= k)
       case Opened(j) => j == k && AllBlocks(w, k, s) && enough == (Len(s.disk.part) >= k)
       case MetaOpen(_, n) => enough && AllBlocks(w, n, s)
       case MetaPrint(_, n) => enough && AllBlocks(w, n, s)
       case MetaRename(_, n) => enough && AllBlocks(w, n, s)
       case Recv(_, n) => enough && AllBlocks(w, n, s)
       case Writing(_, n, data, _) => enough && AllBlocks(w, n + |data|, s)
       case Finalized => enough
       case Idle => if enough then Done(w, s) else |s.line.unread| <= |Blocks(w.o, w.f, k, BlockNumber(k))|
       case _ => false
  }

  /** All blocks from `n` on are still to be read, and nothing else. */
  ghost predicate AllBlocks(w: World, n: nat, s: State) {
    n <= |w.f| && s.line.unread == Blocks(w.o, w.f, n, BlockNumber(n))
  }

  lemma CourseHeader(w: World, k: u32, enough: bool, s: State, held: nat, r: State)
    requires Course(w, k, enough, s) && HeaderStep(w, s, held) == Some(r)
    ensures Course(w, k, enough, r)
  {
    hide Inv, Served, Blocks, HeaderStep;
    HeaderKeeps(w, s, held, r);
    HeaderWhere(w, s, held);
    ServedSplits(w, k, s.line.unread);
    GoodHeaderRead(w, s, k, held);
  }

  /** Where the header is read. */
  lemma HeaderWhere(w: World, s: State, held: nat)
    requires HeaderStep(w, s, held).Some?
    ensures s.pc.Await?
    ensures |s.line.unread| >= HEADER_BYTES ==> held < Rio.RIO_BUFSIZE && held + HEADER_BYTES <= |s.line.unread|
  {
  }

  lemma ServedSplits(w: World, k: u32, u: bytes)
    requires k <= |w.f| && u == Served(w.o, Some(w.f), k)
    ensures |u| >= HEADER_BYTES && u[HEADER_BYTES..] == Blocks(w.o, w.f, k, BlockNumber(k))
  {
    hide Blocks, HeaderImage;
  }

  lemma CourseBlock(w: World, k: u32, enough: bool, s: State, held: nat, r: State)
    requires Course(w, k, enough, s) && BlockStep(w, s, held) == Some(r)
    ensures Course(w, k, enough, r) && r.pc.Writing?
  {
    hide Inv, Blocks, BlockFromImage, Served, Boundary;
    BlockKeeps(w, s, held, r);
    PartBelow(w, s);
    OwnBlock(w, s.pc.n, s.line.unread);
    NextBlock(w, s.pc.n);
  }

  lemma CoursePut(w: World, k: u32, enough: bool, s: State, c: nat, r: State)
    requires Course(w, k, enough, s) && PutStep(w, s, c) == Some(r)
    ensures Course(w, k, enough, r)
  {
    hide Inv, Served, Blocks, MetaText;
    if s.pc.Writing? {
      PutBlockKeeps(w, s, c, r);
      BlockPosition(w, s);
    } else {
      PutTextKeeps(w, s, c, r);
    }
  }

  lemma CourseGo(w: World, k: u32, enough: bool, s: State, r: State)
    requires Placeable(w) && Course(w, k, enough, s) && GoStep(w, s) == Some(r)
    ensures Course(w, k, enough, r)
  {
    hide Inv, Served, Blocks, MetaText;
    GoKeeps(w, s, r);
    PartBelow(w, s);
  }

  lemma BlockPosition(w: World, s: State)
    requires Inv(w, s) && s.pc.Writing?
    ensures s.pc.j < |s.pc.data| && s.disk.part.Some?
    ensures Count(s.pc.n, |s.pc.data|) == s.pc.n + |s.pc.data| <= |w.f|
  {
    hide MetaOk, TallyOk, Safe, Fed, Recorded, Boundary;
  }

  /** What the invariant says of a session that goes on. */
  lemma PartBelow(w: World, s: State)
    requires Inv(w, s)
    ensures Len(s.disk.part) < U32_LIMIT && (s.pc.Opened? ==> s.disk.part.Some?)
    ensures s.pc.Recv? ==> s.total == |w.f| && Boundary(w.f, s.pc.n)
    ensures s.pc.Finalized? ==> s.disk.final == Some(w.f) && s.disk.part.None? && s.line.unread == []
  {
    hide MetaOk, TallyOk;
  }

  /** Every step of a session without failures stays on its course. */
  lemma CourseStep(w: World, k: u32, enough: bool, s: State, e: Event, r: State)
    requires Placeable(w) && Course(w, k, enough, s) && Undisturbed(e) && Next(w, s, e) == Some(r)
    ensures Course(w, k, enough, r)
  {
    hide Course, HeaderStep, BlockStep, GoStep, PutStep;
    match e {
      case Header(held) => CourseHeader(w, k, enough, s, held, r);
      case Block(held) => CourseBlock(w, k, enough, s, held, r);
      case Put(c) => CoursePut(w, k, enough, s, c, r);
      case Go => CourseGo(w, k, enough, s, r);
    }
  }

  lemma {:induction false} CourseRuns(w: World, k: u32, enough: bool, s: State, events: seq<Event>, r: State)
    requires Placeable(w) && Course(w, k, enough, s) && AllUndisturbed(events) && Run(w, s, events) == Some(r)
    ensures Course(w, k, enough, r)
    decreases |events|
  {
    hide Course, Next;
    if events != [] {
      var init, last := events[..|events| - 1], events[|events| - 1];
      assert last in events && AllUndisturbed(init);
      var t := Run(w, s, init).value;
      CourseRuns(w, k, enough, s, init, t);
      CourseStep(w, k, enough, t, last, r);
    }
  }

  /** A session started by `first`, and run to its end. */
  ghost predicate Ends(w: World, s: State, first: Event, events: seq<Event>, r: State) {
    AllUndisturbed(events) && Run(w, s, [first] + events) == Some(r) && r.pc.Idle?
  }

  /** Such a session can be run to its end. */
  ghost predicate CanEnd(w: World, s: State, first: Event) {
    exists events, r :: Ends(w, s, first, events, r)
  }

  /** How much of the session is still to come. */
  function Rank(w: World, pc: Pc): nat {
    match pc
    case Await(k) => 10 * ToCome(w, k) + 10
    case MakeDirs(k) => 10 * ToCome(w, k) + 9
    case OpenPart(k) => 10 * ToCome(w, k) + 8
    case Opened(k) => 10 * ToCome(w, k) + 7
    case MetaOpen(_, n) => 10 * ToCome(w, n) + 6
    case MetaPrint(_, n) => 10 * ToCome(w, n) + 5
    case MetaRename(_, n) => 10 * ToCome(w, n) + 4
    case Recv(_, n) => 10 * ToCome(w, n) + 3
    case Writing(_, n, _, _) => 10 * ToCome(w, n) + 2
    case Finalized => 1
    case _ => 0
  }

  function ToCome(w: World, n: nat): nat {
    if n <= |w.f| then |w.f| - n else 0
  }

  /** A session that is on its course can go on, until it is over. */
  lemma CanGoOn(w: World, k: u32, enough: bool, s: State) returns (e: Event, r: State)
    requires Placeable(w) && Course(w, k, enough, s) && !s.pc.Idle?
    ensures Undisturbed(e) && Next(w, s, e) == Some(r) && Rank(w, r.pc) < Rank(w, s.pc)
  {
    hide Inv, Served, Blocks, Boundary, HeaderStep, BlockStep, GoStep, PutStep;
    PartBelow(w, s);
    match s.pc {
      case Await(_) =>
        e := Event.Header(0);
        ServedSplits(w, k, s.line.unread);
        GoodHeaderRead(w, s, k, 0);
        r := Next(w, s, e).value;
      case Recv(_, n) =>
        if n < s.total {
          e := Event.Block(0);
          r := BlockGoesOn(w, k, enough, s);
        } else {
          e := Go;
          r := GoGoesOn(w, s);
        }
      case MetaPrint(_, _) => e, r := PutGoesOn(w, s);
      case Writing(_, _, _, _) => e, r := PutGoesOn(w, s);
      case _ =>
        e := Go;
        r := GoGoesOn(w, s);
    }
  }

  lemma GoGoesOn(w: World, s: State) returns (r: State)
    requires Placeable(w) && Rank(w, s.pc) > 0
    requires !s.pc.Await? && !s.pc.MetaPrint? && !s.pc.Writing? && (s.pc.Recv? ==> s.pc.n >= s.total)
    ensures Next(w, s, Go) == Some(r) && Rank(w, r.pc) < Rank(w, s.pc)
  {
    r := Next(w, s, Go).value;
  }

  lemma PutGoesOn(w: World, s: State) returns (e: Event, r: State)
    requires Inv(w, s) && (s.pc.MetaPrint? || s.pc.Writing?)
    ensures Undisturbed(e) && Next(w, s, e) == Some(r) && Rank(w, r.pc) < Rank(w, s.pc)
  {
    hide MetaOk, TallyOk, Safe, Fed, MetaText, ParseMeta;
    if s.pc.Writing? {
      BlockPosition(w, s);
      e := Put(|s.pc.data| - s.pc.j);
    } else {
      e := Put(|MetaText(w.remote, s.pc.n)| - |s.disk.tmp.value|);
    }
    r := Next(w, s, e).value;
  }

  lemma BlockGoesOn(w: World, k: u32, enough: bool, s: State) returns (r: State)
    requires Course(w, k, enough, s) && s.pc.Recv? && s.pc.n < s.total == |w.f| && Boundary(w.f, s.pc.n)
    ensures Next(w, s, Event.Block(0)) == Some(r) && Rank(w, r.pc) < Rank(w, s.pc)
  {
    hide Inv, Blocks, BlockFromImage, Boundary;
    NextBlock(w, s.pc.n);
    r := BlockStep(w, s, 0).value;
    CourseBlock(w, k, enough, s, 0, r);
    BlockAhead(w, s, r);
  }

  lemma BlockAhead(w: World, s: State, r: State)
    requires BlockStep(w, s, 0) == Some(r) && r.pc.Writing?
    ensures r.pc.n == s.pc.n
  {
    hide BlockFromImage;
  }

  /** So it can be run to its end. */
  lemma {:induction false} SessionEnds(w: World, k: u32, enough: bool, s: State) returns (events: seq<Event>, r: State)
    requires Placeable(w) && Course(w, k, enough, s)
    ensures AllUndisturbed(events) && Run(w, s, events) == Some(r) && r.pc.Idle?
    decreases Rank(w, s.pc)
  {
    hide Course, Next, Rank;
    if s.pc.Idle? {
      events, r := [], s;
    } else {
      var e, t := CanGoOn(w, k, enough, s);
      CourseStep(w, k, enough, s, e, t);
      events, r := SessionEnds(w, k, enough, t);
      RunCons(w, s, e, t, events);
      events := [e] + events;
    }
  }

  /** A session that has started on its course can end, and ends on it. */
  lemma SessionRuns(w: World, s: State, first: Event, k: u32, enough: bool, s1: State)
    requires Placeable(w) && Next(w, s, first) == Some(s1) && Course(w, k, enough, s1)
    ensures CanEnd(w, s, first)
    ensures forall events, r :: Ends(w, s, first, events, r) ==> Course(w, k, enough, r)
  {
    hide Run, Next, Course;
    var some, end := SessionEnds(w, k, enough, s1);
    RunCons(w, s, first, s1, some);
    assert Ends(w, s, first, some, end);
    forall events, r | Ends(w, s, first, events, r) ensures Course(w, k, enough, r) {
      RunCons(w, s, first, s1, events);
      CourseRuns(w, k, enough, s1, events, r);
    }
  }

  /** A `get` on an empty connection starts on the course. */
  lemma GetCourse(w: World, s: State) returns (k: u32, s1: State)
    requires Inv(w, s) && s.pc.Idle? && s.line.live && s.line.unread == []
    ensures Next(w, s, Get(FULL)) == Some(s1) && Course(w, k, true, s1)
  {
    hide ParseMeta, MetaText, MetaOk, TallyOk, Slack, Served, Blocks, Own, ErrorHeader;
    k := ResumeOffset(w, s.disk);
    s1 := Asked(w, s, k, FULL);
    GetKeeps(w, s, FULL);
    ResumeInside(w, s);
    assert [] + Served(w.o, Some(w.f), k) == Served(w.o, Some(w.f), k);
    hide ResumeOffset;
  }

  /** A `get` on an empty connection, when nothing fails: it can be run to its
      end, and every way it goes ends with the file in place. */
  lemma GetDelivers(w: World, s: State)
    requires Placeable(w) && Inv(w, s) && s.pc.Idle? && s.line.live && s.line.unread == []
    ensures CanEnd(w, s, Get(FULL))
    ensures forall events, r :: Ends(w, s, Get(FULL), events, r) ==> Done(w, r)
  {
    var k, s1 := GetCourse(w, s);
    hide Run, Next, Inv;
    SessionRuns(w, s, Get(FULL), k, true, s1);
  }

  /** A session of the start-up scan, when nothing fails. */
  lemma ResumeDelivers(w: World, s: State, k: nat)
    requires Placeable(w) && CanResume(w, s, k)
    ensures k <= |w.f| && CanEnd(w, s, AutoResume(FULL))
    ensures forall events, r :: Ends(w, s, AutoResume(FULL), events, r) ==> Course(w, k, Len(s.disk.part) >= k, r)
  {
    var s1 := Resumes(w, s, k, FULL);
    hide Inv, Listed, Served, Blocks, Recorded;
    StepKeeps(w, s, AutoResume(FULL));
    assert Course(w, k, Len(s.disk.part) >= k, s1);
    hide CanResume, Course, Next;
    SessionRuns(w, s, AutoResume(FULL), k, Len(s.disk.part) >= k, s1);
  }

  /** When nothing fails and no other command comes between them, the start-up
      scan and a `get` after it can be run to their ends, and however they go,
      the final path ends with one of these contents. */
  ghost predicate StartThenGet(w: World, s: State, contents: iset<Option<bytes>>)
  {
    && CanEnd(w, s, AutoResume(FULL))
    && forall a, t :: Ends(w, s, AutoResume(FULL), a, t) ==>
         && CanEnd(w, t, Get(FULL))
         && forall b, r :: Ends(w, t, Get(FULL), b, r) ==> r.disk.final in contents
  }

  /** The server's file is put in place. */
  ghost predicate Delivered(w: World, s: State)
  {
    StartThenGet(w, s, iset{Some(w.f)})
  }

  /** Nothing else than the server's file replaces what was there. */
  ghost predicate Protected(w: World, s: State)
  {
    StartThenGet(w, s, iset{w.before, Some(w.f)})
  }

  /** Another file of the same length, with as much of it received and the same
      offset recorded. */
  ghost predicate Alike(w: World, s: State, k: nat, w': World, s': State)
  {
    && Placeable(w') && CanResume(w', s', k) && w'.before == w.before
    && |w'.f| == |w.f| && Len(s'.disk.part) == Len(s.disk.part)
  }

  /** When the offset recorded is reached by `.part`, or is the end of the
      file, the connection is empty after the scan and the `get` delivers. */
  lemma GuardedStart(w: World, s: State, k: nat, contents: iset<Option<bytes>>)
    requires Placeable(w) && CanResume(w, s, k)
    requires k == |w.f| || Len(s.disk.part) >= k
    requires Some(w.f) in contents
    ensures StartThenGet(w, s, contents)
  {
    hide Run, Inv, Next, CanResume, CanEnd, AllUndisturbed;
    ResumeDelivers(w, s, k);
    forall a, t | Ends(w, s, AutoResume(FULL), a, t)
      ensures CanEnd(w, t, Get(FULL)) && forall b, r :: Ends(w, t, Get(FULL), b, r) ==> r.disk.final in contents
    {
      GetDelivers(w, t);
    }
  }

  /** The same state over a file of zeros. */
  function ZeroTwin(w: World, s: State): (World, State) {
    var zeros := Zeros(|w.f|);
    (w.(f := zeros),
     s.(disk := s.disk.(final := if s.tally.completions > 0 then Some(zeros) else w.before)))
  }

  lemma TwinAlike(w: World, s: State, k: nat)
    requires Placeable(w) && CanResume(w, s, k) && Len(s.disk.part) < k < |w.f|
    ensures var (w', s') := ZeroTwin(w, s); Alike(w, s, k, w', s')
  {
    hide ParseMeta, MetaText, Served, Blocks, ErrorHeader, Listed;
  }

  /** Otherwise the scan leaves blocks on the connection, and for a file of
      zeros the `get` ends with an empty file in place. */
  lemma UnguardedStart(w: World, s: State, k: nat, contents: iset<Option<bytes>>)
    requires Placeable(w) && CanResume(w, s, k) && w.f == Zeros(|w.f|)
    requires Len(s.disk.part) < k < |w.f| && Some([]) !in contents
    ensures !StartThenGet(w, s, contents)
  {
    hide Run, Guarded, Inv, Listed, Recorded, Blocks, EmptyGet, ShortResume, Zeroed, Zeros, AllUndisturbed;
    var t := ShortLeaves(w, s, k);
    ZeroBlock(w.o, w.f, k, BlockNumber(k));
    FromTheStart(w, s.disk, t.disk, k);
    var r := EmptyFile(w, t);
    UndisturbedSteps(w);
    assert Ends(w, s, AutoResume(FULL), ShortResume()[1..], t);
    assert Ends(w, t, Get(FULL), EmptyGet(w)[1..], r);
  }

  lemma UndisturbedSteps(w: World)
    ensures AllUndisturbed(ShortResume()[1..]) && [AutoResume(FULL)] + ShortResume()[1..] == ShortResume()
    ensures AllUndisturbed(EmptyGet(w)[1..]) && [Get(FULL)] + EmptyGet(w)[1..] == EmptyGet(w)
  {
    hide MetaText;
  }

  /** The guard is exact. Whatever the file's content, as long as its length,
      the length of `.part`, the offset recorded and what was there before stay
      the same: a start and a `get` after it put the file in place if and only
      if `.part` reaches the offset or the offset is the end of the file; and
      unless an empty file was there before, that is also exactly when they
      put nothing else in place. */
  lemma StartThenGetExact(w: World, s: State, k: nat)
    requires Placeable(w) && CanResume(w, s, k)
    ensures (k == |w.f| || Len(s.disk.part) >= k)
       <==> forall w': World, s': State :: Alike(w, s, k, w', s') ==> Delivered(w', s')
    ensures w.before != Some([]) ==>
              ((k == |w.f| || Len(s.disk.part) >= k)
               <==> forall w': World, s': State :: Alike(w, s, k, w', s') ==> Protected(w', s'))
  {
    hide CanResume, StartThenGet;
    if k == |w.f| || Len(s.disk.part) >= k {
      forall w': World, s': State | Alike(w, s, k, w', s')
        ensures Delivered(w', s') && Protected(w', s')
      {
        GuardedStart(w', s', k, iset{Some(w'.f)});
        GuardedStart(w', s', k, iset{w'.before, Some(w'.f)});
      }
    } else {
      assert k <= |w.f| by { var s1 := Resumes(w, s, k, FULL); }
      var (w', s') := ZeroTwin(w, s);
      TwinAlike(w, s, k);
      assert |w'.f| > 0;
      UnguardedStart(w', s', k, iset{Some(w'.f)});
      assert !Delivered(w', s');
      if w.before != Some([]) {
        UnguardedStart(w', s', k, iset{w'.before, Some(w'.f)});
        assert !Protected(w', s');
      }
    }
  }

  // ------------------------------------------------ which steps leave blocks

  /** How far the session has read. */
  function Position(w: World, pc: Pc): nat {
    match pc
    case MakeDirs(k) => k
    case OpenPart(k) => k
    case Opened(k) => k
    case MetaOpen(_, n) => n
    case MetaPrint(_, n) => n
    case MetaRename(_, n) => n
    case Recv(_, n) => n
    case Writing(_, n, data, _) => n + |data|
    case _ => |w.f|
  }

  /** The step ends a session while blocks follow, or another command leaves
      something: `.part` is too short, the directories cannot be made, or a
      local call fails. */
  predicate Untidy(w: World, s: State, e: Event) {
    match e
    case Other(line) => line.unread != []
    case Go => Position(w, s.pc) < |w.f| && ((s.pc.Opened? && Len(s.disk.part) < s.pc.k)
                                             || (s.pc.MakeDirs? && w.above.Blocked?))
    case Fail => Position(w, s.pc) < |w.f|
    case _ => false
  }

  ghost predicate Tidy(w: World, s: State, events: seq<Event>)
  {
    events == [] ||
    var init := events[..|events| - 1];
    && Tidy(w, s, init)
    && match Run(w, s, init)
       case None => true
       case Some(r) => !Untidy(w, r, events[|events| - 1])
  }

  /** Between sessions there is nothing on the connection. */
  ghost predicate Empty(s: State) {
    s.pc.Idle? || s.pc.Purge? || s.pc.PurgeMeta? || s.pc.Down? ==> s.line.unread == []
  }

  lemma TidyStep(w: World, s: State, e: Event, r: State)
    requires Inv(w, s) && Empty(s) && !Untidy(w, s, e) && Next(w, s, e) == Some(r)
    ensures StartsClean(s, e) && Empty(r)
  {
    hide Inv, ParseMeta, MetaText, HeaderFromImage, BlockFromImage, ResumeOffset, ScannedOffset, Listed, Answered;
    match e {
      case Header(held) => TidyHeader(w, s, held, r);
      case Block(held) => TidyBlock(w, s, held, r);
      case Go =>
        AtEnd(w, s);
        PartBelow(w, s);
      case Fail => AtEnd(w, s);
      case _ =>
    }
  }

  /** A session that has read its last block has read everything. */
  lemma AtEnd(w: World, s: State)
    requires Inv(w, s)
    ensures Position(w, s.pc) >= |w.f| && Active(s.pc) && !s.pc.Await? && !s.pc.Purge? && !s.pc.PurgeMeta? ==>
              s.line.unread == []
    ensures s.pc.Recv? ==> s.total == |w.f|
  {
    hide MetaOk, TallyOk, Safe, PcOk;
  }

  lemma TidyHeader(w: World, s: State, held: nat, r: State)
    requires Inv(w, s) && HeaderStep(w, s, held) == Some(r)
    ensures Empty(r)
  {
    hide MetaOk, TallyOk, Safe, HeaderImage, HeaderFromImage, Blocks, MetaText, ErrorHeader;
    var (k, u) := (s.pc.k, s.line.unread);
    if |u| >= HEADER_BYTES {
      OwnHeader(w, k, u);
    }
  }

  lemma TidyBlock(w: World, s: State, held: nat, r: State)
    requires Inv(w, s) && BlockStep(w, s, held) == Some(r)
    ensures Empty(r)
  {
    hide MetaOk, TallyOk, Safe, BlockFromImage, MetaText, Coming;
    if |s.line.unread| >= BLOCK_BYTES {
      OwnBlock(w, s.pc.n, s.line.unread);
    }
  }

  /** A caller can see to it: a run without untidy steps is guarded. */
  lemma {:induction false} TidyIsGuarded(w: World, events: seq<Event>, r: State)
    requires Run(w, Fresh(w), events) == Some(r) && Tidy(w, Fresh(w), events)
    ensures Guarded(w, Fresh(w), events) && Inv(w, r) && Empty(r)
    decreases |events|
  {
    hide Next, Inv, Untidy, StartsClean;
    if events == [] {
      FreshOk(w);
    } else {
      var init, last := events[..|events| - 1], events[|events| - 1];
      var s := Run(w, Fresh(w), init).value;
      TidyIsGuarded(w, init, s);
      TidyStep(w, s, last, r);
      StepKeeps(w, s, last);
    }
  }

  /** And an untidy step of a session leaves its blocks behind, unless its
      reader happens to hold them all. */
  lemma UntidyLeaves(w: World, s: State, e: Event, r: State)
    requires Untidy(w, s, e) && !e.Other? && Next(w, s, e) == Some(r) && s.line.held < |s.line.unread|
    ensures (!Active(r.pc) || r.pc.Purge?) && r.line.unread != []
  {
    hide MetaText, ParseMeta;
  }
}
