/**
 The client's download code, step by step on its disk and its connection. A
 list of fates says how the coming system calls go: they succeed, move only
 part of the data, fail, or the process dies there. Every call is recorded as
 an event, and the events always form a run of the machine in `Download`.
 */
module DownloadClient {
  import opened Bytes
  import opened Text
  import opened Wire
  import opened Rio
  import opened Transfer
  import opened Names
  import opened Download

  datatype Fate = Succeed | Partial(most: nat) | Failed | Killed

  datatype Status = Done | Error | Dead

  ghost predicate Smooth(fates: seq<Fate>) {
    Failed !in fates && Killed !in fates
  }

  /** What an honest slave holding `f` at `remote` sends for a request. */
  function SlaveSends(o: Order, f: bytes, remote: bytes, image: bytes): bytes
    requires IsFile(f) && |image| == REQUEST_BYTES
  {
    var (kind, path) := DecodeRequest(o, RequestFromImage(o, image));
    if kind == GET then Served(o, if path == remote then Some(f) else None, 0)
    else if kind == RESUME then
      match ParseResumeData(path)
      case None => ResponseImage(EncodeResponse(o, [], TYPE_ERROR_R))
      case Some((p, k)) => Served(o, if p == remote then Some(f) else None, k)
    else []
  }

  /** The request `perform_download` sends from an offset. */
  function DownloadRequest(o: Order, remote: bytes, k: u32): (image: bytes)
    ensures |image| == REQUEST_BYTES
  {
    RequestImage(o, if k > 0 then EncodeRequest(o, RESUME, ResumePayload(remote, k)) else EncodeRequest(o, GET, remote))
  }

  /** The server answers with the file from exactly the offset asked for. */
  lemma AnswerServes(o: Order, f: bytes, remote: bytes, k: u32)
    requires IsFile(f) && WellNamed(remote)
    ensures SlaveSends(o, f, remote, DownloadRequest(o, remote, k)) == Served(o, Some(f), k)
  {
    hide RequestImage, RequestFromImage, DecodeRequest, Served, ParseResumeData;
    if k > 0 {
      var data := ResumePayload(remote, k);
      DecimalLength(k);
      assert |data| < MAXLINE && IsCString(data);
      RequestRoundTrip(o, o, RESUME, data);
      assert data[..|data|] == data;
      ResumeRoundTrip(remote, k);
    } else {
      RequestRoundTrip(o, o, GET, remote);
      assert remote[..|remote|] == remote;
    }
  }

  /** What a user, the network, the disk and other commands can make of a
      client. A start comes with the entries of the client's directory, the
      answer to a resume of this path, and what the sessions of the scan's
      other entries leave on the connection. */
  datatype Action =
    | Start(plan: seq<CallEvent>, names: seq<bytes>, answer: Answer, others: seq<Line>)
    | Stop
    | GetCommand(answer: Answer)
    | OtherCommand(left: Line)

  class Client {
    /** The environment: only the slave's answers and what is found above the
        partial files depend on the rest of it. */
    const w: World
    const o: Order
    const remote: bytes

    // the disk
    var dirs: bool
    var final: Option<bytes>
    var part: Option<bytes>
    var meta: Option<bytes>
    var tmp: Option<bytes>

    var up: bool
    var fates: seq<Fate>

    /** `clientfd`, and whether the slave's answers still arrive on it. */
    var conn: Source
    var live: bool

    ghost var st: State
    ghost var events: seq<Event>
    /** Every session so far was started on an empty connection. */
    ghost var guarded: bool

    ghost predicate OnDisk(d: Disk)
      reads this
    {
      d == Disk(dirs, final, part, meta, tmp)
    }

    ghost predicate Valid()
      reads this
    {
      && w.o == o && w.remote == remote && OnDisk(st.disk) && (up <==> !st.pc.Down?)
      && Run(w, Fresh(w), events) == Some(st) && guarded == Guarded(w, Fresh(w), events)
    }

    /** The process is down, or waits for a command. */
    ghost predicate AtRest()
      reads this, conn
    {
      && Valid() && (st.pc.Idle? || st.pc.Down?)
      && (st.pc.Idle? ==> st.line == Line.Line(conn.unread, 0, live))
    }

    /** The session's reader stands where the machine says. */
    ghost predicate Reads(rio: Reader)
      reads this, rio, rio.buf, rio.fd
    {
      rio.fd == conn && rio.Valid() && st.line == Line.Line(rio.Remaining(), |rio.Buffered()|, live)
    }

    /** A disk on which this path was never downloaded; the process is down. */
    constructor (w: World, fates: seq<Fate>)
      ensures AtRest() && this.w == w && this.fates == fates && st == Fresh(w) && guarded && fresh(conn)
    {
      this.w, o, remote, this.fates := w, w.o, w.remote, fates;
      dirs, final, part, meta, tmp := w.above.Present?, w.before, None, None, None;
      conn := new Source([], []);
      live, up, st, events, guarded := false, false, Fresh(w), [], true;
    }

    /** Records an event whose effect on the disk has just been made. */
    ghost method Log(e: Event)
      requires w.o == o && w.remote == remote && Run(w, Fresh(w), events) == Some(st)
      requires guarded == Guarded(w, Fresh(w), events) && !e.Get? && (e.AutoResume? ==> !Starts(st, e))
      requires Next(w, st, e).Some? && OnDisk(Next(w, st, e).value.disk) && (up <==> !Next(w, st, e).value.pc.Down?)
      modifies this`st, this`events
      ensures Valid() && st == Next(w, old(st), e).value && events == old(events) + [e]
    {
      hide Next, StartsClean, Run, Guarded, Starts;
      NotStarting(e);
      RunSnoc(w, Fresh(w), events, e);
      events, st := events + [e], Next(w, st, e).value;
    }

    lemma NotStarting(e: Event)
      requires !e.Get? && (e.AutoResume? ==> !Starts(st, e))
      ensures StartsClean(st, e)
    {
    }

    /** Records the start of a session. */
    ghost method LogStart(e: Event)
      requires Valid() && Next(w, st, e).Some?
      requires Next(w, st, e).value.disk == st.disk && !Next(w, st, e).value.pc.Down? && up
      modifies this`st, this`events, this`guarded
      ensures Valid() && st == Next(w, old(st), e).value && guarded == (old(guarded) && StartsClean(old(st), e))
    {
      hide Next, StartsClean;
      RunSnoc(w, Fresh(w), events, e);
      guarded := guarded && StartsClean(st, e);
      events, st := events + [e], Next(w, st, e).value;
    }

    lemma Known()
      requires Valid() && guarded
      ensures Inv(w, st) && Safe(w, Disk(dirs, final, part, meta, tmp))
    {
      RunKeeps(w, events);
    }

    /** The process ends, killed or by `exit` in a wrapper. */
    method Exit()
      requires Valid() && !st.pc.Down?
      modifies this`up, this`st, this`events
      ensures Valid() && st.pc == Down && st.disk == old(st.disk)
    {
      hide Run, Guarded;
      up := false;
      Log(Crash);
    }

    /** How the next system call goes; a killed process is down. */
    method NextFate() returns (fate: Fate)
      requires Valid() && !st.pc.Down?
      modifies this`fates, this`up, this`st, this`events
      ensures Valid() && (forall x :: x in fates ==> x in old(fates))
      ensures fate.Killed? ==> Killed in old(fates) && st.pc == Down && st.disk == old(st.disk)
      ensures !fate.Killed? ==> st == old(st) && events == old(events)
      ensures fate.Failed? ==> Failed in old(fates)
    {
      hide Run, Guarded;
      if fates == [] {
        return Succeed;
      }
      fate := fates[0];
      fates := fates[1..];
      if fate.Killed? {
        Exit();
      }
    }

    /** The outcome of one side effect: the machine took `e`, or its failure
        step, or the process died. */
    twostate predicate Took(s: Status, e: Event)
      reads this
    {
      && Valid()
      && (s == Done ==> Some(st) == Next(w, old(st), e) && st.line == old(st.line) && st.total == old(st.total))
      && (s == Error ==> Some(st) == Next(w, old(st), Fail) && st.line == Left(old(st.line)))
      && (s == Dead ==> st.pc == Down)
      && (s != Done ==> !Smooth(old(fates)))
      && (Smooth(old(fates)) ==> Smooth(fates))
    }

    /** `ensure_parent_dirs` on the path of `.part`: a regular file above its
        directory makes it fail every time; one in the place of the directory
        goes unnoticed. */
    method EnsureParentDirs() returns (s: Status)
      requires Valid() && st.pc.MakeDirs?
      modifies this`fates, this`up, this`st, this`events, this`dirs
      ensures Valid() && (Smooth(old(fates)) ==> Smooth(fates) && s != Dead)
      ensures s == Done ==> st == old(st).(pc := OpenPart(old(st.pc.k)), disk := old(st.disk).(dirs := Placeable(w)))
      ensures s == Error ==> st.pc == AfterOne(old(st.pc.k)) && st.line == Left(old(st.line))
      ensures s == Error ==> st.disk == old(st.disk)
      ensures s == Dead ==> st.pc == Down
      ensures Smooth(old(fates)) ==> (s == Done <==> !w.above.Blocked?)
      ensures s == Done && old(Complete(st.pc.k)) ==> Complete(st.pc.k)
    {
      hide Run, Guarded, Boundary, Blocks, BlockNumber;
      var fate := NextFate();
      if fate.Killed? {
        return Dead;
      }
      if fate.Failed? {
        Log(Fail);
        return Error;
      }
      if w.above.Blocked? {
        Log(Go);
        return Error;
      }
      dirs := Placeable(w);
      Log(Go);
      return Done;
    }

    /** `Open(part_path, O_CREAT | O_WRONLY)`: a failure ends the process, and
        a regular file in the place of the directory is one. */
    method OpenPartFile() returns (s: Status)
      requires Valid() && st.pc.OpenPart?
      modifies this`fates, this`up, this`st, this`events, this`part
      ensures Valid() && s != Error && (Smooth(old(fates)) ==> Smooth(fates))
      ensures s == Done ==> st.line == old(st.line) && st.total == old(st.total)
      ensures s == Dead ==> st.pc == Down
      ensures Smooth(old(fates)) ==> (s == Done <==> !w.above.ParentIsFile?)
      ensures s == Done ==> st.pc == Opened(old(st.pc.k)) && part.Some? && Len(part) == Len(old(part))
      ensures s == Done && old(Complete(st.pc.k)) ==> Complete(st.pc.k)
    {
      hide Run, Guarded, Boundary, Blocks, BlockNumber;
      var fate := NextFate();
      if fate.Killed? {
        return Dead;
      }
      if fate.Failed? || w.above.ParentIsFile? {
        Exit();
        return Dead;
      }
      if part.None? {
        part := Some([]);
      }
      Log(Go);
      return Done;
    }

    /** `ftruncate(fd, offset)` on an open `.part` at least that long. */
    method TruncatePart(offset: u32) returns (s: Status)
      requires Valid() && st.pc == Opened(offset) && part.Some? && |part.value| % U32_LIMIT >= offset
      modifies this`fates, this`up, this`st, this`events, this`part
      ensures Took(s, Go)
      ensures s == Done ==> st.pc == MetaOpen(offset, offset) && part.Some?
      ensures s == Error ==> st.pc == AfterOne(offset)
    {
      hide Run, Guarded;
      var fate := NextFate();
      if fate.Killed? {
        return Dead;
      }
      if fate.Failed? {
        Log(Fail);
        return Error;
      }
      part := Some(part.value[..offset]);
      Log(Go);
      return Done;
    }

    /** `fopen(tmp_path, "w")`. */
    method OpenTmp() returns (s: Status)
      requires Valid() && st.pc.MetaOpen?
      modifies this`fates, this`up, this`st, this`events, this`tmp
      ensures Took(s, Go)
      ensures s == Done ==> st.pc == MetaPrint(old(st.pc.k), old(st.pc.n)) && tmp == Some([])
      ensures s == Error ==> st.pc == AfterOne(old(st.pc.k))
    {
      hide Run, Guarded;
      var fate := NextFate();
      if fate.Killed? {
        return Dead;
      }
      if fate.Failed? {
        Log(Fail);
        return Error;
      }
      tmp := Some([]);
      Log(Go);
      return Done;
    }

    /** One `write` of the text buffered by `fprintf`; a failure removes the
        temporary file. */
    method PutTmp(text: bytes) returns (s: Status, ghost c: nat)
      requires Valid() && st.pc.MetaPrint? && text == MetaText(w.remote, st.pc.n)
      requires tmp.Some? && tmp.value < text
      modifies this`fates, this`up, this`st, this`events, this`tmp
      ensures Took(s, Put(c))
      ensures s == Done ==>
                && tmp.Some? && old(tmp).value < tmp.value <= text
                && st.pc == (if |tmp.value| < |text| then old(st.pc) else MetaRename(old(st.pc.k), old(st.pc.n)))
      ensures s == Error ==> st.pc == AfterOne(old(st.pc.k))
    {
      hide Run, Guarded, MetaText;
      c := 0;
      var fate := NextFate();
      if fate.Killed? {
        return Dead, c;
      }
      if fate.Failed? {
        tmp := None;
        Log(Fail);
        return Error, c;
      }
      var from := |tmp.value|;
      var count := |text| - from;
      if fate.Partial? {
        count := Min(fate.most + 1, count);
      }
      tmp := Some(tmp.value + text[from..from + count]);
      c := count;
      Log(Put(count));
      return Done, c;
    }

    /** `rename(tmp_path, meta_path)`; a failure removes the temporary file. */
    method RenameTmp() returns (s: Status)
      requires Valid() && st.pc.MetaRename?
      modifies this`fates, this`up, this`st, this`events, this`tmp, this`meta
      ensures Took(s, Go)
      ensures s == Done ==> st.pc == Recv(old(st.pc.k), old(st.pc.n))
      ensures s == Error ==> st.pc == AfterOne(old(st.pc.k))
    {
      hide Run, Guarded;
      var fate := NextFate();
      if fate.Killed? {
        return Dead;
      }
      if fate.Failed? {
        tmp := None;
        Log(Fail);
        return Error;
      }
      meta, tmp := tmp, None;
      Log(Go);
      return Done;
    }

    /** One `write` of what is left of a block to `.part`. */
    method PutPart(data: bytes) returns (s: Status, c: nat)
      requires Valid() && st.pc.Writing? && part.Some? && data != []
      requires st.pc.j <= |st.pc.data| && data == st.pc.data[st.pc.j..]
      modifies this`fates, this`up, this`st, this`events, this`part
      ensures Took(s, Put(c)) && (s == Done ==> 0 < c <= |data|)
    {
      hide Run, Guarded;
      ghost var (block, j) := (st.pc.data, st.pc.j);
      c := |data|;
      var fate := NextFate();
      if fate.Killed? {
        return Dead, c;
      }
      if fate.Failed? {
        Log(Fail);
        return Error, c;
      }
      if fate.Partial? {
        c := Min(fate.most + 1, c);
      }
      SliceOfRest(block, j, c);
      part := Some(part.value + data[..c]);
      Log(Put(c));
      return Done, c;
    }

    /** `rename(part_path, final_path)`. */
    method RenamePart() returns (s: Status)
      requires Valid() && st.pc.Recv? && st.pc.n >= st.total
      modifies this`fates, this`up, this`st, this`events, this`part, this`final
      ensures Took(s, Go) && (s != Done ==> final == old(final))
      ensures s == Done ==> st.pc == Finalized
      ensures s == Error ==> st.pc == AfterOne(old(st.pc.k))
    {
      hide Run, Guarded;
      var fate := NextFate();
      if fate.Killed? {
        return Dead;
      }
      if fate.Failed? {
        Log(Fail);
        return Error;
      }
      final, part := part, None;
      Log(Go);
      return Done;
    }

    /** `unlink(meta_path)` after the final rename; its result is ignored. */
    method UnlinkMeta() returns (s: Status)
      requires Valid() && st.pc.Finalized?
      modifies this`fates, this`up, this`st, this`events, this`meta
      ensures Valid() && (Smooth(old(fates)) ==> Smooth(fates) && s == Done)
      ensures if s == Dead then st.pc == Down else st.pc == Idle && st.line == Left(old(st.line))
      ensures s == Done ==> meta.None?
    {
      hide Run, Guarded;
      var fate := NextFate();
      if fate.Killed? {
        return Dead;
      }
      if fate.Failed? {
        Log(Fail);
        return Error;
      }
      meta := None;
      Log(Go);
      return Done;
    }

    /** `remove_partial_files`: removes what is there. */
    method RemovePartialFiles() returns (dead: bool)
      requires Valid() && st.pc.Purge?
      modifies this`fates, this`up, this`st, this`events, this`part, this`meta
      ensures Valid() && (Smooth(old(fates)) ==> Smooth(fates) && !dead)
      ensures if dead then st.pc == Down else st.pc == Idle && part.None? && meta.None? && st.line == old(st.line)
    {
      hide Run, Guarded, Next;
      PurgeSteps(w, st);
      var fate := NextFate();
      if fate.Killed? {
        return true;
      }
      part := None;
      Log(Go);
      fate := NextFate();
      if fate.Killed? {
        return true;
      }
      meta := None;
      Log(Go);
      return false;
    }

    /** `write_part_meta`: 0, or 1 on a failure, or EXITED. */
    method WritePartMeta(offset: u32) returns (r: int)
      requires Valid() && st.pc.MetaOpen? && st.pc.n == offset
      modifies this`fates, this`up, this`st, this`events, this`tmp, this`meta
      ensures Valid() && (Smooth(old(fates)) ==> Smooth(fates) && r == 0)
      ensures r == 0 || r == 1 || r == EXITED
      ensures r == 0 ==> st.pc == Recv(old(st.pc.k), offset) && st.line == old(st.line) && st.total == old(st.total)
      ensures r == 1 ==> st.pc == AfterOne(old(st.pc.k)) && st.line == Left(old(st.line))
      ensures r == EXITED ==> st.pc == Down
    {
      hide Run, Guarded, Next, MetaText;
      ghost var k := st.pc.k;
      var s := OpenTmp();
      if s != Done {
        return if s == Dead then EXITED else 1;
      }
      var text := MetaText(remote, offset);
      while |tmp.value| < |text|
        invariant Valid() && (Smooth(old(fates)) ==> Smooth(fates))
        invariant tmp.Some? && tmp.value <= text
        invariant st.pc == (if |tmp.value| < |text| then MetaPrint(k, offset) else MetaRename(k, offset))
        invariant st.line == old(st.line) && st.total == old(st.total)
      {
        ghost var before := tmp.value;
        ghost var c;
        s, c := PutTmp(text);
        if s != Done {
          return if s == Dead then EXITED else 1;
        }
      }
      s := RenameTmp();
      return if s == Done then 0 else if s == Dead then EXITED else 1;
    }

    /** `rio_writen` of a block's data to `.part`: the number of bytes, -1 on
        a failure, or -2 when the process died. */
    method WriteBlock(data: bytes, ghost k: u32, ghost n: u32) returns (r: int)
      requires Valid() && part.Some?
      requires st.pc == if data == [] then MetaOpen(k, n) else Writing(k, n, data, 0)
      modifies this`fates, this`up, this`st, this`events, this`part
      ensures Valid() && (Smooth(old(fates)) ==> Smooth(fates) && r == |data|)
      ensures r == |data| || r == -1 || r == -2
      ensures r == |data| ==>
                && st.pc == MetaOpen(k, if data == [] then n else Count(n, |data|)) && st.line == old(st.line)
                && st.total == old(st.total) && part == Some(old(part).value + data)
      ensures r == -1 ==> st.pc == AfterOne(k) && st.line == Left(old(st.line))
      ensures r == -2 ==> st.pc == Down
    {
      hide Run, Guarded, Next;
      var done: nat := 0;
      Nothing(part.value, data);
      while done < |data|
        invariant Valid() && (Smooth(old(fates)) ==> Smooth(fates))
        invariant done <= |data|
        invariant part == Some(old(part).value + data[..done])
        invariant st.pc == (if done < |data| then Writing(k, n, data, done)
                            else MetaOpen(k, if data == [] then n else Count(n, |data|)))
        invariant st.line == old(st.line) && st.total == old(st.total)
      {
        var s, c := PutPart(data[done..]);
        BlockWritten(w, k, n, data, done, c);
        if s != Done {
          return if s == Dead then -2 else -1;
        }
        Extends(old(part).value, data, done, c);
        done := done + c;
      }
      assert data[..done] == data;
      return |data|;
    }

    /** One round's effects: the data, then the meta file. */
    method StoreBlock(data: bytes, received: u32, ghost k: u32, ghost n: u32) returns (code: int)
      requires Valid() && part.Some? && received == if data == [] then n else Count(n, |data|)
      requires st.pc == if data == [] then MetaOpen(k, n) else Writing(k, n, data, 0)
      modifies this`fates, this`up, this`st, this`events, this`part, this`tmp, this`meta
      ensures Valid() && (Smooth(old(fates)) ==> Smooth(fates) && code == NO_ERROR_R)
      ensures code == NO_ERROR_R || code == LOCAL_ERROR || code == EXITED
      ensures code == NO_ERROR_R ==>
                st.pc == Recv(k, received) && st.line == old(st.line) && st.total == old(st.total) && part.Some?
      ensures code == LOCAL_ERROR ==> st.pc == AfterOne(k) && st.line == Left(old(st.line))
      ensures code == EXITED ==> st.pc == Down
      ensures old(Complete(received)) ==> Complete(received)
    {
      hide Valid, Run, Guarded, Next, Count, Boundary, Blocks, BlockNumber;
      var r := WriteBlock(data, k, n);
      if r != |data| {
        return if r == -2 then EXITED else LOCAL_ERROR;
      }
      r := WritePartMeta(received);
      if r != 0 {
        return if r == EXITED then EXITED else LOCAL_ERROR;
      }
      return NO_ERROR_R;
    }

    /** All blocks from `n` on are there to be read, and nothing fails. */
    ghost predicate Complete(n: u32)
      reads this, conn
    {
      && Smooth(fates) && conn.Healthy() && st.total == |w.f| && Boundary(w.f, n)
      && st.line.unread == Blocks(o, w.f, n, BlockNumber(n))
    }

    /** The whole answer to the session's own request is there to be read, and
        nothing fails. */
    ghost predicate CompleteAnswer(k: u32)
      reads this, conn
    {
      Smooth(fates) && conn.Healthy() && st.line.unread == Served(o, Some(w.f), k)
    }

    /** The connection of a client between two sessions. */
    ghost predicate Rests()
      reads this, conn
    {
      st.line == Line.Line(conn.unread, 0, live)
    }

    /** A reader that goes leaves what it has not taken off the connection. */
    lemma LeavesUnread(rio: Reader)
      requires Reads(rio)
      ensures Left(st.line) == Line.Line(conn.unread, 0, live)
    {
    }

    /** What a reader has not handed out. */
    lemma LineIs(rio: Reader)
      requires rio.Valid() && rio.fd == conn
      ensures |rio.Buffered()| <= |rio.Remaining()| && rio.Remaining()[|rio.Buffered()|..] == conn.unread
      ensures rio.Remaining() == [] ==> conn.unread == []
    {
    }

    /** The connection has ended. */
    method HangUp()
      requires Valid()
      modifies this`live
      ensures Valid() && !live
    {
      live := false;
    }

    /** A block, or the end of the connection in its place, is recorded. */
    ghost method LogBlock(rio: Reader)
      requires Valid() && st.pc.Recv? && st.pc.n < st.total && rio.Valid() && rio.fd == conn
      requires if |st.line.unread| < BLOCK_BYTES then rio.Remaining() == [] && !live
               else st.line.unread[BLOCK_BYTES..] == rio.Remaining() && |rio.Buffered()| < RIO_BUFSIZE
                    && st.line.live == live
      modifies this`st, this`events
      ensures Valid()
      ensures |old(st.line.unread)| < BLOCK_BYTES ==> st.pc == Idle && Rests()
      ensures |old(st.line.unread)| >= BLOCK_BYTES ==>
                var b := BlockFromImage(o, old(st.line.unread)[..BLOCK_BYTES]);
                var (k, n) := old((st.pc.k, st.pc.n));
                if b.size > BLOCK_SIZE || Count(n, b.size) > old(st.total) then st.pc == Idle && Rests()
                else
                  var data := b.data[..b.size];
                  && st.pc == (if data == [] then MetaOpen(k, n) else Writing(k, n, data, 0))
                  && Reads(rio) && st.total == old(st.total) && st.disk == old(st.disk)
    {
      hide Run, Guarded, Next, BlockFromImage, Count, Reader.Remaining, Reader.Buffered;
      LineIs(rio);
      if |st.line.unread| < BLOCK_BYTES {
        BlockMissing(w, st);
        Log(Event.Block(0));
      } else {
        BlockTaken(w, st, |rio.Buffered()|);
        Log(Event.Block(|rio.Buffered()|));
      }
    }

    /** `receive_data_block` and the checks after it: the code to return, or
        the block's data and the new count. */
    method TakeBlock(rio: Reader, totalSize: u32, ghost k: u32, n: u32) returns (code: int, data: bytes, sum: u32)
      requires Valid() && st.pc == Recv(k, n) && n < totalSize == st.total && Reads(rio)
      modifies this`up, this`live, this`st, this`events, rio, rio.buf, rio.fd
      ensures Valid() && (old(conn.Healthy()) ==> conn.Healthy())
      ensures code == EXITED ==> st.pc == Down && !old(conn.Healthy())
      ensures code != EXITED ==>
                var u := old(st.line.unread);
                if |u| < BLOCK_BYTES then code == CLIENT_DISCONNECTED_R
                else
                  var b := BlockFromImage(o, u[..BLOCK_BYTES]);
                  if b.size > BLOCK_SIZE || (n + b.size) % U32_LIMIT > totalSize then code == TYPE_ERROR_R
                  else code == NO_ERROR_R && data == b.data[..b.size] && st.line.unread == u[BLOCK_BYTES..]
      ensures code == NO_ERROR_R ==>
                && st.pc == (if data == [] then MetaOpen(k, n) else Writing(k, n, data, 0))
                && sum == (if data == [] then n else Count(n, |data|))
                && st.total == totalSize && Reads(rio) && |st.line.unread| < |old(st.line.unread)|
      ensures code != EXITED && code != NO_ERROR_R ==> code != LOCAL_ERROR && st.pc == Idle && Rests()
      ensures old(Complete(n)) ==> code == NO_ERROR_R && Complete(sum) && live == old(live)
    {
      hide Run, Guarded, Next, Inv, Blocks, BlockFromImage, Count, Reader.Remaining, Reader.Buffered;
      data, sum := [], n;
      if Complete(n) {
        NextBlock(w, n);
        CountWithin(w.f, n);
      }
      var exited, got := ReceiveDataBlock(o, rio);
      if exited {
        Exit();
        return EXITED, data, sum;
      }
      if got.None? {
        HangUp();
        LogBlock(rio);
        return CLIENT_DISCONNECTED_R, data, sum;
      }
      LogBlock(rio);
      var block := got.value;
      CountIs(n, block.size);
      sum := Count(n, block.size);
      if block.size > BLOCK_SIZE || sum > totalSize {
        return TYPE_ERROR_R, data, sum;
      }
      return NO_ERROR_R, block.data[..block.size], sum;
    }

    /** One round of the receive loop. */
    method ReceiveRound(rio: Reader, totalSize: u32, ghost k: u32, n: u32) returns (code: int, sum: u32)
      requires Valid() && st.pc == Recv(k, n) && n < totalSize == st.total && Reads(rio) && part.Some?
      modifies this`fates, this`up, this`st, this`events, this`part, this`tmp, this`meta, this`live
      modifies rio, rio.buf, rio.fd
      ensures Valid() && (Smooth(old(fates)) ==> Smooth(fates))
      ensures code == EXITED ==> st.pc == Down
      ensures code == LOCAL_ERROR ==> st.pc == AfterOne(k) && Rests()
      ensures code == NO_ERROR_R ==> st.pc == Recv(k, sum) && st.total == totalSize && Reads(rio) && part.Some?
      ensures code == NO_ERROR_R ==> |st.line.unread| < |old(st.line.unread)|
      ensures code != EXITED && code != LOCAL_ERROR && code != NO_ERROR_R ==> st.pc == Idle && Rests()
      ensures old(Complete(n)) ==> code == NO_ERROR_R && Complete(sum) && live == old(live)
      ensures old(conn.Healthy()) ==> conn.Healthy()
      ensures code == EXITED || code == LOCAL_ERROR ==> !Smooth(old(fates)) || !old(conn.Healthy())
      ensures code != EXITED && code != LOCAL_ERROR ==>
                Receive(o, old(st.line.unread), totalSize, n).code
                == if code == NO_ERROR_R then Receive(o, st.line.unread, totalSize, sum).code else code
    {
      hide Valid, Run, Guarded, Next, Left, Complete, Count, Receive, BlockFromImage, Reader.Remaining, Reader.Buffered;
      ghost var u := st.line.unread;
      var data;
      code, data, sum := TakeBlock(rio, totalSize, k, n);
      RoundReceived(u, totalSize, n);
      if code != NO_ERROR_R {
        return;
      }
      CountIs(n, |data|);
      LeavesUnread(rio);
      CompleteIsSmooth(sum);
      code := StoreBlock(data, sum, k, n);
    }

    /** One round, in terms of the plain receive loop. */
    lemma RoundReceived(u: bytes, totalSize: u32, n: u32)
      requires n < totalSize
      ensures Receive(o, u, totalSize, n).code
           == if |u| < BLOCK_BYTES then CLIENT_DISCONNECTED_R as int
              else
                var b := BlockFromImage(o, u[..BLOCK_BYTES]);
                var sum := (n + b.size) % U32_LIMIT;
                if b.size > BLOCK_SIZE || sum > totalSize then TYPE_ERROR_R as int
                else Receive(o, u[BLOCK_BYTES..], totalSize, sum).code
    {
      hide BlockFromImage;
    }

    /** The receive loop with the meta file as its progress callback, on any
        stream: when nothing local fails, it returns what the loop without a
        callback does. */
    method ReceiveBlocks(rio: Reader, totalSize: u32, startOffset: u32) returns (code: int)
      requires Valid() && st.pc == Recv(startOffset, startOffset) && st.total == totalSize && Reads(rio) && part.Some?
      modifies this`fates, this`up, this`st, this`events, this`part, this`tmp, this`meta, this`live
      modifies rio, rio.buf, rio.fd
      ensures Valid() && (Smooth(old(fates)) ==> Smooth(fates))
      ensures code == EXITED ==> st.pc == Down
      ensures code == LOCAL_ERROR ==> st.pc == AfterOne(startOffset) && Rests()
      ensures code == NO_ERROR_R ==>
                st.pc.Recv? && st.pc.k == startOffset && st.pc.n >= totalSize == st.total && Reads(rio) && part.Some?
      ensures code != EXITED && code != LOCAL_ERROR && code != NO_ERROR_R ==> st.pc == Idle && Rests()
      ensures old(Complete(startOffset)) ==>
                code == NO_ERROR_R && Complete(st.pc.n) && st.pc.n == totalSize && live == old(live)
      ensures code == EXITED || code == LOCAL_ERROR ==> !Smooth(old(fates)) || !old(conn.Healthy())
      ensures code != EXITED && code != LOCAL_ERROR ==> code == Receive(o, old(st.line.unread), totalSize, startOffset).code
    {
      hide Valid, Run, Guarded, Next, Inv, Blocks, Receive, Reader.Remaining, Reader.Buffered;
      var totalReceived: u32 := startOffset;
      while totalReceived < totalSize
        invariant Valid() && st.pc == Recv(startOffset, totalReceived) && st.total == totalSize && part.Some?
        invariant rio.fd == conn && Reads(rio)
        invariant Smooth(old(fates)) ==> Smooth(fates)
        invariant old(Complete(startOffset)) ==> Complete(totalReceived) && live == old(live)
        invariant old(Complete(startOffset)) && startOffset <= totalSize ==> totalReceived <= totalSize
        invariant old(conn.Healthy()) ==> conn.Healthy()
        invariant Receive(o, old(st.line.unread), totalSize, startOffset).code
               == Receive(o, st.line.unread, totalSize, totalReceived).code
        decreases |st.line.unread|
      {
        var sum;
        code, sum := ReceiveRound(rio, totalSize, startOffset, totalReceived);
        if code != NO_ERROR_R {
          return;
        }
        totalReceived := sum;
      }
      ReceiveDone(o, st.line.unread, totalSize, totalReceived);
      return NO_ERROR_R;
    }

    /** The header, or the end of the connection in its place, is recorded. */
    ghost method LogHeader(rio: Reader)
      requires Valid() && st.pc.Await? && rio.Valid() && rio.fd == conn
      requires if |st.line.unread| < HEADER_BYTES then rio.Remaining() == [] && !live
               else st.line.unread[HEADER_BYTES..] == rio.Remaining() && |rio.Buffered()| < RIO_BUFSIZE
                    && st.line.live == live
      modifies this`st, this`events
      ensures Valid() && st.disk == old(st.disk)
      ensures |old(st.line.unread)| < HEADER_BYTES ==> st.pc == AfterOne(old(st.pc.k)) && Rests()
      ensures |old(st.line.unread)| >= HEADER_BYTES ==>
                var h := HeaderFromImage(o, old(st.line.unread)[..HEADER_BYTES]);
                if h.error != NO_ERROR_R then st.pc == AfterError(old(st.pc.k), h.error) && Rests()
                else if old(st.pc.k) > h.total then st.pc == Idle && Rests()
                else st.pc == MakeDirs(old(st.pc.k)) && st.total == h.total && Reads(rio)
    {
      hide Run, Guarded, Next, HeaderFromImage, Reader.Remaining, Reader.Buffered;
      LineIs(rio);
      if |st.line.unread| < HEADER_BYTES {
        HeaderMissing(w, st);
        Log(Event.Header(0));
      } else {
        HeaderTaken(w, st, |rio.Buffered()|);
        Log(Event.Header(|rio.Buffered()|));
      }
    }

    /** What the invariant says of the session under way. */
    lemma StartInside()
      requires Valid() && guarded && (st.pc.Await? || st.pc.Opened?)
      ensures Boundary(w.f, st.pc.k) && st.pc.k <= |w.f| && Len(part) < U32_LIMIT
    {
      hide MetaOk, TallyOk, Fed;
      Known();
    }

    lemma FinalIs()
      requires Valid() && guarded && st.pc.Finalized?
      ensures final == Some(w.f) && part.None?
    {
      hide MetaOk, TallyOk;
      Known();
    }

    /** What comes before the receive loop: the truncation and the first meta
        file. */
    method StartTransfer(startOffset: u32) returns (r: int)
      requires Valid() && st.pc == Opened(startOffset)
      requires part.Some? && |part.value| % U32_LIMIT >= startOffset
      modifies this`fates, this`up, this`st, this`events, this`part, this`tmp, this`meta
      ensures Valid() && (Smooth(old(fates)) ==> Smooth(fates) && r == 0)
      ensures r == 0 || r == LOCAL_ERROR || r == EXITED
      ensures r == 0 ==>
                st.pc == Recv(startOffset, startOffset) && st.line == old(st.line) && st.total == old(st.total) && part.Some?
      ensures r == LOCAL_ERROR ==> st.pc == AfterOne(startOffset) && st.line == Left(old(st.line))
      ensures r == EXITED ==> st.pc == Down
      ensures old(Complete(startOffset)) ==> Complete(startOffset)
    {
      hide Valid, Run, Guarded, Next, Boundary, Blocks, BlockNumber;
      var s := TruncatePart(startOffset);
      if s != Done {
        return if s == Dead then EXITED else LOCAL_ERROR;
      }
      r := WritePartMeta(startOffset);
    }

    /** What comes after it: the rename into place and the removal of the meta
        file. */
    method Publish() returns (r: int)
      requires Valid() && st.pc.Recv? && st.pc.n >= st.total
      modifies this`fates, this`up, this`st, this`events, this`part, this`final, this`meta
      ensures Valid() && (Smooth(old(fates)) ==> Smooth(fates) && r == NO_ERROR_R && meta.None?)
      ensures r == NO_ERROR_R || r == LOCAL_ERROR || r == EXITED
      ensures r == NO_ERROR_R ==> st.pc == Idle && st.line == Left(old(st.line))
      ensures r == NO_ERROR_R && guarded ==> final == Some(w.f) && part.None?
      ensures r == LOCAL_ERROR ==> st.pc == AfterOne(old(st.pc.k)) && st.line == Left(old(st.line)) && final == old(final)
      ensures r == EXITED ==> st.pc == Down
    {
      hide Valid, Run, Guarded, Next, Inv;
      var s := RenamePart();
      if s != Done {
        return if s == Dead then EXITED else LOCAL_ERROR;
      }
      if guarded {
        FinalIs();
      }
      s := UnlinkMeta();
      return if s == Dead then EXITED else NO_ERROR_R;
    }

    /** The rest of `receive_file_by_blocks_resume`: `.part` is open and long
        enough. */
    method FinishDownload(rio: Reader, totalSize: u32, startOffset: u32) returns (result: int)
      requires Valid() && st.pc == Opened(startOffset) && st.total == totalSize && Reads(rio)
      requires part.Some? && |part.value| % U32_LIMIT >= startOffset
      modifies this`final, this`part, this`meta, this`tmp, this`up, this`fates, this`live, this`st, this`events
      modifies rio, rio.buf, rio.fd
      ensures Valid() && (Smooth(old(fates)) ==> Smooth(fates))
      ensures result == EXITED ==> st.pc == Down
      ensures result == PATH_ERROR_R ==> st.pc == AfterOne(startOffset) && Rests()
      ensures result != EXITED && result != PATH_ERROR_R ==> st.pc == Idle && Rests()
      ensures result == NO_ERROR_R && guarded ==> final == Some(w.f) && part.None?
      ensures old(Complete(startOffset)) ==>
                result == NO_ERROR_R && meta.None? && conn.Healthy() && live == old(live) && conn.unread == []
      ensures result != NO_ERROR_R && result != EXITED ==> final == old(final)
      ensures Smooth(old(fates)) && old(conn.Healthy()) ==>
                result == Receive(o, old(st.line.unread), totalSize, startOffset).code
    {
      hide Valid, Run, Guarded, Next, Left, Complete, Receive, Reader.Remaining, Reader.Buffered;
      CompleteIsSmooth(startOffset);
      LeavesUnread(rio);
      result := StartTransfer(startOffset);
      if result != 0 {
        return;
      }
      result := ReceiveBlocks(rio, totalSize, startOffset);
      if result != NO_ERROR_R {
        return;
      }
      LeavesUnread(rio);
      AllTaken(rio);
      result := Publish();
    }

    lemma CompleteIsSmooth(n: u32)
      ensures Complete(n) ==> Smooth(fates)
    {
    }

    lemma AllTaken(rio: Reader)
      requires Reads(rio) && st.pc.Recv?
      ensures Complete(st.pc.n) && st.pc.n == st.total ==> conn.unread == [] && conn.Healthy() && Smooth(fates)
    {
    }

    /** What a whole answer starts with. */
    lemma AnswerStarts(k: u32)
      requires Valid() && st.pc == Await(k)
      ensures guarded && CompleteAnswer(k) ==>
                var u := st.line.unread;
                && Smooth(fates) && conn.Healthy() && |u| >= HEADER_BYTES && u[HEADER_BYTES..] == Blocks(o, w.f, k, BlockNumber(k))
                && var h := HeaderFromImage(o, u[..HEADER_BYTES]);
                   h.error == NO_ERROR_R && k <= h.total == |w.f| && Boundary(w.f, k)
    {
      hide Run, Guarded, Inv, Blocks, Boundary, Served, HeaderFromImage;
      if guarded {
        StartInside();
        WholeAnswer(w, k);
      }
    }

    /** `receive_transfer_header` and the two checks after it: the code to
        return, and the size announced. */
    method TakeHeader(rio: Reader, startOffset: u32) returns (code: int, totalSize: u32)
      requires Valid() && st.pc == Await(startOffset) && Reads(rio)
      modifies this`up, this`live, this`st, this`events, rio, rio.buf, rio.fd
      ensures Valid() && (old(conn.Healthy()) ==> conn.Healthy())
      ensures code == EXITED ==> st.pc == Down && !old(conn.Healthy())
      ensures code != EXITED ==>
                var u := old(st.line.unread);
                if |u| < HEADER_BYTES then code == LOCAL_ERROR && conn.unread == []
                else
                  var h := HeaderFromImage(o, u[..HEADER_BYTES]);
                  var rest := u[HEADER_BYTES..];
                  if h.error != NO_ERROR_R then code == h.error && (rest == [] ==> conn.unread == []) && live == old(live)
                  else if startOffset > h.total then code == OFFSET_ERROR_R
                  else code == NO_ERROR_R && totalSize == h.total && st.line.unread == rest
      ensures code == PATH_ERROR_R ==> st.pc == AfterOne(startOffset) && Rests()
      ensures code == NO_ERROR_R ==> st.pc == MakeDirs(startOffset) && st.total == totalSize && Reads(rio)
      ensures code != EXITED && code != PATH_ERROR_R && code != NO_ERROR_R ==> st.pc == Idle && Rests()
      ensures old(CompleteAnswer(startOffset)) && guarded ==>
                code == NO_ERROR_R && Complete(startOffset) && live == old(live)
    {
      hide Valid, Run, Guarded, Next, Blocks, Boundary, CompleteAnswer, HeaderFromImage, Reader.Remaining, Reader.Buffered;
      totalSize := 0;
      AnswerStarts(startOffset);
      var exited, got := ReceiveTransferHeader(o, rio);
      LineIs(rio);
      if exited {
        Exit();
        return EXITED, totalSize;
      }
      if got.None? {
        HangUp();
        LogHeader(rio);
        return LOCAL_ERROR, totalSize;
      }
      LogHeader(rio);
      var header := got.value;
      if header.error != NO_ERROR_R {
        return header.error, totalSize;
      }
      if startOffset > header.total {
        return OFFSET_ERROR_R, totalSize;
      }
      return NO_ERROR_R, header.total;
    }

    /** The directories and the open `.part` a session needs. */
    method PreparePart(startOffset: u32) returns (r: int)
      requires Valid() && st.pc == MakeDirs(startOffset)
      modifies this`fates, this`up, this`st, this`events, this`dirs, this`part
      ensures Valid() && (Smooth(old(fates)) ==> Smooth(fates))
      ensures Smooth(old(fates)) ==>
                r == if w.above.Blocked? then LOCAL_ERROR else if w.above.ParentIsFile? then EXITED else 0
      ensures r == 0 || r == LOCAL_ERROR || r == EXITED
      ensures r == 0 ==>
                && st.pc == Opened(startOffset) && st.line == old(st.line) && st.total == old(st.total)
                && part.Some? && Len(part) == Len(old(part))
      ensures r == LOCAL_ERROR ==> st.pc == AfterOne(startOffset) && st.line == Left(old(st.line))
      ensures r == EXITED ==> st.pc == Down
      ensures r == 0 && old(Complete(startOffset)) ==> Complete(startOffset)
    {
      hide Valid, Run, Guarded, Next, Left, Complete;
      var s := EnsureParentDirs();
      if s != Done {
        return if s == Dead then EXITED else LOCAL_ERROR;
      }
      s := OpenPartFile();
      if s != Done {
        return EXITED;
      }
      return 0;
    }

    /** `receive_file_by_blocks_resume` on whatever the connection carries. */
    method ReceiveFileByBlocksResume(rio: Reader, startOffset: u32) returns (result: int)
      requires Valid() && st.pc == Await(startOffset) && Reads(rio)
      modifies this`dirs, this`final, this`part, this`meta, this`tmp, this`up
      modifies this`fates, this`live, this`st, this`events
      modifies rio, rio.buf, rio.fd
      ensures Valid() && (Smooth(old(fates)) ==> Smooth(fates))
      ensures result == EXITED ==> st.pc == Down
      ensures result == PATH_ERROR_R ==> st.pc == AfterOne(startOffset) && Rests()
      ensures result != EXITED && result != PATH_ERROR_R ==> st.pc == Idle && Rests()
      ensures result == NO_ERROR_R && guarded ==> final == Some(w.f) && part.None?
      ensures old(CompleteAnswer(startOffset)) && guarded && Placeable(w) ==>
                && conn.Healthy() && live == old(live)
                && if Len(old(part)) >= startOffset then result == NO_ERROR_R && meta.None? && conn.unread == []
                   else && result == OFFSET_ERROR_R && final == old(final) && meta == old(meta)
                        && (startOffset == |w.f| ==> conn.unread == [])
      ensures old(CompleteAnswer(startOffset)) && guarded && w.above.Blocked? ==> result == LOCAL_ERROR
      ensures old(CompleteAnswer(startOffset)) && guarded && w.above.ParentIsFile? ==> result == EXITED
      ensures result != NO_ERROR_R && result != EXITED ==> final == old(final)
      ensures Smooth(old(fates)) && old(conn.Healthy()) ==>
                var u := old(st.line.unread);
                if |u| < HEADER_BYTES then result == LOCAL_ERROR && part == old(part) && meta == old(meta)
                else
                  var h := HeaderFromImage(o, u[..HEADER_BYTES]);
                  if h.error != NO_ERROR_R then
                    && result == h.error && part == old(part) && meta == old(meta)
                    && (|u| == HEADER_BYTES ==> conn.unread == [] && live == old(live))
                  else if startOffset > h.total then result == OFFSET_ERROR_R && part == old(part) && meta == old(meta)
                  else if !Placeable(w) then true
                  else
                    result == if Len(old(part)) % U32_LIMIT < startOffset then OFFSET_ERROR_R as int
                              else Receive(o, u[HEADER_BYTES..], h.total, startOffset).code
    {
      hide Valid, Run, Guarded, Next, Left, Complete, CompleteAnswer, Receive, HeaderFromImage;
      hide Reader.Remaining, Reader.Buffered;
      var totalSize;
      result, totalSize := TakeHeader(rio, startOffset);
      if result != NO_ERROR_R {
        return;
      }
      LeavesUnread(rio);
      CompleteIsSmooth(startOffset);
      result := PreparePart(startOffset);
      if result != 0 {
        return;
      }
      result := WriteFromOffset(rio, totalSize, startOffset);
    }

    ghost method LogShort()
      requires Valid() && st.pc.Opened? && part.Some? && |part.value| % U32_LIMIT < st.pc.k
      modifies this`st, this`events
      ensures Valid() && st.pc == Idle && st.line == Left(old(st.line))
    {
      hide Run, Guarded;
      Log(Go);
    }

    /** The size check on the open `.part`, and what follows it. */
    method WriteFromOffset(rio: Reader, totalSize: u32, startOffset: u32) returns (result: int)
      requires Valid() && st.pc == Opened(startOffset) && st.total == totalSize && Reads(rio) && part.Some?
      modifies this`final, this`part, this`meta, this`tmp, this`up, this`fates, this`live, this`st, this`events
      modifies rio, rio.buf, rio.fd
      ensures Valid() && (Smooth(old(fates)) ==> Smooth(fates))
      ensures result == EXITED ==> st.pc == Down
      ensures result == PATH_ERROR_R ==> st.pc == AfterOne(startOffset) && Rests()
      ensures result != EXITED && result != PATH_ERROR_R ==> st.pc == Idle && Rests()
      ensures result == NO_ERROR_R && guarded ==> final == Some(w.f) && part.None?
      ensures old(Complete(startOffset)) && guarded ==>
                && conn.Healthy() && live == old(live)
                && if Len(old(part)) >= startOffset then result == NO_ERROR_R && meta.None? && conn.unread == []
                   else && result == OFFSET_ERROR_R && final == old(final) && meta == old(meta)
                        && (startOffset == |w.f| ==> conn.unread == [])
      ensures result != NO_ERROR_R && result != EXITED ==> final == old(final)
      ensures Smooth(old(fates)) && old(conn.Healthy()) ==>
                result == if Len(old(part)) % U32_LIMIT < startOffset then OFFSET_ERROR_R as int
                          else Receive(o, old(st.line.unread), totalSize, startOffset).code
    {
      hide Valid, Run, Guarded, Next, Inv, Blocks, Boundary, Served, HeaderFromImage, Receive;
      hide Reader.Remaining, Reader.Buffered;
      var currentSize := |part.value|;
      if guarded {
        StartInside();
      }
      if currentSize % U32_LIMIT < startOffset {
        LeavesUnread(rio);
        NoBlocksLeft(w, startOffset, rio);
        LogShort();
        return OFFSET_ERROR_R;
      }
      result := FinishDownload(rio, totalSize, startOffset);
    }

    lemma NoBlocksLeft(w: World, k: u32, rio: Reader)
      requires rio.Valid() && rio.fd == conn
      ensures k == |w.f| && rio.Remaining() == Blocks(w.o, w.f, k, BlockNumber(k)) ==> conn.unread == []
    {
    }

    // ---------------------------------------------------------- whole sessions

    /** A request is written, and the slave's answer follows what is already on
        the connection, as far as it arrives. */
    method Send(request: bytes, a: Answer)
      requires |request| == REQUEST_BYTES
      modifies conn, this`live
      ensures conn.plan == old(conn.plan)
      ensures var whole := if a.refusal != NO_ERROR_R then ErrorHeader(o, a.refusal)
                           else SlaveSends(o, w.f, remote, request);
              if !old(live) then conn.unread == old(conn.unread) && !live
              else
                match a.cut
                case None => conn.unread == old(conn.unread) + whole && live
                case Some(n) => conn.unread == old(conn.unread) + whole[..Min(n, |whole|)] && !live
    {
      hide SlaveSends, ErrorHeader;
      var whole := if a.refusal != NO_ERROR_R then ErrorHeader(o, a.refusal) else SlaveSends(o, w.f, remote, request);
      if live {
        match a.cut {
          case None =>
            conn.unread := conn.unread + whole;
          case Some(n) =>
            conn.unread := conn.unread + whole[..Min(n, |whole|)];
            live := false;
        }
      }
    }

    lemma Unbuffered(rio: Reader)
      requires rio.Valid() && rio.Remaining() == rio.fd.unread
      ensures rio.Buffered() == []
    {
      assert |rio.Remaining()| == |rio.Buffered()| + |rio.fd.unread|;
    }

    /** The request of a session, sent and recorded, and the session's reader. */
    method Request(startOffset: u32, a: Answer, ghost start: Event) returns (rio: Reader)
      requires AtRest() && st.pc.Idle? && Next(w, st, start) == Some(Asked(w, st, startOffset, a))
      modifies conn, this`live, this`st, this`events, this`guarded
      ensures Valid() && st.pc == Await(startOffset) && st.disk == old(st.disk)
      ensures fresh(rio) && fresh(rio.buf) && rio.fd == conn && Reads(rio)
      ensures guarded == (old(guarded) && StartsClean(old(st), start)) && conn.plan == old(conn.plan)
      ensures old(conn.unread) == [] && old(live) ==>
                st.line.unread == Arriving(w, startOffset, a) && live == a.cut.None?
    {
      hide Run, Guarded, Next, Served, DownloadRequest, StartsClean, SlaveSends, ErrorHeader, Reader.Buffered, Reader.Remaining;
      var request := DownloadRequest(o, remote, startOffset);
      AnswerServes(o, w.f, remote, startOffset);
      Send(request, a);
      ghost var arriving := Arriving(w, startOffset, a);
      assert [] + arriving == arriving;
      LogStart(start);
      rio := new Reader(conn);
      Unbuffered(rio);
    }

    /** `perform_download`: the request, the transfer with a reader of its own,
        and the removal of the partial files when a resumed transfer returned
        PATH_ERROR_R. */
    method PerformDownload(startOffset: u32, a: Answer, ghost start: Event) returns (result: int)
      requires AtRest() && st.pc.Idle? && Next(w, st, start) == Some(Asked(w, st, startOffset, a))
      modifies this`dirs, this`final, this`part, this`meta, this`tmp, this`up, this`fates
      modifies this`live, this`st, this`events, this`guarded, conn
      ensures AtRest() && (Smooth(old(fates)) ==> Smooth(fates))
      ensures guarded == (old(guarded) && StartsClean(old(st), start))
      ensures st.pc == if result == EXITED then Down else Idle
      ensures result == NO_ERROR_R && guarded ==> final == Some(w.f) && part.None?
      ensures result == PATH_ERROR_R && startOffset > 0 ==> part.None? && meta.None?
      ensures old(Smooth(fates) && conn.Healthy() && live && conn.unread == []) && guarded && Placeable(w)
              && a == FULL ==>
                && conn.Healthy() && live
                && if Len(old(part)) >= startOffset then result == NO_ERROR_R && meta.None? && conn.unread == []
                   else && result == OFFSET_ERROR_R && final == old(final) && meta == old(meta)
                        && (startOffset == |w.f| ==> conn.unread == [])
      ensures old(Smooth(fates) && conn.Healthy() && live && conn.unread == []) ==>
                var u := Arriving(w, startOffset, a);
                if |u| < HEADER_BYTES then result == LOCAL_ERROR && final == old(final)
                else
                  var h := HeaderFromImage(o, u[..HEADER_BYTES]);
                  if h.error != NO_ERROR_R then
                    && result == h.error && final == old(final)
                    && (|u| == HEADER_BYTES ==> conn.unread == [] && live == a.cut.None?)
                    && (h.error != PATH_ERROR_R || startOffset == 0 ==> part == old(part) && meta == old(meta))
                  else if startOffset > h.total then result == OFFSET_ERROR_R && final == old(final)
                  else if !Placeable(w) then true
                  else
                    && result == (if Len(old(part)) % U32_LIMIT < startOffset then OFFSET_ERROR_R as int
                                  else Receive(o, u[HEADER_BYTES..], h.total, startOffset).code)
                    && (result != NO_ERROR_R ==> final == old(final))
    {
      hide Run, Guarded, Next, Served, StartsClean, Receive, HeaderFromImage, Arriving, Reader.Buffered, Reader.Remaining;
      hide Asked, Blocks, Smooth, Reads;
      assert a == FULL ==> Arriving(w, startOffset, a) == Served(o, Some(w.f), startOffset) by { WholeArrives(w, startOffset); }
      var rio := Request(startOffset, a, start);
      result := ReceiveFileByBlocksResume(rio, startOffset);
      if result == PATH_ERROR_R && startOffset > 0 {
        var dead := RemovePartialFiles();
        if dead {
          return EXITED;
        }
      }
    }

    /** `maybe_get_resume_offset`. */
    method MaybeGetResumeOffset() returns (offset: u32)
      requires Valid()
      ensures offset == ResumeOffset(w, st.disk)
    {
      hide Run, Guarded, ParseMeta;
      var read := ReadMetaFile(meta);
      if read.None? {
        return 0;
      }
      var (metaRemote, k) := read.value;
      if metaRemote != remote || k == 0 {
        return 0;
      }
      if part.None? {
        return 0;
      }
      if |part.value| % U32_LIMIT < k {
        return 0;
      }
      return k;
    }

    lemma Resumable()
      requires Valid() && st.pc.Idle? && guarded
      ensures var k := ResumeOffset(w, st.disk); k <= |w.f| && k <= Len(part) < U32_LIMIT
    {
      hide ResumeOffset, Inv;
      Known();
      ResumeInside(w, st);
    }

    lemma GetStarts(a: Answer)
      requires Valid() && st.pc.Idle?
      ensures Next(w, st, Get(a)) == Some(Asked(w, st, ResumeOffset(w, st.disk), a))
      ensures StartsClean(st, Get(a)) <==> st.line.unread == []
    {
      hide Asked, ResumeOffset;
    }

    /** The `get` command. Whatever the earlier sessions left on the disk, on an
        empty connection that works it downloads the file. */
    method GetFile(a: Answer) returns (result: int)
      requires AtRest() && st.pc.Idle?
      modifies this`dirs, this`final, this`part, this`meta, this`tmp, this`up, this`fates
      modifies this`live, this`st, this`events, this`guarded, conn
      ensures AtRest() && (Smooth(old(fates)) ==> Smooth(fates))
      ensures st.pc == if result == EXITED then Down else Idle
      ensures guarded == (old(guarded) && old(conn.unread) == [])
      ensures result == NO_ERROR_R && guarded ==> final == Some(w.f) && part.None?
      ensures old(Smooth(fates) && conn.Healthy() && live && guarded && conn.unread == []) && a == FULL
              && Placeable(w) ==>
                && result == NO_ERROR_R && final == Some(w.f) && part.None? && meta.None?
                && conn.Healthy() && live && conn.unread == []
      ensures old(Smooth(fates) && conn.Healthy() && live && conn.unread == [])
              && a.refusal != NO_ERROR_R && a.cut.None? ==>
                && result == a.refusal && final == old(final) && live && conn.unread == []
                && (a.refusal != PATH_ERROR_R || ResumeOffset(w, old(st.disk)) == 0 ==>
                      part == old(part) && meta == old(meta))
                && (a.refusal == PATH_ERROR_R && ResumeOffset(w, old(st.disk)) > 0 ==> part.None? && meta.None?)
      ensures old(Smooth(fates) && conn.Healthy() && live && conn.unread == [])
              && a.cut.Some? && a.cut.value < HEADER_BYTES ==>
                result == LOCAL_ERROR && final == old(final)
      ensures old(Smooth(fates) && conn.Healthy() && live && guarded && conn.unread == []) && Placeable(w)
              && a.refusal == NO_ERROR_R && a.cut.Some?
              && HEADER_BYTES <= a.cut.value < |Served(o, Some(w.f), ResumeOffset(w, old(st.disk)))| ==>
                result == CLIENT_DISCONNECTED_R && final == old(final)
    {
      hide Run, Guarded, Next, ResumeOffset, StartsClean, Served, Arriving, HeaderFromImage, Receive;
      var resumeOffset := MaybeGetResumeOffset();
      RefusalArrives(w, resumeOffset, a);
      if a.cut.Some? {
        CutArrives(w, resumeOffset, a);
      }
      if guarded && st.line.unread == [] {
        Resumable();
      }
      GetStarts(a);
      if resumeOffset > 0 {
        result := PerformDownload(resumeOffset, a, Get(a));
      } else {
        result := PerformDownload(0, a, Get(a));
      }
    }

    lemma ScanStarts(a: Answer)
      requires Valid() && st.pc.Idle? && meta.Some? && Listed(w.home, remote)
      ensures var k := ScannedOffset(st.disk);
              && Next(w, st, AutoResume(a))
                 == Some(if k == 0 then st.(disk := st.disk.(meta := None)) else Asked(w, st, k, a))
              && (Starts(st, AutoResume(a)) <==> k > 0)
    {
      hide Asked, Listed, ScannedOffset;
    }

    /** The entry of this path in `auto_resume_downloads`. A meta file that
        cannot be read, or records 0, is removed; otherwise the download is
        resumed from what it records, whether `.part` is there or not. */
    method AutoResumeEntry(a: Answer) returns (result: int)
      requires AtRest() && st.pc.Idle? && meta.Some? && Listed(w.home, remote)
      modifies this`dirs, this`final, this`part, this`meta, this`tmp, this`up, this`fates
      modifies this`live, this`st, this`events, this`guarded, conn
      ensures AtRest() && (Smooth(old(fates)) ==> Smooth(fates))
      ensures st.pc == if result == EXITED then Down else Idle
      ensures guarded == (old(guarded) && (old(ScannedOffset(st.disk)) == 0 || old(conn.unread) == []))
      ensures old(ScannedOffset(st.disk)) == 0 ==>
                && st.disk == old(st.disk).(meta := None) && result == NO_ERROR_R
                && conn.unread == old(conn.unread) && conn.plan == old(conn.plan) && live == old(live)
      ensures old(Smooth(fates) && conn.Healthy() && live && guarded && conn.unread == []) && a == FULL
              && Placeable(w) && old(ScannedOffset(st.disk)) > 0 ==>
                && conn.Healthy() && live && result != EXITED
                && if Len(old(part)) >= old(ScannedOffset(st.disk)) then
                     final == Some(w.f) && part.None? && meta.None? && conn.unread == []
                   else
                     && final == old(final) && meta == old(meta)
                     && (old(ScannedOffset(st.disk)) == |w.f| ==> conn.unread == [])
    {
      hide Run, Guarded, Next, ParseMeta, Starts, Listed;
      ScanStarts(a);
      var read := ReadMetaFile(meta);
      if read.None? {
        meta := None;
        Log(AutoResume(a));
        return NO_ERROR_R;
      }
      var (_, offset) := read.value;
      if offset == 0 {
        meta := None;
        Log(AutoResume(a));
        return NO_ERROR_R;
      }
      result := PerformDownload(offset, a, AutoResume(a));
    }

    /** A command for another path, or another entry of the scan, has used the
        connection and leaves it as it leaves it; on one that has ended it can
        only take what was left. */
    method OtherSession(left: Line)
      requires AtRest() && st.pc.Idle?
      modifies conn, this`live, this`st, this`events
      ensures AtRest() && st.pc == Idle && st.disk == old(st.disk) && conn.plan == old(conn.plan)
      ensures old(live) ==> conn.unread == left.unread && live == left.live
      ensures !old(live) ==> !live && Drains(old(conn.unread), conn.unread)
    {
      hide Run, Guarded;
      if live || Drains(conn.unread, left.unread) {
        conn.unread, live := left.unread, live && left.live;
        Log(Other(left));
      }
    }

    /** What `readdir` gives for "./clientdir/": different names, the meta file
        of this download among them exactly when it is there. */
    predicate Lists(names: seq<bytes>)
      reads this
    {
      && (forall i, j :: 0 <= i < j < |names| ==> names[i] != names[j])
      && (Listed(w.home, remote) ==> (EntryName(w.home, remote) in names <==> meta.Some?))
    }

    predicate Ours(name: bytes) {
      Listed(w.home, remote) && name == EntryName(w.home, remote)
    }

    /** The start finds this download to resume. */
    ghost predicate Resumes()
      reads this
    {
      && meta.Some? && Listed(w.home, remote)
      && var k := ScannedOffset(Disk(dirs, final, part, meta, tmp)); k > 0 && Len(part) >= k
    }

    /** `auto_resume_downloads`: one pass over the entries. `others` is what
        the sessions of other entries leave on the connection. When nothing
        fails, the file is put in place if and only if the meta file is there
        and listed, records progress, and `.part` reaches it. */
    method AutoResumeDownloads(names: seq<bytes>, a: Answer, others: seq<Line>) returns (dead: bool)
      requires AtRest() && st.pc.Idle? && Lists(names) && |others| == |names|
      modifies this`dirs, this`final, this`part, this`meta, this`tmp, this`up, this`fates
      modifies this`live, this`st, this`events, this`guarded, conn
      ensures AtRest() && (Smooth(old(fates)) ==> Smooth(fates)) && st.pc == (if dead then Down else Idle)
      ensures old(Smooth(fates) && conn.Healthy() && live && guarded && conn.unread == []) && a == FULL
              && Placeable(w) && (forall l :: l in others ==> l == NEW_LINE) ==>
                && !dead
                && (if old(Resumes()) then final == Some(w.f) && part.None? && meta.None? else final == old(final))
                && (old(final) != Some(w.f) ==> (final == Some(w.f) <==> old(Resumes())))
    {
      hide Valid, Run, Guarded, Next, Listed, EntryName, HasSuffix, ScannedOffset;
      ghost var perfect := Smooth(fates) && conn.Healthy() && live && guarded && conn.unread == [] && a == FULL
                           && Placeable(w) && forall l :: l in others ==> l == NEW_LINE;
      ghost var seen := false;
      DiskIs();
      var i := 0;
      while i < |names|
        invariant i <= |names| && AtRest() && st.pc.Idle?
        invariant Smooth(old(fates)) ==> Smooth(fates)
        invariant seen <==> exists j :: 0 <= j < i && Ours(names[j])
        invariant !seen ==> st.disk == old(st.disk) && meta == old(meta) && part == old(part) && final == old(final)
        invariant perfect ==> conn.Healthy() && live && (!seen ==> guarded && conn.unread == [])
        invariant perfect && seen ==>
                    if old(Resumes()) then final == Some(w.f) && part.None? && meta.None? else final == old(final)
      {
        var name := names[i];
        OursFound(name);
        if !HasSuffix(name, META_SUFFIX) {
          i := i + 1;
          continue;
        }
        if |CLIENT_DIR| + |name| >= MAXLINE {
          i := i + 1;
          continue;
        }
        if Ours(name) {
          assert name in names;
          DiskIs();
          var result := AutoResumeEntry(a);
          if result == EXITED {
            return true;
          }
          DiskIs();
          seen := true;
        } else {
          assert others[i] in others;
          OtherSession(others[i]);
          DiskIs();
        }
        i := i + 1;
      }
      return false;
    }

    lemma OursFound(name: bytes)
      requires Valid()
      ensures Ours(name) ==> HasSuffix(name, META_SUFFIX) && |CLIENT_DIR| + |name| < MAXLINE
    {
      hide Listed, EntryName, Run, Guarded;
      if Ours(name) {
        EntryFound(w.home, remote);
      }
    }

    lemma DiskIs()
      requires Valid()
      ensures st.disk == Disk(dirs, final, part, meta, tmp)
    {
    }

    /** The process starts again, on a new connection. */
    method Restarted(plan: seq<CallEvent>)
      requires Valid() && st.pc.Down?
      modifies this`up, this`conn, this`live, this`st, this`events
      ensures AtRest() && st.pc == Idle && st.disk == old(st.disk)
      ensures fresh(conn) && conn.unread == [] && conn.plan == plan && live
    {
      hide Run, Guarded;
      conn := new Source([], plan);
      live := true;
      up := true;
      Log(Restart);
    }

    /** Any sequence of starts with their scans, kills, `get` commands and other
        commands, over any connections and any disk behaviour, is a run of the
        machine; so as long as sessions start on an empty connection, what is
        proved of the machine holds of the disk. */
    method RunActions(actions: seq<Action>)
      requires AtRest()
      modifies this, conn
      ensures AtRest() && (guarded ==> Safe(w, Disk(dirs, final, part, meta, tmp)))
    {
      hide Valid, Run, Guarded, Next, Lists, ResumeOffset, ScannedOffset;
      for i := 0 to |actions|
        invariant AtRest() && (conn == old(conn) || fresh(conn))
      {
        match actions[i] {
          case Start(plan, names, answer, others) =>
            WhetherUp();
            if !up {
              Restarted(plan);
              if Lists(names) && |others| == |names| {
                var dead := AutoResumeDownloads(names, answer, others);
              }
            }
          case Stop =>
            WhetherUp();
            if up {
              Exit();
            }
          case GetCommand(answer) =>
            WhetherUp();
            if up {
              var result := GetFile(answer);
            }
          case OtherCommand(left) =>
            WhetherUp();
            if up {
              OtherSession(left);
            }
        }
      }
      if guarded {
        Known();
      }
    }

    lemma WhetherUp()
      requires Valid()
      ensures up <==> !st.pc.Down?
    {
    }
  }

  lemma CountIs(n: u32, size: nat)
    ensures Count(n, size) == (n + size) % U32_LIMIT && (size == 0 ==> Count(n, size) == n)
  {
  }

  lemma CountWithin(f: bytes, n: nat)
    requires IsFile(f) && n <= |f|
    ensures Count(n, BlockEnd(f, n) - n) == BlockEnd(f, n)
  {
  }

  lemma SliceOfRest(s: bytes, j: nat, c: nat)
    requires j + c <= |s|
    ensures s[j..][..c] == s[j..j + c]
  {
  }

  lemma Nothing(a: bytes, data: bytes)
    ensures a + data[..0] == a
  {
  }

  lemma Extends(a: bytes, data: bytes, done: nat, c: nat)
    requires done + c <= |data|
    ensures a + data[..done] + data[done..done + c] == a + data[..done + c]
  {
    assert data[..done] + data[done..done + c] == data[..done + c];
  }

  /** What a `write` of the block leaves to do. */
  lemma BlockWritten(w: World, k: u32, n: u32, data: bytes, done: nat, c: nat)
    requires done < |data|
    ensures forall s: State :: s.pc == Writing(k, n, data, done) && Next(w, s, Put(c)).Some? ==>
              var r := Next(w, s, Put(c)).value;
              && r.pc == (if done + c < |data| then Writing(k, n, data, done + c) else MetaOpen(k, Count(n, |data|)))
              && done + c <= |data| && s.disk.part.Some? && r.disk.part == Some(s.disk.part.value + data[done..done + c])
    ensures forall s: State :: s.pc == Writing(k, n, data, done) && Next(w, s, Fail).Some? ==>
              Next(w, s, Fail).value.pc == AfterOne(k)
  {
  }

  lemma WholeArrives(w: World, k: u32)
    ensures Arriving(w, k, FULL) == Served(w.o, Some(w.f), k)
  {
    hide Served;
  }

  /** A refusal arrives as a header with its error and nothing after it. */
  lemma RefusalArrives(w: World, k: u32, a: Answer)
    ensures a.refusal != NO_ERROR_R && a.cut.None? ==>
              var u := Arriving(w, k, a);
              |u| == HEADER_BYTES && HeaderFromImage(w.o, u[..HEADER_BYTES]).error == a.refusal
  {
    hide HeaderFromImage, ErrorHeader, Served;
    var image := ErrorHeader(w.o, a.refusal);
    assert image[..HEADER_BYTES] == image;
    RefusalRead(w.o, a.refusal);
  }

  /** An answer cut within its header is too short for one; the file cut within
      its blocks is received as far as whole blocks go. */
  lemma CutArrives(w: World, k: u32, a: Answer)
    requires a.cut.Some?
    ensures a.cut.value < HEADER_BYTES ==> |Arriving(w, k, a)| < HEADER_BYTES
    ensures a.refusal == NO_ERROR_R && k <= |w.f| && HEADER_BYTES <= a.cut.value < |Served(w.o, Some(w.f), k)| ==>
              var u := Arriving(w, k, a);
              && |u| >= HEADER_BYTES
              && var h := HeaderFromImage(w.o, u[..HEADER_BYTES]);
                 && h.error == NO_ERROR_R && h.total == |w.f|
                 && Receive(w.o, u[HEADER_BYTES..], |w.f|, k).code == CLIENT_DISCONNECTED_R
  {
    hide HeaderFromImage, Served, Receive, Blocks;
    var n := a.cut.value;
    if a.refusal == NO_ERROR_R && k <= |w.f| && HEADER_BYTES <= n < |Served(w.o, Some(w.f), k)| {
      var whole := Served(w.o, Some(w.f), k);
      WholeAnswer(w, k);
      assert Arriving(w, k, a) == whole[..n];
      PrefixSplits(whole[..n], whole, HEADER_BYTES);
      ReceiveOfCut(w.o, w.f, k, BlockNumber(k), whole[..n][HEADER_BYTES..]);
    }
  }

  /** What the whole answer to a request from an offset starts with. */
  lemma WholeAnswer(w: World, k: u32)
    requires k <= |w.f|
    ensures var u := Served(w.o, Some(w.f), k);
            && |u| >= HEADER_BYTES && u[HEADER_BYTES..] == Blocks(w.o, w.f, k, BlockNumber(k))
            && var h := HeaderFromImage(w.o, u[..HEADER_BYTES]);
               h.error == NO_ERROR_R && h.total == |w.f|
  {
    hide HeaderImage, HeaderFromImage, Blocks;
    var h := Wire.Header(|w.f|, BLOCK_SIZE, Tag(w.o), NO_ERROR_R);
    HeaderRoundTrip(w.o, h);
    var u := Served(w.o, Some(w.f), k);
    assert u[..HEADER_BYTES] == HeaderImage(w.o, h);
  }

  /** The two steps of the cleanup. */
  lemma PurgeSteps(w: World, s: State)
    requires s.pc.Purge?
    ensures Next(w, s, Go).Some? && !Next(w, s, Go).value.pc.Down?
    ensures var s1 := Next(w, s, Go).value;
            && s1.disk == s.disk.(part := None) && s1.line == s.line
            && Next(w, s1, Go).Some? && Next(w, s1, Go).value.pc.Idle?
            && Next(w, s1, Go).value.disk == s1.disk.(meta := None) && Next(w, s1, Go).value.line == s.line
  {
  }
}
