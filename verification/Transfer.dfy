/**
 File transfer by blocks: the sender of `send_file_by_blocks_from_offset`,
 the receive loop of `receive_file_by_blocks_to_fd_internal`, and what they
 mean together. Both ends have the same byte order `o`.
 */
module Transfer {
  import opened Bytes
  import opened Wire
  import opened Rio

  /** The code returned when a Rio wrapper has ended the process. */
  const EXITED: int := -1
  const LOCAL_ERROR: int := 1

  // ------------------------------------------------------------- what is sent

  ghost predicate IsFile(f: bytes) {
    |f| < U32_LIMIT
  }

  function BlockEnd(f: bytes, pos: nat): (e: nat)
    ensures pos <= |f| ==> pos <= e && e - pos <= BLOCK_SIZE
    ensures e <= |f| && (pos < |f| ==> pos < e)
  {
    Min(pos + BLOCK_SIZE, |f|)
  }

  /** The data blocks for `f[pos..]`, the first of them numbered `num`. */
  function Blocks(o: Order, f: bytes, pos: nat, num: u16): (s: bytes)
    ensures pos >= |f| <==> s == []
    ensures pos < |f| ==> |s| >= BLOCK_BYTES
    decreases |f| - pos
  {
    if pos >= |f| then []
    else BlockImage(o, MakeBlock(num, f[pos..BlockEnd(f, pos)]))
         + Blocks(o, f, BlockEnd(f, pos), (num + 1) % U16_LIMIT)
  }

  function BlockNumber(offset: nat): u16 {
    (offset / BLOCK_SIZE) % U16_LIMIT
  }

  function ErrorHeader(o: Order, error: byte): (s: bytes)
    ensures |s| == HEADER_BYTES
  {
    HeaderImage(o, Header(0, BLOCK_SIZE, Tag(o), error))
  }

  function GoodHeader(o: Order, total: u32): (s: bytes)
    ensures |s| == HEADER_BYTES
  {
    HeaderImage(o, Header(total, BLOCK_SIZE, Tag(o), NO_ERROR_R))
  }

  /** What of a file is sent: its size is cut to 32 bits. */
  function SentPart(f: bytes): (s: bytes)
    ensures |s| < U32_LIMIT && s <= f
    ensures IsFile(f) ==> s == f
  {
    f[..|f| % U32_LIMIT]
  }

  /** Everything sent for a file (None: it cannot be opened) from an offset. */
  function Served(o: Order, file: Option<bytes>, offset: u32): (s: bytes)
    ensures |s| >= HEADER_BYTES
  {
    match file
    case None => ErrorHeader(o, PATH_ERROR_R)
    case Some(f) =>
      var part := SentPart(f);
      if offset > |part| then ErrorHeader(o, OFFSET_ERROR_R)
      else GoodHeader(o, |part|) + Blocks(o, part, offset, BlockNumber(offset))
  }

  /** What reached the socket: all of `data`, or some prefix of it. */
  ghost predicate Wrote(before: bytes, after: bytes, data: bytes, all: bool) {
    if all then after == before + data else before <= after <= before + data
  }

  lemma WroteNothing(before: bytes)
    ensures Wrote(before, before, [], true)
  {
  }

  lemma WroteMore(before: bytes, middle: bytes, after: bytes, a: bytes, b: bytes, all: bool)
    requires Wrote(before, middle, a, true) && Wrote(middle, after, b, all)
    ensures Wrote(before, after, a + b, all)
  {
    assert before + (a + b) == (before + a) + b;
  }

  lemma WroteLess(before: bytes, after: bytes, a: bytes, b: bytes)
    requires Wrote(before, after, a, false)
    ensures Wrote(before, after, a + b, false)
  {
    assert before + (a + b) == (before + a) + b;
  }

  /** `socket_write_all`: 0, or 1 with only a prefix written. */
  method SocketWriteAll(sock: Sink, data: bytes) returns (r: int)
    modifies sock
    ensures r == 0 || (r == 1 && Broken in old(sock.plan))
    ensures Wrote(old(sock.sent), sock.sent, data, r == 0)
    ensures forall e :: e in sock.plan ==> e in old(sock.plan)
  {
    var n := WriteN(sock, data);
    return if n != |data| then 1 else 0;
  }

  /** `send_error_header`. */
  method SendErrorHeader(o: Order, sock: Sink, error: byte) returns (code: int)
    requires error != CLIENT_DISCONNECTED_R
    modifies sock
    ensures code == error || (code == CLIENT_DISCONNECTED_R && Broken in old(sock.plan))
    ensures Wrote(old(sock.sent), sock.sent, ErrorHeader(o, error), code == error)
    ensures forall e :: e in sock.plan ==> e in old(sock.plan)
  {
    var r := SocketWriteAll(sock, ErrorHeader(o, error));
    return if r != 0 then CLIENT_DISCONNECTED_R else error;
  }

  /** `send_data_block`. */
  method SendDataBlock(o: Order, sock: Sink, num: u16, data: bytes) returns (r: int)
    requires |data| <= BLOCK_SIZE
    modifies sock
    ensures r == 0 || (r == 1 && Broken in old(sock.plan))
    ensures Wrote(old(sock.sent), sock.sent, BlockImage(o, MakeBlock(num, data)), r == 0)
    ensures forall e :: e in sock.plan ==> e in old(sock.plan)
  {
    r := SocketWriteAll(sock, BlockImage(o, MakeBlock(num, data)));
  }

  /** `send_file_by_blocks_from_offset`. `readPlan` says how reads of the file
      behave; the file does not change and its reads do not fail. */
  method SendFileByBlocksFromOffset(o: Order, sock: Sink, file: Option<bytes>, startOffset: u32,
                                    readPlan: seq<CallEvent>)
    returns (code: int)
    requires Broken !in readPlan
    modifies sock
    ensures code == CLIENT_DISCONNECTED_R ==> Broken in old(sock.plan)
    ensures code != CLIENT_DISCONNECTED_R ==>
              code == if file.None? then PATH_ERROR_R
                      else if startOffset > |file.value| % U32_LIMIT then OFFSET_ERROR_R else NO_ERROR_R
    ensures Wrote(old(sock.sent), sock.sent, Served(o, file, startOffset), code != CLIENT_DISCONNECTED_R)
    ensures forall e :: e in sock.plan ==> e in old(sock.plan)
  {
    if file.None? {
      code := SendErrorHeader(o, sock, PATH_ERROR_R);
      return;
    }
    var f := file.value;
    var fileSize := |f| % U32_LIMIT;
    if startOffset > fileSize {
      code := SendErrorHeader(o, sock, OFFSET_ERROR_R);
      return;
    }
    ghost var blocks := Blocks(o, SentPart(f), startOffset, BlockNumber(startOffset));
    ghost var before := sock.sent;
    var r := SocketWriteAll(sock, GoodHeader(o, fileSize));
    if r != 0 {
      WroteLess(before, sock.sent, GoodHeader(o, fileSize), blocks);
      return CLIENT_DISCONNECTED_R;
    }
    ghost var middle := sock.sent;
    var fd := new Source(f[startOffset..], readPlan);
    var rio := new Reader(fd);
    code := SendBlocks(o, sock, rio, f, fileSize, startOffset);
    WroteMore(before, middle, sock.sent, GoodHeader(o, fileSize), blocks, code == NO_ERROR_R);
  }

  lemma BlocksStep(o: Order, f: bytes, pos: nat, num: u16)
    requires pos < |f|
    ensures Blocks(o, f, pos, num)
         == BlockImage(o, MakeBlock(num, f[pos..BlockEnd(f, pos)]))
            + Blocks(o, f, BlockEnd(f, pos), (num + 1) % U16_LIMIT)
  {
    hide BlockImage, MakeBlock;
  }

  /** The sending loop. */
  method SendBlocks(o: Order, sock: Sink, rio: Reader, ghost file: bytes, fileSize: u32, startOffset: u32)
    returns (code: int)
    requires startOffset <= fileSize <= |file|
    requires rio.Valid() && rio.Remaining() == file[startOffset..] && rio.fd.Healthy()
    modifies sock, rio, rio.buf, rio.fd
    ensures code == NO_ERROR_R || (code == CLIENT_DISCONNECTED_R && Broken in old(sock.plan))
    ensures Wrote(old(sock.sent), sock.sent, Blocks(o, file[..fileSize], startOffset, BlockNumber(startOffset)), code == NO_ERROR_R)
    ensures forall e :: e in sock.plan ==> e in old(sock.plan)
  {
    hide BlockImage, MakeBlock, Blocks, Wrote, Reader.Remaining, Reader.Buffered;
    ghost var f := file[..fileSize];
    WroteNothing(sock.sent);
    ghost var all := Blocks(o, f, startOffset, BlockNumber(startOffset));
    ghost var done: bytes := [];
    var blockNum: u16 := BlockNumber(startOffset);
    var totalSent := startOffset;
    while totalSent < fileSize
      invariant totalSent <= fileSize
      invariant rio.Valid() && rio.Remaining() == file[totalSent..] && rio.fd.Healthy()
      invariant Wrote(old(sock.sent), sock.sent, done, true)
      invariant all == done + Blocks(o, f, totalSent, blockNum)
      invariant forall e :: e in sock.plan ==> e in old(sock.plan)
    {
      var toRead := if fileSize - totalSent > BLOCK_SIZE then BLOCK_SIZE else fileSize - totalSent;
      var n, buffer := rio.ReadNb(toRead);
      FrontOf(file, totalSent, buffer, rio.Remaining());
      assert buffer == f[totalSent..BlockEnd(f, totalSent)];
      ghost var image := BlockImage(o, MakeBlock(blockNum, buffer));
      ghost var before := sock.sent;
      var r := SendDataBlock(o, sock, blockNum, buffer);
      ghost var rest := Blocks(o, f, BlockEnd(f, totalSent), (blockNum + 1) % U16_LIMIT);
      BlocksStep(o, f, totalSent, blockNum);
      Assoc(done, image, rest);
      if r != 0 {
        WroteMore(old(sock.sent), before, sock.sent, done, image, false);
        WroteLess(old(sock.sent), sock.sent, done + image, rest);
        return CLIENT_DISCONNECTED_R;
      }
      WroteMore(old(sock.sent), before, sock.sent, done, image, true);
      done := done + image;
      totalSent := totalSent + n;
      blockNum := (blockNum + 1) % U16_LIMIT;
    }
    assert Blocks(o, f, totalSent, blockNum) == [];
    assert done + [] == done;
    return NO_ERROR_R;
  }

  // --------------------------------------------------------- what is received

  datatype Outcome = Outcome(code: int, data: bytes, used: nat)

  function Prepend(data: bytes, used: nat, rest: Outcome): Outcome {
    Outcome(rest.code, data + rest.data, used + rest.used)
  }

  /** The receive loop on a stream that ends after `s`: the code returned, the
      data written, and how much of the stream was consumed. The running total
      is a 32-bit number. */
  function Receive(o: Order, s: bytes, total: u32, received: u32): (r: Outcome)
    ensures r.used <= |s|
    ensures r.code == NO_ERROR_R || r.code == CLIENT_DISCONNECTED_R || r.code == TYPE_ERROR_R
  {
    if received >= total then Outcome(NO_ERROR_R, [], 0)
    else if |s| < BLOCK_BYTES then Outcome(CLIENT_DISCONNECTED_R, [], |s|)
    else
      var b := BlockFromImage(o, s[..BLOCK_BYTES]);
      var sum := (received + b.size) % U32_LIMIT;
      if b.size > BLOCK_SIZE || sum > total then Outcome(TYPE_ERROR_R, [], BLOCK_BYTES)
      else Prepend(b.data[..b.size], BLOCK_BYTES, Receive(o, s[BLOCK_BYTES..], total, sum))
  }

  /** The four ways a round of the loop goes. */
  lemma ReceiveDone(o: Order, s: bytes, total: u32, received: u32)
    requires received >= total
    ensures Receive(o, s, total, received) == Outcome(NO_ERROR_R, [], 0)
  {
  }

  lemma ReceiveShort(o: Order, s: bytes, total: u32, received: u32)
    requires received < total && |s| < BLOCK_BYTES
    ensures Receive(o, s, total, received) == Outcome(CLIENT_DISCONNECTED_R, [], |s|)
  {
  }

  lemma ReceiveStep(o: Order, s: bytes, total: u32, received: u32, b: Block)
    requires received < total && |s| >= BLOCK_BYTES && |b.data| == BLOCK_SIZE
    requires b == BlockFromImage(o, s[..BLOCK_BYTES])
    ensures Receive(o, s, total, received)
         == var sum := (received + b.size) % U32_LIMIT;
            if b.size > BLOCK_SIZE || sum > total then Outcome(TYPE_ERROR_R, [], BLOCK_BYTES)
            else Prepend(b.data[..b.size], BLOCK_BYTES, Receive(o, s[BLOCK_BYTES..], total, sum))
  {
    hide BlockFromImage, Prepend;
  }

  lemma PrependTwice(a: bytes, i: nat, b: bytes, j: nat, rest: Outcome)
    ensures Prepend(a, i, Prepend(b, j, rest)) == Prepend(a + b, i + j, rest)
  {
    assert a + (b + rest.data) == (a + b) + rest.data;
  }

  /** `receive_transfer_header`: None when the stream ends too early. */
  method ReceiveTransferHeader(o: Order, rio: Reader) returns (exited: bool, h: Option<Header>)
    requires rio.Valid()
    modifies rio, rio.buf, rio.fd
    ensures rio.Valid()
    ensures exited ==> Broken in old(rio.fd.plan)
    ensures !exited && h.Some? ==>
              && |old(rio.Remaining())| >= HEADER_BYTES
              && h.value == HeaderFromImage(o, old(rio.Remaining())[..HEADER_BYTES])
              && rio.Remaining() == old(rio.Remaining())[HEADER_BYTES..] && |rio.Buffered()| < RIO_BUFSIZE
    ensures !exited && h.None? ==> |old(rio.Remaining())| < HEADER_BYTES && rio.Remaining() == []
    ensures forall e :: e in rio.fd.plan ==> e in old(rio.fd.plan)
  {
    var n, data := rio.ReadNb(HEADER_BYTES);
    if n < 0 {
      return true, None;
    }
    if n != HEADER_BYTES {
      return false, None;
    }
    return false, Some(HeaderFromImage(o, data));
  }

  /** `receive_data_block`. */
  method ReceiveDataBlock(o: Order, rio: Reader) returns (exited: bool, b: Option<Block>)
    requires rio.Valid()
    modifies rio, rio.buf, rio.fd
    ensures rio.Valid()
    ensures exited ==> Broken in old(rio.fd.plan)
    ensures !exited && b.Some? ==>
              && |old(rio.Remaining())| >= BLOCK_BYTES
              && b.value == BlockFromImage(o, old(rio.Remaining())[..BLOCK_BYTES])
              && rio.Remaining() == old(rio.Remaining())[BLOCK_BYTES..] && |rio.Buffered()| < RIO_BUFSIZE
    ensures !exited && b.None? ==> |old(rio.Remaining())| < BLOCK_BYTES && rio.Remaining() == []
    ensures forall e :: e in rio.fd.plan ==> e in old(rio.fd.plan)
  {
    var n, data := rio.ReadNb(BLOCK_BYTES);
    if n < 0 {
      return true, None;
    }
    if n != BLOCK_BYTES {
      return false, None;
    }
    return false, Some(BlockFromImage(o, data));
  }

  /** `receive_file_by_blocks_to_fd`: the loop without a progress callback. */
  method ReceiveFileByBlocksToFd(o: Order, rio: Reader, fd: Sink, totalSize: u32, startOffset: u32)
    returns (code: int)
    requires rio.Valid()
    modifies rio, rio.buf, rio.fd, fd
    ensures rio.Valid()
    ensures code == EXITED ==> Broken in old(rio.fd.plan)
    ensures code == PATH_ERROR_R ==> Broken in old(fd.plan)
    ensures var r := Receive(o, old(rio.Remaining()), totalSize, startOffset);
            if code == EXITED || code == PATH_ERROR_R then
              Wrote(old(fd.sent), fd.sent, r.data, false)
            else
              code == r.code && Wrote(old(fd.sent), fd.sent, r.data, true)
              && rio.Remaining() == old(rio.Remaining())[r.used..]
  {
    hide BlockFromImage, Receive, Reader.Remaining, Reader.Buffered;
    ghost var all := Receive(o, rio.Remaining(), totalSize, startOffset);
    ghost var stream := rio.Remaining();
    ghost var done: bytes := [];
    ghost var used: nat := 0;
    var totalReceived: u32 := startOffset;
    while totalReceived < totalSize
      invariant rio.Valid() && used <= |stream| && rio.Remaining() == stream[used..]
      invariant fd.sent == old(fd.sent) + done
      invariant all == Prepend(done, used, Receive(o, rio.Remaining(), totalSize, totalReceived))
      invariant forall e :: e in rio.fd.plan ==> e in old(rio.fd.plan)
      invariant forall e :: e in fd.plan ==> e in old(fd.plan)
      decreases |rio.Remaining()|
    {
      ghost var left := Receive(o, rio.Remaining(), totalSize, totalReceived);
      var exited, got := ReceiveDataBlock(o, rio);
      if exited {
        assert all.data == done + left.data;
        return EXITED;
      }
      if got.None? {
        ReceiveShort(o, stream[used..], totalSize, totalReceived);
        return CLIENT_DISCONNECTED_R;
      }
      var block := got.value;
      ReceiveStep(o, stream[used..], totalSize, totalReceived, block);
      var sum := (totalReceived + block.size) % U32_LIMIT;
      if block.size > BLOCK_SIZE || sum > totalSize {
        return TYPE_ERROR_R;
      }
      var chunk := block.data[..block.size];
      ghost var before := fd.sent;
      ghost var rest := Receive(o, rio.Remaining(), totalSize, sum);
      var n := WriteN(fd, chunk);
      PrependTwice(done, used, chunk, BLOCK_BYTES, rest);
      if n != block.size {
        WroteMore(old(fd.sent), before, fd.sent, done, chunk, false);
        WroteLess(old(fd.sent), fd.sent, done + chunk, rest.data);
        return PATH_ERROR_R;
      }
      WroteMore(old(fd.sent), before, fd.sent, done, chunk, true);
      done := done + chunk;
      used := used + BLOCK_BYTES;
      totalReceived := sum;
    }
    ReceiveDone(o, rio.Remaining(), totalSize, totalReceived);
    return NO_ERROR_R;
  }

  // ----------------------------------------------------------- what it means

  lemma FirstBlock(o: Order, f: bytes, pos: nat, num: u16, rest: bytes)
    requires pos < |f|
    ensures var s := Blocks(o, f, pos, num) + rest;
            && |s| >= BLOCK_BYTES
            && BlockFromImage(o, s[..BLOCK_BYTES]) == MakeBlock(num, f[pos..BlockEnd(f, pos)])
            && s[BLOCK_BYTES..] == Blocks(o, f, BlockEnd(f, pos), (num + 1) % U16_LIMIT) + rest
  {
    hide BlockImage, BlockFromImage, MakeBlock;
    var b := MakeBlock(num, f[pos..BlockEnd(f, pos)]);
    var s := Blocks(o, f, pos, num) + rest;
    assert s[..BLOCK_BYTES] == BlockImage(o, b);
    BlockRoundTrip(o, b);
  }

  /** One round of the receive loop on an honest block. */
  lemma ReceiveHonestBlock(o: Order, f: bytes, pos: nat, num: u16, s: bytes)
    requires IsFile(f) && pos < |f| && |s| >= BLOCK_BYTES
    requires BlockFromImage(o, s[..BLOCK_BYTES]) == MakeBlock(num, f[pos..BlockEnd(f, pos)])
    ensures Receive(o, s, |f|, pos)
         == Prepend(f[pos..BlockEnd(f, pos)], BLOCK_BYTES, Receive(o, s[BLOCK_BYTES..], |f|, BlockEnd(f, pos)))
  {
    hide BlockFromImage, MakeBlock, Receive;
    var e := BlockEnd(f, pos);
    BlockFields(num, f[pos..e]);
    ReceiveStep(o, s, |f|, pos, MakeBlock(num, f[pos..e]));
  }

  lemma BlockFields(num: u16, data: bytes)
    requires |data| <= BLOCK_SIZE
    ensures var b := MakeBlock(num, data); b.size == |data| && b.data[..b.size] == data
  {
  }

  /** The receive loop undoes the sending loop: it writes exactly the bytes
      from the offset on, and stops exactly after the last block. */
  lemma {:induction false} ReceiveInvertsBlocks(o: Order, f: bytes, pos: nat, num: u16, rest: bytes)
    requires IsFile(f) && pos <= |f|
    ensures Receive(o, Blocks(o, f, pos, num) + rest, |f|, pos)
         == Outcome(NO_ERROR_R, f[pos..], |Blocks(o, f, pos, num)|)
    decreases |f| - pos
  {
    if pos < |f| {
      hide BlockImage, BlockFromImage, Receive, MakeBlock, BlockEnd, IsFile;
      var e := BlockEnd(f, pos);
      var all := Blocks(o, f, pos, num) + rest;
      FirstBlock(o, f, pos, num, rest);
      ReceiveHonestBlock(o, f, pos, num, all);
      ReceiveInvertsBlocks(o, f, e, (num + 1) % U16_LIMIT, rest);
      assert f[pos..e] + f[e..] == f[pos..];
    }
  }

  lemma PrefixSplits(s: bytes, all: bytes, n: nat)
    requires s <= all && n <= |s|
    ensures s[..n] == all[..n] && s[n..] <= all[n..]
    ensures s[n..] == all[n..] ==> s == all
  {
    assert s == s[..n] + s[n..] && all == all[..n] + all[n..];
  }

  /** A connection cut anywhere inside the blocks delivers whole blocks only:
      a prefix of the file, never past the cut. */
  lemma {:induction false} ReceiveOfCut(o: Order, f: bytes, pos: nat, num: u16, s: bytes)
    requires IsFile(f) && pos <= |f| && s <= Blocks(o, f, pos, num) && s != Blocks(o, f, pos, num)
    ensures Receive(o, s, |f|, pos).code == CLIENT_DISCONNECTED_R
    ensures Receive(o, s, |f|, pos).data <= f[pos..]
    decreases |f| - pos
  {
    hide BlockImage, BlockFromImage, Receive, MakeBlock;
    var e := BlockEnd(f, pos);
    if |s| < BLOCK_BYTES {
      ReceiveShort(o, s, |f|, pos);
    } else {
      var all := Blocks(o, f, pos, num);
      FirstBlock(o, f, pos, num, []);
      assert all + [] == all;
      var rest := Blocks(o, f, e, (num + 1) % U16_LIMIT);
      assert rest + [] == rest;
      PrefixSplits(s, all, BLOCK_BYTES);
      ReceiveHonestBlock(o, f, pos, num, s);
      ReceiveOfCut(o, f, e, (num + 1) % U16_LIMIT, s[BLOCK_BYTES..]);
      assert f[pos..e] + f[e..] == f[pos..];
    }
  }

  /** Offsets a receiver can record: block boundaries and the end. */
  predicate Boundary(f: bytes, k: nat) {
    k <= |f| && (k % BLOCK_SIZE == 0 || k == |f|)
  }

  /** `tail` ends `whole`, after `n` bytes. */
  ghost predicate EndsWith(whole: bytes, tail: bytes, n: nat) {
    n <= |whole| && whole[n..] == tail
  }

  /** The stream resumed at a recorded offset is byte for byte the end of the
      full transfer's stream; at a block boundary it leaves out exactly the
      blocks before it. */
  lemma {:induction false} ResumedIsTail(o: Order, f: bytes, pos: nat, k: nat) returns (n: nat)
    requires Boundary(f, k) && pos % BLOCK_SIZE == 0 && pos <= k
    ensures EndsWith(Blocks(o, f, pos, BlockNumber(pos)), Blocks(o, f, k, BlockNumber(k)), n)
    ensures k % BLOCK_SIZE == 0 ==> n == BLOCK_BYTES * ((k - pos) / BLOCK_SIZE)
    decreases k - pos
  {
    hide Blocks, BlockNumber, BlockEnd, Boundary, EndsWith;
    var e := BlockEnd(f, pos);
    NextBoundary(f, pos, k);
    if pos == k {
      n := 0;
      Itself(Blocks(o, f, pos, BlockNumber(pos)));
    } else if e == k {
      n := BLOCK_BYTES;
      LastBefore(o, f, pos, k);
    } else {
      var m := ResumedIsTail(o, f, e, k);
      n := BLOCK_BYTES + m;
      BlockBefore(o, f, pos, Blocks(o, f, k, BlockNumber(k)), m);
    }
  }

  lemma Itself(s: bytes)
    ensures EndsWith(s, s, 0)
  {
  }

  /** One more block in front of what has `tail` at its end. */
  lemma BlockBefore(o: Order, f: bytes, pos: nat, tail: bytes, m: nat)
    requires pos < |f| && BlockNumber(BlockEnd(f, pos)) == (BlockNumber(pos) + 1) % U16_LIMIT
    requires EndsWith(Blocks(o, f, BlockEnd(f, pos), BlockNumber(BlockEnd(f, pos))), tail, m)
    ensures EndsWith(Blocks(o, f, pos, BlockNumber(pos)), tail, BLOCK_BYTES + m)
  {
    hide BlockImage, MakeBlock, Blocks, BlockNumber;
    BlocksStep(o, f, pos, BlockNumber(pos));
  }

  lemma LastBefore(o: Order, f: bytes, pos: nat, k: nat)
    requires pos < |f| && BlockEnd(f, pos) == k
    requires k == |f| || BlockNumber(k) == (BlockNumber(pos) + 1) % U16_LIMIT
    ensures EndsWith(Blocks(o, f, pos, BlockNumber(pos)), Blocks(o, f, k, BlockNumber(k)), BLOCK_BYTES)
  {
    hide BlockImage, MakeBlock, BlockNumber;
    BlocksStep(o, f, pos, BlockNumber(pos));
  }

  /** From one block boundary to the next, on the way to a recorded offset. */
  lemma NextBoundary(f: bytes, pos: nat, k: nat)
    requires Boundary(f, k) && pos % BLOCK_SIZE == 0 && pos <= k
    ensures k <= |f| && (k - pos) / BLOCK_SIZE >= 0
    ensures pos < k ==>
              var e := BlockEnd(f, pos);
              && pos < e <= k
              && (e < k ==> e % BLOCK_SIZE == 0 && (k - pos) / BLOCK_SIZE == (k - e) / BLOCK_SIZE + 1)
              && (e == k && k % BLOCK_SIZE == 0 ==> (k - pos) / BLOCK_SIZE == 1)
              && (e < k || k % BLOCK_SIZE == 0 ==> BlockNumber(e) == (BlockNumber(pos) + 1) % U16_LIMIT)
              && (e == k && k % BLOCK_SIZE != 0 ==> k == |f|)
  {
    hide BlockNumber;
    if pos < k {
      var e := BlockEnd(f, pos);
      if e < k || k % BLOCK_SIZE == 0 {
        OneBlockOn(pos, e);
        OneBlockMore(pos, k);
      }
    }
  }

  lemma OneBlockOn(pos: nat, e: nat)
    requires pos % BLOCK_SIZE == 0 && pos < e <= pos + BLOCK_SIZE && (e % BLOCK_SIZE == 0 || e == pos + BLOCK_SIZE)
    ensures e == pos + BLOCK_SIZE && e % BLOCK_SIZE == 0 && (e - pos) / BLOCK_SIZE == 1
    ensures BlockNumber(e) == (BlockNumber(pos) + 1) % U16_LIMIT
  {
  }

  lemma OneBlockMore(pos: nat, k: nat)
    requires pos + BLOCK_SIZE <= k
    ensures (k - pos) / BLOCK_SIZE == (k - (pos + BLOCK_SIZE)) / BLOCK_SIZE + 1
  {
  }

  /** Block `i` of a full transfer carries the number `i` modulo 2^16 and the
      bytes from `512 * i` on. */
  lemma BlockAt(o: Order, f: bytes, i: nat)
    requires i * BLOCK_SIZE < |f|
    ensures var s := Blocks(o, f, 0, 0);
            && |s| >= (i + 1) * BLOCK_BYTES
            && BlockFromImage(o, s[i * BLOCK_BYTES..(i + 1) * BLOCK_BYTES])
               == MakeBlock(i % U16_LIMIT, f[i * BLOCK_SIZE..BlockEnd(f, i * BLOCK_SIZE)])
  {
    var k := i * BLOCK_SIZE;
    hide BlockImage, BlockFromImage, MakeBlock;
    var n := ResumedIsTail(o, f, 0, k);
    var s := Blocks(o, f, 0, 0);
    assert k / BLOCK_SIZE == i;
    FirstBlock(o, f, k, BlockNumber(k), []);
    assert Blocks(o, f, k, BlockNumber(k)) + [] == Blocks(o, f, k, BlockNumber(k));
    assert s[i * BLOCK_BYTES..(i + 1) * BLOCK_BYTES] == Blocks(o, f, k, BlockNumber(k))[..BLOCK_BYTES];
  }

  // ------------------------------------------ arbitrary streams of blocks

  /** Data size announced by block `i` of a stream. */
  function SizeAt(o: Order, s: bytes, i: nat): u16
    requires (i + 1) * BLOCK_BYTES <= |s|
  {
    BlockFromImage(o, s[i * BLOCK_BYTES..(i + 1) * BLOCK_BYTES]).size
  }

  function SizeSum(o: Order, s: bytes, n: nat): nat
    requires n * BLOCK_BYTES <= |s|
  {
    if n == 0 then 0 else SizeSum(o, s, n - 1) + SizeAt(o, s, n - 1)
  }

  /** The first `n` blocks are well-sized and add up to `goal`. */
  ghost predicate AddsUp(o: Order, s: bytes, n: nat, goal: nat) {
    n * BLOCK_BYTES <= |s| && (forall i :: 0 <= i < n ==> SizeAt(o, s, i) <= BLOCK_SIZE) && SizeSum(o, s, n) == goal
  }

  ghost predicate Reaches(o: Order, s: bytes, goal: nat) {
    exists n: nat :: n * BLOCK_BYTES <= |s| && AddsUp(o, s, n, goal)
  }

  const SAFE_TOTAL: nat := U32_LIMIT - BLOCK_SIZE

  lemma SizeShift(o: Order, s: bytes, i: nat)
    requires (i + 2) * BLOCK_BYTES <= |s|
    ensures SizeAt(o, s[BLOCK_BYTES..], i) == SizeAt(o, s, i + 1)
  {
    assert s[BLOCK_BYTES..][i * BLOCK_BYTES..(i + 1) * BLOCK_BYTES] == s[(i + 1) * BLOCK_BYTES..(i + 2) * BLOCK_BYTES];
  }

  lemma {:induction false} SumShift(o: Order, s: bytes, n: nat)
    requires (n + 1) * BLOCK_BYTES <= |s|
    ensures SizeSum(o, s, n + 1) == SizeAt(o, s, 0) + SizeSum(o, s[BLOCK_BYTES..], n)
  {
    if n > 0 {
      SumShift(o, s, n - 1);
      SizeShift(o, s, n - 1);
    }
  }

  lemma AddsUpShift(o: Order, s: bytes, n: nat, goal: nat)
    requires |s| >= BLOCK_BYTES && SizeAt(o, s, 0) <= BLOCK_SIZE
    ensures AddsUp(o, s[BLOCK_BYTES..], n, goal) <==> AddsUp(o, s, n + 1, SizeAt(o, s, 0) + goal)
  {
    var t := s[BLOCK_BYTES..];
    if (n + 1) * BLOCK_BYTES <= |s| {
      SumShift(o, s, n);
      forall i | 0 <= i < n ensures SizeAt(o, t, i) == SizeAt(o, s, i + 1) {
        SizeShift(o, s, i);
      }
      if AddsUp(o, t, n, goal) {
        forall i | 0 <= i < n + 1 ensures SizeAt(o, s, i) <= BLOCK_SIZE {
          if i > 0 {
            assert SizeAt(o, t, i - 1) <= BLOCK_SIZE;
          }
        }
      }
    }
  }

  /** For a total that leaves a block's room below 2^32, whatever the stream
      holds: the sum never wraps, nothing is written past the total, whole
      blocks are consumed, and the transfer succeeds exactly when the sizes
      of some leading blocks add up to what was missing. */
  lemma {:induction false} ReceiverBound(o: Order, s: bytes, total: u32, received: u32)
    requires received <= total <= SAFE_TOTAL
    ensures var r := Receive(o, s, total, received);
            && |r.data| <= total - received
            && (r.code == NO_ERROR_R ==> |r.data| == total - received && r.used % BLOCK_BYTES == 0)
            && (r.code == NO_ERROR_R <==> Reaches(o, s, total - received))
    decreases |s|
  {
    hide BlockFromImage, Reaches, AddsUp, Receive;
    if received == total || |s| < BLOCK_BYTES {
      SumsOfNothing(o, s, total - received);
      if received == total {
        ReceiveDone(o, s, total, received);
      } else {
        ReceiveShort(o, s, total, received);
      }
    } else {
      var b := BlockFromImage(o, s[..BLOCK_BYTES]);
      assert SizeAt(o, s, 0) == b.size;
      ReceiveStep(o, s, total, received, b);
      if b.size > BLOCK_SIZE || received + b.size > total {
        NoSum(o, s, total - received);
      } else {
        ReceiverBound(o, s[BLOCK_BYTES..], total, received + b.size);
        SumsAgree(o, s, total - received);
      }
    }
  }

  lemma SumsOfNothing(o: Order, s: bytes, goal: nat)
    requires goal == 0 || |s| < BLOCK_BYTES
    ensures Reaches(o, s, goal) <==> goal == 0
  {
    hide BlockFromImage;
    assert AddsUp(o, s, 0, 0);
  }

  lemma NoSum(o: Order, s: bytes, goal: nat)
    requires goal > 0 && |s| >= BLOCK_BYTES && (SizeAt(o, s, 0) > BLOCK_SIZE || SizeAt(o, s, 0) > goal)
    ensures !Reaches(o, s, goal)
  {
    hide SizeAt;
    forall n: nat | n > 0 && n * BLOCK_BYTES <= |s| ensures SizeSum(o, s, n) >= SizeAt(o, s, 0) {
      SumAtLeastFirst(o, s, n);
    }
  }

  lemma {:induction false} SumAtLeastFirst(o: Order, s: bytes, n: nat)
    requires 0 < n && n * BLOCK_BYTES <= |s|
    ensures SizeSum(o, s, n) >= SizeAt(o, s, 0)
  {
    if n > 1 {
      SumAtLeastFirst(o, s, n - 1);
    }
  }

  lemma SumsAgree(o: Order, s: bytes, goal: nat)
    requires |s| >= BLOCK_BYTES && SizeAt(o, s, 0) <= BLOCK_SIZE && SizeAt(o, s, 0) <= goal && goal > 0
    ensures Reaches(o, s[BLOCK_BYTES..], goal - SizeAt(o, s, 0)) <==> Reaches(o, s, goal)
  {
    var first := SizeAt(o, s, 0);
    if Reaches(o, s[BLOCK_BYTES..], goal - first) {
      var n: nat :| n * BLOCK_BYTES <= |s[BLOCK_BYTES..]| && AddsUp(o, s[BLOCK_BYTES..], n, goal - first);
      AddsUpShift(o, s, n, goal - first);
      assert (n + 1) * BLOCK_BYTES <= |s|;
    }
    if Reaches(o, s, goal) {
      var n: nat :| n * BLOCK_BYTES <= |s| && AddsUp(o, s, n, goal);
      AddsUpShift(o, s, n - 1, goal - first);
      assert (n - 1) * BLOCK_BYTES <= |s[BLOCK_BYTES..]|;
    }
  }

  /** The bound on the total is exact: above it, one block announced at the
      last missing byte wraps the 32-bit sum and is written past the total. */
  lemma SafeTotalIsExact(o: Order, total: u32)
    ensures total <= SAFE_TOTAL
       <==> forall s: bytes, received: u32 :: received <= total ==>
              |Receive(o, s, total, received).data| <= total - received
  {
    if total <= SAFE_TOTAL {
      forall s: bytes, received: u32 | received <= total
        ensures |Receive(o, s, total, received).data| <= total - received
      {
        ReceiverBound(o, s, total, received);
      }
    } else {
      var b := Block(0, BLOCK_SIZE, Zeros(BLOCK_SIZE));
      var s := BlockImage(o, b);
      BlockRoundTrip(o, b);
      assert s[..BLOCK_BYTES] == s;
      assert (total - 1 + BLOCK_SIZE) % U32_LIMIT == total - 1 + BLOCK_SIZE - U32_LIMIT;
      assert |Receive(o, s, total, total - 1).data| >= BLOCK_SIZE;
    }
  }

  // ------------------------------------------------------------- end to end

  /** A whole transfer over a connection: the sender writes to a socket under
      `sendPlan`, the receiver reads the same bytes, followed by `tail`, under
      `receivePlan`. */
  method TransferOver(o: Order, f: bytes, offset: u32, tail: bytes,
                      readPlan: seq<CallEvent>, sendPlan: seq<CallEvent>, receivePlan: seq<CallEvent>)
    returns (out: Sink, rio: Reader, code: int)
    requires IsFile(f) && offset <= |f|
    requires Broken !in readPlan && Broken !in sendPlan && Broken !in receivePlan
    ensures code == NO_ERROR_R && out.sent == f[offset..]
    ensures rio.Valid() && rio.Remaining() == tail
  {
    hide HeaderImage, HeaderFromImage, Blocks, Receive, Reader.Remaining, Reader.Buffered;
    var sock := new Sink(sendPlan);
    var sent := SendFileByBlocksFromOffset(o, sock, Some(f), offset, readPlan);
    var blocks := Blocks(o, f, offset, BlockNumber(offset));
    var fd := new Source(sock.sent + tail, receivePlan);
    rio := new Reader(fd);
    out := new Sink([]);
    var h := GoodHeader(o, |f|);
    assert rio.Remaining() == h + (blocks + tail);
    var exited, header := ReceiveTransferHeader(o, rio);
    HeaderRoundTrip(o, Header(|f|, BLOCK_SIZE, Tag(o), NO_ERROR_R));
    assert (h + (blocks + tail))[..HEADER_BYTES] == h;
    assert rio.Remaining() == blocks + tail;
    ReceiveInvertsBlocks(o, f, offset, BlockNumber(offset), tail);
    code := ReceiveFileByBlocksToFd(o, rio, out, header.value.total, offset);
  }

  // ------------------------------------------------- contents without a file

  /** `send_content`: what is sent for a text is what would be sent for a file
      that holds it. */
  method SendContent(o: Order, sock: Sink, content: bytes) returns (code: int)
    requires IsFile(content)
    modifies sock
    ensures code == NO_ERROR_R || (code == CLIENT_DISCONNECTED_R && Broken in old(sock.plan))
    ensures Wrote(old(sock.sent), sock.sent, Served(o, Some(content), 0), code == NO_ERROR_R)
  {
    hide BlockImage, MakeBlock, Blocks, Wrote, GoodHeader;
    ghost var blocks := Blocks(o, content, 0, 0);
    ghost var before := sock.sent;
    var r := SocketWriteAll(sock, GoodHeader(o, |content|));
    if r != 0 {
      WroteLess(before, sock.sent, GoodHeader(o, |content|), blocks);
      return CLIENT_DISCONNECTED_R;
    }
    ghost var done := GoodHeader(o, |content|);
    var blockNum: nat := 0;
    var i: nat := 0;
    while i < |content|
      invariant i == BLOCK_SIZE * blockNum
      invariant forall e :: e in sock.plan ==> e in old(sock.plan)
      invariant Wrote(before, sock.sent, done, true)
      invariant i <= |content| ==>
                  GoodHeader(o, |content|) + blocks == done + Blocks(o, content, i, blockNum % U16_LIMIT)
      invariant i > |content| ==> GoodHeader(o, |content|) + blocks == done
    {
      var size := if i + BLOCK_SIZE <= |content| then BLOCK_SIZE else |content| - i;
      var data := content[i..i + size];
      assert data == content[i..BlockEnd(content, i)];
      BlocksStep(o, content, i, blockNum % U16_LIMIT);
      ghost var image := BlockImage(o, MakeBlock(blockNum % U16_LIMIT, data));
      ghost var rest := Blocks(o, content, BlockEnd(content, i), (blockNum % U16_LIMIT + 1) % U16_LIMIT);
      Assoc(done, image, rest);
      ghost var middle := sock.sent;
      r := SendDataBlock(o, sock, blockNum % U16_LIMIT, data);
      WroteMore(before, middle, sock.sent, done, image, r == 0);
      if r != 0 {
        WroteLess(before, sock.sent, done + image, rest);
        return CLIENT_DISCONNECTED_R;
      }
      done := done + image;
      if size < BLOCK_SIZE {
        assert rest == [] && done + [] == done;
      }
      i := i + BLOCK_SIZE;
      blockNum := blockNum + 1;
    }
    if i == |content| {
      assert Blocks(o, content, i, blockNum % U16_LIMIT) == [] && done + [] == done;
    }
    return NO_ERROR_R;
  }

  /** `receive_content` on what was sent for a content. Each block goes out in
      one `write`: a failure ends the transfer, but a short count is not
      noticed, and what it leaves out is missing from the output. */
  method ReceiveContent(o: Order, rio: Reader, out: Sink, ghost content: bytes, ghost tail: bytes) returns (code: int)
    requires IsFile(content) && rio.Valid() && rio.Remaining() == Served(o, Some(content), 0) + tail
    requires Broken !in rio.fd.plan
    modifies rio, rio.buf, rio.fd, out
    ensures code == NO_ERROR_R || code == LOCAL_ERROR
    ensures code == LOCAL_ERROR ==> exists e :: e in old(out.plan) && !e.Upto?
    ensures code == NO_ERROR_R ==> rio.Valid() && rio.Remaining() == tail
    ensures |out.sent| <= |old(out.sent)| + |content|
    ensures code == NO_ERROR_R && |out.sent| == |old(out.sent)| + |content| ==> out.sent == old(out.sent) + content
    ensures old(out.plan) == [] ==> code == NO_ERROR_R && out.sent == old(out.sent) + content
  {
    hide HeaderImage, HeaderFromImage, Blocks, BlockFromImage, MakeBlock, Reader.Remaining, Reader.Buffered;
    ghost var f := content;
    ghost var h := Header(|f|, BLOCK_SIZE, Tag(o), NO_ERROR_R);
    ghost var blocks := Blocks(o, f, 0, 0);
    Assoc(HeaderImage(o, h), blocks, tail);
    HeaderRoundTrip(o, h);
    assert (HeaderImage(o, h) + (blocks + tail))[..HEADER_BYTES] == HeaderImage(o, h);
    var exited, header := ReceiveTransferHeader(o, rio);
    assert rio.Remaining() == blocks + tail;
    var totalReceived: nat := 0;
    ghost var num: u16 := 0;
    assert f[..0] == [] && out.sent + [] == out.sent;
    while totalReceived < header.value.total
      invariant totalReceived <= |f| && Broken !in rio.fd.plan
      invariant rio.Valid() && rio.Remaining() == Blocks(o, f, totalReceived, num) + tail
      invariant forall e :: e in out.plan ==> e in old(out.plan)
      invariant |out.sent| <= |old(out.sent)| + totalReceived
      invariant |out.sent| == |old(out.sent)| + totalReceived ==> out.sent == old(out.sent) + f[..totalReceived]
      invariant old(out.plan) == [] ==> out.plan == [] && |out.sent| == |old(out.sent)| + totalReceived
    {
      ghost var e := BlockEnd(f, totalReceived);
      FirstBlock(o, f, totalReceived, num, tail);
      BlockFields(num, f[totalReceived..e]);
      var stopped, block := ReceiveDataBlock(o, rio);
      var data := block.value.data[..block.value.size];
      var n, eintr := out.Write(data);
      if n < 0 {
        return LOCAL_ERROR;
      }
      assert n == |data| ==> data[..n] == data;
      assert f[..totalReceived] + data == f[..e];
      totalReceived := totalReceived + block.value.size;
      num := (num + 1) % U16_LIMIT;
    }
    assert f[..totalReceived] == f;
    assert Blocks(o, f, totalReceived, num) == [] && [] + tail == tail;
    return NO_ERROR_R;
  }

  /** `write_all_fd`. */
  method WriteAllFd(fd: Sink, data: bytes) returns (ok: bool)
    modifies fd
    ensures Wrote(old(fd.sent), fd.sent, data, ok)
    ensures !ok ==> Broken in old(fd.plan)
  {
    var written: nat := 0;
    assert fd.sent + data[..0] == fd.sent;
    while written < |data|
      invariant written <= |data| && fd.sent == old(fd.sent) + data[..written]
      invariant forall e :: e in fd.plan ==> e in old(fd.plan)
    {
      ghost var before := fd.sent;
      var rest := data[written..];
      var n := WriteN(fd, rest);
      if n < 0 {
        assert data == data[..written] + rest;
        WroteMore(old(fd.sent), before, fd.sent, data[..written], rest, false);
        return false;
      }
      assert data[..written] + rest == data[..written + n];
      written := written + n;
    }
    assert data[..written] == data;
    return true;
  }

  // ------------------------------------------------------------- byte orders

  /** A header sent by a host of one order and read by a host of another. */
  function HeaderAcross(sender: Order, receiver: Order, total: u32): Header {
    HeaderFromImage(receiver, GoodHeader(sender, total))
  }

  /** Between hosts of different order the total is right only when the
      receiver is little-endian, or the number reads the same both ways. */
  lemma HeaderAcrossOrders(sender: Order, receiver: Order, total: u32)
    ensures HeaderAcross(sender, receiver, total).total == total
       <==> sender == receiver || receiver.Little? || Swap32(total) == total
  {
    SwapReverses(total);
    U32RoundTrip(sender, total);
    assert GoodHeader(sender, total)[..4] == U32Bytes(sender, total);
  }

  /** Block sizes are never swapped: between hosts of different order a size is
      right only if its two bytes are equal, so a full block never is. */
  lemma BlockSizeAcrossOrders(sender: Order, receiver: Order, size: u16)
    ensures ReadU16(receiver, U16Bytes(sender, size)) == size
       <==> sender == receiver || size % 0x100 == size / 0x100
    ensures sender != receiver ==> ReadU16(receiver, U16Bytes(sender, BLOCK_SIZE)) != BLOCK_SIZE
  {
  }
}
