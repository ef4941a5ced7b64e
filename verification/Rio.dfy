/**
 The Rio package: reads and writes that survive short counts and interrupted
 system calls, and the buffered reader built on them.

 A descriptor holds the bytes the kernel has still to deliver and a plan of
 how its next system calls behave; once the plan is used up every call moves
 as much as it can. Statements hold for every plan.
 */
module Rio {
  import opened Bytes
  import Text

  const RIO_BUFSIZE: nat := 8192

  datatype CallEvent = Upto(most: nat) | Interrupted | Broken

  /** The reading side of a descriptor. */
  class Source {
    var unread: bytes
    var plan: seq<CallEvent>

    constructor (content: bytes, plan: seq<CallEvent>)
      ensures unread == content && this.plan == plan
    {
      unread, this.plan := content, plan;
    }

    ghost predicate Healthy()
      reads this
    {
      Broken !in plan
    }

    /** `read(2)`: `r` is -1 on failure, 0 at end of file, a count otherwise. */
    method Read(n: nat) returns (r: int, interrupted: bool, data: bytes)
      requires n > 0
      modifies this
      ensures old(unread) == data + unread && |data| <= n
      ensures r == (if r < 0 then -1 else |data|) && (r < 0 ==> data == [])
      ensures r == 0 ==> unread == []
      ensures r < 0 ==> |plan| < |old(plan)|
      ensures r < 0 && !interrupted ==> Broken in old(plan)
      ensures forall e :: e in plan ==> e in old(plan)
    {
      var most := |unread|;
      if plan != [] {
        var event := plan[0];
        plan := plan[1..];
        match event {
          case Interrupted => return -1, true, [];
          case Broken => return -1, false, [];
          case Upto(m) => most := m + 1;
        }
      }
      var k := Min(Min(most, n), |unread|);
      data := unread[..k];
      unread := unread[k..];
      return k, false, data;
    }
  }

  /** `rio_readn`: `n` bytes unless the stream ends first. */
  method ReadN(fd: Source, n: nat) returns (r: int, data: bytes)
    modifies fd
    ensures old(fd.unread) == data + fd.unread
    ensures r < 0 ==> r == -1 && Broken in old(fd.plan)
    ensures r >= 0 ==> r == |data| == Min(n, |old(fd.unread)|)
    ensures forall e :: e in fd.plan ==> e in old(fd.plan)
  {
    var nleft: nat := n;
    data := [];
    while nleft > 0
      invariant nleft <= n && |data| == n - nleft
      invariant old(fd.unread) == data + fd.unread
      invariant forall e :: e in fd.plan ==> e in old(fd.plan)
      decreases nleft, |fd.plan|
    {
      assert |old(fd.unread)| == |data| + |fd.unread|;
      var nread, interrupted, got := fd.Read(nleft);
      if nread < 0 {
        if interrupted {
          nread := 0;
        } else {
          return -1, data;
        }
      } else if nread == 0 {
        break;
      }
      nleft := nleft - nread;
      data := data + got;
    }
    assert |old(fd.unread)| == |data| + |fd.unread|;
    return n - nleft, data;
  }

  /** The writing side of a descriptor: everything accepted so far. */
  class Sink {
    var sent: bytes
    var plan: seq<CallEvent>

    constructor (plan: seq<CallEvent>)
      ensures sent == [] && this.plan == plan
    {
      sent, this.plan := [], plan;
    }

    /** `write(2)`: -1 on failure, otherwise how many bytes were taken. */
    method Write(data: bytes) returns (r: int, interrupted: bool)
      requires data != []
      modifies this
      ensures r == -1 || 0 < r <= |data|
      ensures sent == old(sent) + (if r < 0 then [] else data[..r])
      ensures old(plan) == [] ==> r == |data| && plan == []
      ensures r < 0 ==> |plan| < |old(plan)|
      ensures r < 0 ==> exists e :: e in old(plan) && !e.Upto?
      ensures r < 0 && !interrupted ==> Broken in old(plan)
      ensures forall e :: e in plan ==> e in old(plan)
    {
      var most := |data|;
      if plan != [] {
        var event := plan[0];
        assert event in plan;
        plan := plan[1..];
        match event {
          case Interrupted => return -1, true;
          case Broken => return -1, false;
          case Upto(m) => most := m + 1;
        }
      }
      r := Min(most, |data|);
      sent := sent + data[..r];
      return r, false;
    }
  }

  /** `rio_writen`: all of `data`, or a prefix of it and -1. */
  method WriteN(fd: Sink, data: bytes) returns (r: int)
    modifies fd
    ensures r == -1 || r == |data|
    ensures r == |data| ==> fd.sent == old(fd.sent) + data
    ensures r != |data| ==> Broken in old(fd.plan) && old(fd.sent) <= fd.sent <= old(fd.sent) + data
    ensures forall e :: e in fd.plan ==> e in old(fd.plan)
  {
    var nleft: nat := |data|;
    while nleft > 0
      invariant nleft <= |data|
      invariant fd.sent == old(fd.sent) + data[..|data| - nleft]
      invariant forall e :: e in fd.plan ==> e in old(fd.plan)
      decreases nleft, |fd.plan|
    {
      var rest := data[|data| - nleft..];
      var nwritten, interrupted := fd.Write(rest);
      if nwritten < 0 {
        if interrupted {
          nwritten := 0;
        } else {
          return -1;
        }
      }
      assert data[..|data| - nleft] + rest[..nwritten] == data[..|data| - nleft + nwritten];
      nleft := nleft - nwritten;
    }
    return |data|;
  }

  /** `rio_t`. */
  class Reader {
    const fd: Source
    var cnt: int
    var ptr: nat
    const buf: array<byte>

    ghost predicate Valid()
      reads this
    {
      buf.Length == RIO_BUFSIZE && (cnt > 0 ==> ptr + cnt <= RIO_BUFSIZE)
    }

    /** Bytes taken from the descriptor but not yet handed to the caller. */
    ghost function Buffered(): bytes
      requires Valid()
      reads this, buf
    {
      if cnt <= 0 then [] else buf[ptr..ptr + cnt]
    }

    /** What the caller has still to receive. */
    ghost function Remaining(): bytes
      requires Valid()
      reads this, buf, fd
    {
      Buffered() + fd.unread
    }

    /** `rio_readinitb`. */
    constructor (fd: Source)
      ensures Valid() && this.fd == fd && fresh(buf)
      ensures Remaining() == fd.unread
    {
      this.fd := fd;
      cnt, ptr := 0, 0;
      buf := new byte[RIO_BUFSIZE];
    }

    /** One refill of the empty internal buffer by `read(2)`. */
    method Refill() returns (interrupted: bool)
      requires Valid() && cnt <= 0
      modifies this, buf, fd
      ensures Valid() && Remaining() == old(Remaining())
      ensures cnt >= -1 && (cnt == 0 ==> Remaining() == [])
      ensures cnt < 0 ==> |fd.plan| < |old(fd.plan)| && (!interrupted ==> Broken in old(fd.plan))
      ensures forall e :: e in fd.plan ==> e in old(fd.plan)
    {
      var nread, eintr, got := fd.Read(buf.Length);
      forall i | 0 <= i < |got| {
        buf[i] := got[i];
      }
      cnt := nread;
      interrupted := eintr;
      if cnt > 0 {
        ptr := 0;
        assert Buffered() == got;
      }
    }

    /** The refill loop of `rio_read`: 0 when the buffer holds something. */
    method Await() returns (r: int, eof: bool)
      requires Valid()
      modifies this, buf, fd
      ensures Valid() && Remaining() == old(Remaining())
      ensures r == 0 || (r == -1 && Broken in old(fd.plan))
      ensures r == 0 ==> if eof then Remaining() == [] else cnt > 0
      ensures forall e :: e in fd.plan ==> e in old(fd.plan)
    {
      hide Buffered, Remaining;
      while cnt <= 0
        invariant Valid() && Remaining() == old(Remaining())
        invariant forall e :: e in fd.plan ==> e in old(fd.plan)
        decreases cnt <= 0, |fd.plan|
      {
        var interrupted := Refill();
        if cnt < 0 {
          if !interrupted {
            return -1, false;
          }
        } else if cnt == 0 {
          return 0, true;
        }
      }
      return 0, false;
    }

    /** `rio_read`: refills the internal buffer when it is empty. */
    method Read(n: nat) returns (r: int, data: bytes)
      requires Valid() && n > 0
      modifies this, buf, fd
      ensures Valid() && old(Remaining()) == data + Remaining()
      ensures r < 0 ==> r == -1 && data == [] && Broken in old(fd.plan)
      ensures r >= 0 ==> r == |data| <= n && (r == 0 ==> Remaining() == [])
      ensures r >= 0 ==> |Buffered()| < RIO_BUFSIZE
      ensures forall e :: e in fd.plan ==> e in old(fd.plan)
    {
      hide Buffered, Remaining;
      var rc, eof := Await();
      if rc < 0 || eof {
        NothingBuffered();
        return rc, [];
      }
      var k := n;
      if cnt < n {
        k := cnt;
      }
      data := Take(k);
      return k, data;
    }

    lemma NothingBuffered()
      requires Valid()
      ensures Remaining() == [] ==> Buffered() == []
    {
    }

    /** Hands out the next `k` buffered bytes. */
    method Take(k: nat) returns (data: bytes)
      requires Valid() && 0 < k <= cnt
      modifies this
      ensures Valid() && |data| == k && old(Remaining()) == data + Remaining()
      ensures |Buffered()| < RIO_BUFSIZE
    {
      data := buf[ptr..ptr + k];
      ghost var left := buf[ptr + k..ptr + cnt];
      SplitFront(buf[..], ptr, ptr + k, ptr + cnt, fd.unread);
      ptr := ptr + k;
      cnt := cnt - k;
      assert Buffered() == left;
    }

    /** `rio_readnb`. A negative count can only follow a broken descriptor. */
    method ReadNb(n: nat) returns (r: int, data: bytes)
      requires Valid()
      modifies this, buf, fd
      ensures Valid() && old(Remaining()) == data + Remaining()
      ensures r < 0 ==> r == -1 && Broken in old(fd.plan)
      ensures r >= 0 ==> r == |data| == Min(n, |old(Remaining())|)
      ensures r > 0 ==> |Buffered()| < RIO_BUFSIZE
      ensures forall e :: e in fd.plan ==> e in old(fd.plan)
    {
      hide Buffered, Remaining;
      var nleft: nat := n;
      data := [];
      while nleft > 0
        invariant Valid() && nleft <= n && |data| == n - nleft
        invariant old(Remaining()) == data + Remaining()
        invariant data != [] ==> |Buffered()| < RIO_BUFSIZE
        invariant forall e :: e in fd.plan ==> e in old(fd.plan)
        decreases nleft
      {
        var nread, got := Read(nleft);
        if nread < 0 {
          return -1, data;
        } else if nread == 0 {
          break;
        }
        nleft := nleft - nread;
        data := data + got;
      }
      return n - nleft, data;
    }

    /** `rio_readlineb`. */
    method ReadLineb(maxlen: nat) returns (r: int, line: bytes)
      requires Valid() && maxlen > 0
      modifies this, buf, fd
      ensures Valid() && old(Remaining()) == line + Remaining()
      ensures r < 0 ==> r == -1 && Broken in old(fd.plan)
      ensures r >= 0 ==> Reply(r, line) == PlainReply(old(Remaining()), Line(maxlen))
      ensures r >= 0 ==> IsLine(old(Remaining()), maxlen, r, line)
      ensures forall e :: e in fd.plan ==> e in old(fd.plan)
    {
      hide Buffered, Remaining, PlainReply, IsLine;
      ghost var all := Remaining();
      var n: nat := 1;
      line := [];
      while n < maxlen
        invariant Valid() && 1 <= n <= maxlen && |line| == n - 1
        invariant all == line + Remaining() && NL !in line
        invariant forall e :: e in fd.plan ==> e in old(fd.plan)
      {
        ghost var before := line;
        var rc, got := Read(1);
        if rc == 1 {
          Assoc(before, got, Remaining());
          line := line + got;
          if got[0] == NL {
            LineEnds(all, before, Remaining(), maxlen);
            return n, line;
          }
        } else if rc == 0 {
          if n == 1 {
            NoLine(maxlen);
            return 0, line;
          } else {
            break;
          }
        } else {
          return -1, line;
        }
        n := n + 1;
      }
      LineCut(all, line, Remaining(), maxlen);
      return n, line;
    }
  }

  lemma SplitFront(s: bytes, i: nat, j: nat, k: nat, rest: bytes)
    requires i <= j <= k <= |s|
    ensures s[i..k] + rest == s[i..j] + (s[j..k] + rest)
  {
  }

  lemma LineEnds(all: bytes, line: bytes, rest: bytes, maxlen: nat)
    requires all == line + [NL] + rest && NL !in line && |line| + 1 < maxlen
    ensures PlainReply(all, Line(maxlen)) == Reply(|line| + 1, line + [NL])
    ensures IsLine(all, maxlen, |line| + 1, line + [NL])
  {
    FindSeparator(line, NL, rest);
  }

  lemma LineCut(all: bytes, line: bytes, rest: bytes, maxlen: nat)
    requires all == line + rest && NL !in line && |line| < maxlen
    requires |line| + 1 == maxlen || (rest == [] && line != [])
    ensures PlainReply(all, Line(maxlen)) == Reply(|line| + 1, line)
    ensures IsLine(all, maxlen, |line| + 1, line)
  {
    assert all[..|line|] == line;
    if rest == [] {
      FindAbsent(all, NL);
    } else {
      assert forall i :: 0 <= i < |line| ==> all[i] == line[i];
      assert line != [] ==> line[|line| - 1] in line;
    }
  }

  lemma NoLine(maxlen: nat)
    requires maxlen > 1
    ensures PlainReply([], Line(maxlen)) == Reply(0, []) && IsLine([], maxlen, 0, [])
  {
    FindAbsent([], NL);
  }

  /** The count `rio_readlineb` gives for a line: its length when a newline
      ends it, one more when it is cut short, and 0 when the stream is at its
      end and there was room for a character. */
  function LineCount(line: bytes, maxlen: nat): nat {
    if line != [] && line[|line| - 1] == NL then |line|
    else if line == [] && maxlen > 1 then 0
    else |line| + 1
  }

  /** What a line and its count are in terms of the stream: up to the first
      newline, if there is room for it, the bytes are counted; what is cut by
      `maxlen` or by the end of the stream counts one more, and nothing, where
      there was room for something, counts 0. */
  ghost predicate IsLine(stream: bytes, maxlen: nat, count: int, line: bytes)
    requires maxlen > 0
  {
    var end := Find(stream, NL);
    if end < |stream| && end + 1 < maxlen then count == end + 1 && line == stream[..end + 1]
    else line == stream[..Min(|stream|, maxlen - 1)] && count == if stream == [] && maxlen > 1 then 0 else |line| + 1
  }

  // ------------------------------------------- refinement of a plain stream

  datatype Call = Bytes(n: nat) | Line(maxlen: nat)
  datatype Reply = Reply(count: nat, data: bytes)

  /** What a reader without a buffer answers, and what it leaves. */
  function PlainReply(stream: bytes, call: Call): (r: Reply)
    requires call.Line? ==> call.maxlen > 0
    ensures r.data <= stream
  {
    match call
    case Bytes(n) => var k := Min(n, |stream|); Reply(k, stream[..k])
    case Line(maxlen) => var line := Text.Fgets(stream, maxlen); Reply(LineCount(line, maxlen), line)
  }

  ghost predicate CallsOk(calls: seq<Call>) {
    forall c :: c in calls && c.Line? ==> c.maxlen > 0
  }

  function PlainReplies(stream: bytes, calls: seq<Call>): (seq<Reply>, bytes)
    requires CallsOk(calls)
  {
    if calls == [] then ([], stream)
    else
      var r := PlainReply(stream, calls[0]);
      var (rs, rest) := PlainReplies(stream[|r.data|..], calls[1..]);
      ([r] + rs, rest)
  }

  lemma PlainRepliesNone(stream: bytes)
    ensures PlainReplies(stream, []) == ([], stream)
  {
  }

  lemma {:induction false} PlainRepliesSnoc(stream: bytes, calls: seq<Call>, last: Call)
    requires CallsOk(calls) && (last.Line? ==> last.maxlen > 0)
    ensures CallsOk(calls + [last])
    ensures var (rs, rest) := PlainReplies(stream, calls);
            var r := PlainReply(rest, last);
            PlainReplies(stream, calls + [last]) == (rs + [r], rest[|r.data|..])
  {
    var all := calls + [last];
    if calls == [] {
      var r := PlainReply(stream, last);
      assert all[1..] == [] && all[0] == last;
      assert PlainReplies(stream[|r.data|..], all[1..]) == ([], stream[|r.data|..]);
      assert [r] + [] == [] + [r];
    } else {
      var r := PlainReply(stream, calls[0]);
      assert all[1..] == calls[1..] + [last];
      PlainRepliesSnoc(stream[|r.data|..], calls[1..], last);
      var (rs, rest) := PlainReplies(stream[|r.data|..], calls[1..]);
      assert [r] + (rs + [PlainReply(rest, last)]) == [r] + rs + [PlainReply(rest, last)];
    }
  }

  /** Any mix of buffered calls, on any pattern of short and interrupted
      reads, answers exactly as the plain stream does. */
  method RunCalls(rio: Reader, calls: seq<Call>) returns (replies: seq<Reply>)
    requires rio.Valid() && rio.fd.Healthy() && CallsOk(calls)
    modifies rio, rio.buf, rio.fd
    ensures rio.Valid()
    ensures (replies, rio.Remaining()) == PlainReplies(old(rio.Remaining()), calls)
  {
    hide PlainReplies, Reader.Remaining, Reader.Buffered;
    PlainRepliesNone(rio.Remaining());
    replies := [];
    for i := 0 to |calls|
      invariant rio.Valid() && rio.fd.Healthy()
      invariant (replies, rio.Remaining()) == PlainReplies(old(rio.Remaining()), calls[..i])
    {
      assert calls[..i + 1] == calls[..i] + [calls[i]];
      PlainRepliesSnoc(old(rio.Remaining()), calls[..i], calls[i]);
      assert calls[i] in calls;
      var count, data;
      match calls[i] {
        case Bytes(n) => count, data := rio.ReadNb(n);
        case Line(maxlen) => count, data := rio.ReadLineb(maxlen);
      }
      replies := replies + [Reply(count, data)];
    }
    assert calls[..|calls|] == calls;
  }
}
