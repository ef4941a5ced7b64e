/**
 A session that stops of itself, because `.part` is too short or a local call
 fails, and the `get` after it.
 */
module Stops {
  import opened Bytes
  import opened Text
  import opened Wire
  import opened Transfer
  import opened Names
  import opened Download
  import opened Losses
  import opened Stale
  import Rio

  /** The step that ends a session which has its whole answer before it: the
      size check, or a failing local call. */
  predicate Stopping(s: State, e: Event) {
    match e
    case Go => s.pc.Opened? && Len(s.disk.part) < s.pc.k
    case Fail =>
      || s.pc.MakeDirs? || s.pc.Opened? || s.pc.MetaOpen? || s.pc.MetaPrint? || s.pc.MetaRename? || s.pc.Writing?
      || (s.pc.Recv? && s.pc.n >= s.total)
    case _ => false
  }

  /** A session under way on a good connection, with all blocks from its
      position on still to be read. */
  ghost predicate UnderWay(w: World, s: State)
  {
    Inv(w, s) && s.line.live && AllBlocks(w, Position(w, s.pc), s)
  }

  /** The removals that follow a resumed session which returned 1. */
  function Cleanup(pc: Pc): seq<Event> {
    if pc.Purge? then [Go, Go] else []
  }

  /** The client is idle again after the stop. */
  ghost predicate StopsIn(w: World, s: State, e: Event, r: State)
  {
    Next(w, s, e).Some? && var t := Next(w, s, e).value; Run(w, t, Cleanup(t.pc)) == Some(r) && r.pc.Idle?
  }

  /** When nothing fails any more, a `get` can be run to its end, and every way
      it goes puts the file in place and leaves no partial files. */
  ghost predicate GetsThrough(w: World, s: State)
  {
    CanEnd(w, s, Get(FULL)) && forall events, r :: Ends(w, s, Get(FULL), events, r) ==> Done(w, r)
  }

  /** The same point of a session over another content. */
  predicate SamePoint(p: Pc, q: Pc) {
    p == q || (p.Writing? && q.Writing? && (p.k, p.n, |p.data|, p.j) == (q.k, q.n, |q.data|, q.j))
  }

  /** Another file of the same length, of which as much has been received and
      recorded; what the reader holds in its buffer is free. */
  ghost predicate SameStop(w: World, s: State, w': World, s': State)
  {
    && Placeable(w') && UnderWay(w', s')
    && |w'.f| == |w.f| && w'.remote == w.remote && w'.before == w.before && SamePoint(s.pc, s'.pc)
    && Len(s'.disk.part) == Len(s.disk.part) && s'.disk.meta == s.disk.meta
  }

  lemma StopIs(w: World, s: State, e: Event) returns (r: State)
    requires Placeable(w) && Stopping(s, e) && UnderWay(w, s)
    ensures Next(w, s, e) == Some(r) && StartsClean(s, e) && r.line == Left(s.line)
    ensures r.pc.Idle? || r.pc.Purge?
  {
    hide MetaOk, TallyOk, Safe, Fed, MetaText, ParseMeta, Blocks, Left;
    if s.pc.Opened? {
      PartBelow(w, s);
    }
    r := Next(w, s, e).value;
  }

  /** After the stop and its cleanup the client is idle, on what the reader has
      left of the blocks. */
  lemma StopEnds(w: World, s: State, e: Event) returns (r: State)
    requires Placeable(w) && Stopping(s, e) && UnderWay(w, s)
    ensures StopsIn(w, s, e, r) && Inv(w, r) && r.pc.Idle? && r.line == Left(s.line)
  {
    hide Stopping, Next, Run, Guarded, Inv, Left;
    var t := StopIs(w, s, e);
    StepKeeps(w, s, e);
    if t.pc.Purge? {
      r := Purged(w, t);
      KeepsFrom(w, t, [Go, Go]);
    } else {
      r := t;
      assert Run(w, t, []) == Some(t) by { NoEvents(w, t); }
    }
  }

  lemma NoEvents(w: World, s: State)
    ensures Run(w, s, []) == Some(s)
  {
    hide Next;
  }

  // ------------------------------------------------------ a file of zeros

  /** A `get` on what looks like the header of an empty file does not get
      through: it ends with an empty file, or stops for its offset. */
  lemma StaleGet(w: World, s: State)
    requires Placeable(w) && s.pc.Idle? && Zeroed(s.line) && w.f != []
    ensures !GetsThrough(w, s)
  {
    hide Run, ResumeOffset, EmptyGet, Zeroed, AllUndisturbed;
    UndisturbedSteps(w);
    if ResumeOffset(w, s.disk) > 0 {
      var r := ZeroTaken(w, s);
      ResumesPart(w, s.disk);
      OneHeader();
      assert Ends(w, s, Get(FULL), [Event.Header(0)], r) && !Done(w, r);
    } else {
      var r := EmptyFile(w, s);
      assert Ends(w, s, Get(FULL), EmptyGet(w)[1..], r) && !Done(w, r);
    }
  }

  lemma OneHeader()
    ensures AllUndisturbed([Event.Header(0)]) && [Get(FULL)] + [Event.Header(0)] == [Get(FULL), Event.Header(0)]
  {
  }

  lemma ResumesPart(w: World, d: Disk)
    ensures ResumeOffset(w, d) > 0 ==> d.part.Some?
  {
    hide ParseMeta;
  }

  // ------------------------------------------------- the same stop over zeros

  function ZeroPc(pc: Pc): Pc {
    if pc.Writing? then pc.(data := Zeros(|pc.data|)) else pc
  }

  function ZeroDisk(w: World, d: Disk): Disk {
    var zeros := Zeros(|w.f|);
    d.(part := if d.part.Some? then Some(Zeros(|d.part.value|)) else None,
       final := if d.final == Some(w.f) then Some(zeros) else w.before)
  }

  /** The same state over a file of zeros, with four bytes in the buffer. */
  function ZeroStop(w: World, s: State): (World, State)
  {
    var zeros := Zeros(|w.f|);
    var n := Position(w, s.pc);
    (w.(f := zeros),
     s.(pc := ZeroPc(s.pc), disk := ZeroDisk(w, s.disk),
        line := Line(if n <= |zeros| then Blocks(w.o, zeros, n, BlockNumber(n)) else [], 4, true)))
  }

  lemma ZeroSafe(w: World, s: State)
    requires Inv(w, s)
    ensures var (w', s') := ZeroStop(w, s); Safe(w', s'.disk) && MetaOk(w', s'.disk, s'.tally) && TallyOk(w', s')
  {
    hide PcOk, Fed, MetaText, ParseMeta, Blocks;
  }

  lemma ZeroPcOk(w: World, s: State, e: Event)
    requires Inv(w, s) && Stopping(s, e)
    ensures var (w', s') := ZeroStop(w, s);
            PcOk(w', s') && Position(w', s'.pc) == Position(w, s.pc)
  {
    hide TallyOk, MetaOk, Fed, MetaText, ParseMeta, Blocks;
    var (w', s') := ZeroStop(w, s);
    if s.pc.Writing? {
      var (n, j) := (s.pc.n, s.pc.j);
      var end := BlockEnd(w.f, n);
      assert |s.pc.data| == end - n && |s.disk.part.value| == n + j;
      assert s'.pc.data == w'.f[n..end];
      assert s'.disk.part.value == w'.f[..n + j];
    } else if !s.pc.MakeDirs? && !s.pc.Opened? {
      var n := s.pc.n;
      assert |s.disk.part.value| == n;
      assert s'.disk.part.value == w'.f[..n];
    }
  }

  lemma ZeroFed(w: World, s: State, e: Event)
    requires UnderWay(w, s) && Stopping(s, e)
    ensures var (w', s') := ZeroStop(w, s);
            Fed(w', s') && AllBlocks(w', Position(w', s'.pc), s')
  {
    hide TallyOk, MetaOk, Safe, PcOk, Blocks;
  }

  lemma ZeroSame(w: World, s: State, e: Event)
    requires Placeable(w) && UnderWay(w, s) && Stopping(s, e)
    ensures var (w', s') := ZeroStop(w, s);
            SameStop(w, s, w', s') && Stopping(s', e) && Position(w', s'.pc) == Position(w, s.pc)
  {
    hide TallyOk, MetaOk, Safe, PcOk, Fed, Blocks, AllBlocks;
    ZeroSafe(w, s);
    ZeroPcOk(w, s, e);
    ZeroFed(w, s, e);
  }

  /** The stop is over, and a `get` after it gets through. */
  ghost predicate StopThenGet(w: World, s: State, e: Event) {
    exists r :: StopsIn(w, s, e, r) && GetsThrough(w, r)
  }

  /** What a stop leaves to the next `get` depends on one thing. Whatever the
      content and whatever the reader holds, as long as the point of the stop,
      the lengths and the record stay the same: after the stop, and the cleanup
      if there is one, a `get` puts the file in place if and only if the session
      had read its last block. */
  lemma StopThenGetExact(w: World, s: State, e: Event)
    requires Placeable(w) && UnderWay(w, s) && Stopping(s, e)
    ensures Position(w, s.pc) == |w.f|
       <==> forall w': World, s': State :: SameStop(w, s, w', s') ==> StopThenGet(w', s', e)
  {
    hide UnderWay, StopThenGet;
    if Position(w, s.pc) == |w.f| {
      forall w': World, s': State | SameStop(w, s, w', s') ensures StopThenGet(w', s', e) {
        StopsAlike(w, s, w', s', e);
        StopAtEnd(w', s', e);
      }
    } else {
      var (w', s') := ZeroStop(w, s);
      ZeroSame(w, s, e);
      InsideAt(w, s);
      StopLeaves(w', s', e);
    }
  }

  /** A stop after the last block leaves nothing. */
  lemma StopAtEnd(w: World, s: State, e: Event)
    requires Placeable(w) && Stopping(s, e) && UnderWay(w, s) && Position(w, s.pc) == |w.f|
    ensures StopThenGet(w, s, e)
  {
    hide Stopping, Inv, StopsIn, Position, CanEnd, Done, Ends;
    var r := StopEnds(w, s, e);
    GetDelivers(w, r);
  }

  /** With four bytes of the first block in its buffer, the reader leaves what
      the next session takes for the header of an empty file. */
  lemma StopLeaves(w: World, s: State, e: Event)
    requires Placeable(w) && Stopping(s, e) && UnderWay(w, s)
    requires Position(w, s.pc) < |w.f| && w.f == Zeros(|w.f|) && s.line.held == 4
    ensures !StopThenGet(w, s, e)
  {
    hide Stopping, Inv, Next, Run, Position, Blocks, Zeros, Zeroed, GetsThrough;
    var r := StopEnds(w, s, e);
    var n := Position(w, s.pc);
    ZeroBlock(w.o, w.f, n, BlockNumber(n));
    StaleGet(w, r);
  }

  lemma StopsAlike(w: World, s: State, w': World, s': State, e: Event)
    requires SameStop(w, s, w', s') && UnderWay(w, s) && Stopping(s, e)
    ensures Stopping(s', e) && Position(w', s'.pc) == Position(w, s.pc)
  {
    hide TallyOk, MetaOk, Safe, PcOk, Blocks;
  }

  lemma InsideAt(w: World, s: State)
    requires UnderWay(w, s)
    ensures Position(w, s.pc) <= |w.f|
  {
    hide Inv, Blocks;
  }
}
