/**
 When received work is lost: a resumed session that returns 1 is followed by
 the removal of both partial files, and 1 is not only PATH_ERROR_R.
 */
module Losses {
  import opened Bytes
  import opened Text
  import opened Wire
  import opened Transfer
  import opened Names
  import opened Download
  import Rio

  /** A resumed session, with something in `.part`, is about to be cut before
      its header, refused with PATH_ERROR_R, or stopped by a local failure. */
  predicate Costly(w: World, s: State, e: Event) {
    && Len(s.disk.part) > 0 && StartOf(s.pc) > 0
    && match e
       case Header(_) =>
         s.pc.Await? && (|s.line.unread| < HEADER_BYTES
                         || HeaderFromImage(w.o, s.line.unread[..HEADER_BYTES]).error == PATH_ERROR_R)
       case Go => s.pc.MakeDirs? && w.above.Blocked?
       case Fail => true
       case _ => false
  }

  ghost predicate Frugal(w: World, s: State, events: seq<Event>)
  {
    events == [] ||
    var init := events[..|events| - 1];
    && Frugal(w, s, init)
    && (Run(w, s, init).Some? ==> !Costly(w, Run(w, s, init).value, events[|events| - 1]))
  }

  /** Carrying on from here removes no byte of `.part`. */
  predicate Spares(w: World, s: State)
  {
    Next(w, s, Go).Some? ==> Next(w, s, Go).value.tally.unlinked == 0
  }

  lemma SparesExact(w: World, s: State)
    requires s.tally.unlinked == 0
    ensures Spares(w, s) <==> !(s.pc.Purge? && Len(s.disk.part) > 0)
  {
  }

  lemma FrugalStep(w: World, s: State, e: Event, r: State)
    requires Next(w, s, e) == Some(r) && !Costly(w, s, e)
    requires s.tally.unlinked == 0 && (s.pc.Purge? ==> Len(s.disk.part) == 0)
    ensures r.tally.unlinked == 0 && (r.pc.Purge? ==> Len(r.disk.part) == 0)
  {
    hide ParseMeta, MetaText, HeaderFromImage, BlockFromImage, ResumeOffset, Listed, Answered, ScannedOffset;
  }

  lemma CostlyPurges(w: World, s: State, e: Event, r: State)
    requires Next(w, s, e) == Some(r) && Costly(w, s, e)
    ensures r.pc.Purge? && (r.disk == s.disk || r.disk == s.disk.(tmp := None)) && r.tally.unlinked == s.tally.unlinked
    ensures Len(s.disk.part) > 0 && StartsClean(s, e)
  {
    hide ParseMeta, MetaText, HeaderFromImage;
  }

  lemma {:induction false} FrugalSpares(w: World, s: State, events: seq<Event>, r: State)
    requires Run(w, s, events) == Some(r) && Frugal(w, s, events)
    requires s.tally.unlinked == 0 && !s.pc.Purge?
    ensures r.tally.unlinked == 0 && (r.pc.Purge? ==> Len(r.disk.part) == 0)
    decreases |events|
  {
    hide Next, Costly;
    if events != [] {
      var init := events[..|events| - 1];
      var t := Run(w, s, init).value;
      FrugalSpares(w, s, init, t);
      FrugalStep(w, t, events[|events| - 1], r);
    }
  }

  lemma {:induction false} FrugalPrefix(w: World, s: State, events: seq<Event>, i: nat)
    requires i <= |events| && Run(w, s, events).Some?
    ensures Run(w, s, events[..i]).Some? && (Frugal(w, s, events) ==> Frugal(w, s, events[..i]))
    decreases |events|
  {
    hide Next, Costly;
    if i == |events| {
      assert events[..i] == events;
    } else {
      assert events[..|events| - 1][..i] == events[..i];
      FrugalPrefix(w, s, events[..|events| - 1], i);
    }
  }

  lemma {:induction false} FirstCostly(w: World, s: State, events: seq<Event>) returns (i: nat, t: State)
    requires Run(w, s, events).Some? && !Frugal(w, s, events)
    ensures i < |events| && Run(w, s, events[..i]) == Some(t) && Costly(w, t, events[i])
    decreases |events|
  {
    hide Next, Costly;
    var n := |events| - 1;
    if Frugal(w, s, events[..n]) {
      i, t := n, Run(w, s, events[..n]).value;
    } else {
      i, t := FirstCostly(w, s, events[..n]);
      assert events[..n][..i] == events[..i];
    }
  }

  /** Every state the run passes through spares what has been received. */
  ghost predicate AllSpare(w: World, events: seq<Event>) {
    forall i :: 0 <= i <= |events| ==>
      match Run(w, Fresh(w), events[..i])
      case None => false
      case Some(s) => Spares(w, s)
  }

  /** Work received by a client is never removed, however the run continues
      from any of its states, if and only if none of its steps was costly. */
  lemma FrugalExact(w: World, events: seq<Event>)
    requires Run(w, Fresh(w), events).Some?
    ensures Frugal(w, Fresh(w), events) <==> AllSpare(w, events)
  {
    hide Next, Costly, Spares, Frugal, Run;
    var s := Fresh(w);
    if Frugal(w, s, events) {
      forall i | 0 <= i <= |events|
        ensures Run(w, s, events[..i]).Some? && Spares(w, Run(w, s, events[..i]).value)
      {
        FrugalPrefix(w, s, events, i);
        FrugalSpares(w, s, events[..i], Run(w, s, events[..i]).value);
        SparesExact(w, Run(w, s, events[..i]).value);
      }
    } else if AllSpare(w, events) {
      var i, t := FirstCostly(w, s, events);
      FrugalPrefix(w, s, events, i + 1);
      assert events[..i + 1][..i] == events[..i];
      var r := Run(w, s, events[..i + 1]).value;
      RunSnoc(w, s, events[..i], events[i]);
      assert events[..i] + [events[i]] == events[..i + 1];
      CostlyPurges(w, t, events[i], r);
      assert Spares(w, r);
      PurgeLoses(w, r);
    }
  }

  lemma PurgeLoses(w: World, r: State)
    requires r.pc.Purge? && Len(r.disk.part) > 0
    ensures !Spares(w, r)
  {
  }

  /** Without costly steps, however often the client crashes or loses a
      connection, the bytes written by all sessions up to the first completion
      are the file's size plus what truncations discarded, at most a block for
      each interruption. */
  lemma FrugalWork(w: World, events: seq<Event>, s: State)
    requires Goes(w, Fresh(w), events, s) && Frugal(w, Fresh(w), events)
    requires s.tally.completions == 1 && s.disk.part.None?
    ensures s.tally.written == |w.f| + s.tally.truncated <= |w.f| + BLOCK_SIZE * s.tally.interruptions
  {
    hide Next, Guarded, Frugal, Run;
    WorkConserved(w, events);
    FrugalSpares(w, Fresh(w), events, s);
  }

  /** The first removal of the cleanup. */
  lemma PartPurged(w: World, s: State) returns (r: State)
    requires s.pc.Purge?
    ensures Next(w, s, Go) == Some(r) && StartsClean(s, Go)
    ensures r == s.(pc := PurgeMeta, disk := s.disk.(part := None),
                    tally := s.tally.(unlinked := s.tally.unlinked + Len(s.disk.part), cleanup := true))
  {
    r := Next(w, s, Go).value;
  }

  /** The two removals of the cleanup. */
  lemma Purged(w: World, s: State) returns (r: State)
    requires s.pc.Purge?
    ensures Goes(w, s, [Go, Go], r)
    ensures r == s.(pc := Idle, disk := s.disk.(part := None, meta := None),
                    tally := s.tally.(unlinked := s.tally.unlinked + Len(s.disk.part), cleanup := true))
  {
    var s1 := PartPurged(w, s);
    r := Next(w, s1, Go).value;
    hide Next, Run, Guarded;
    Pair(w, s, Go, s1, Go, r);
  }

  /** An idle client on an empty connection, with progress recorded where the
      next start will find it. */
  ghost predicate CanResume(w: World, s: State, k: nat)
  {
    && Inv(w, s) && s.pc.Idle? && s.line == NEW_LINE && Listed(w.home, w.remote)
    && Recorded(w, s.disk, k) && k > 0
  }

  lemma Resumes(w: World, s: State, k: nat, a: Answer) returns (s1: State)
    requires CanResume(w, s, k)
    ensures k <= |w.f| && Next(w, s, AutoResume(a)) == Some(s1) && StartsClean(s, AutoResume(a))
    ensures s1 == s.(pc := Await(k), line := Line(Arriving(w, k, a), 0, a.cut.None?))
  {
    hide ParseMeta, MetaText, Fed, PcOk, TallyOk, Whole, Listed;
    s1 := Asked(w, s, k, a);
    assert [] + Arriving(w, k, a) == Arriving(w, k, a);
  }

  /** The header of a whole answer lets the session go on. */
  lemma GoodHeaderRead(w: World, s: State, k: u32, held: nat)
    requires s.pc == Await(k) && k <= |w.f| && s.line.unread == Served(w.o, Some(w.f), k)
    requires held < Rio.RIO_BUFSIZE && held <= |Blocks(w.o, w.f, k, BlockNumber(k))|
    ensures HeaderStep(w, s, held)
         == Some(s.(pc := MakeDirs(k), total := |w.f|,
                    line := Line(Blocks(w.o, w.f, k, BlockNumber(k)), held, s.line.live)))
    ensures Next(w, s, Event.Header(held)) == HeaderStep(w, s, held) && !Starts(s, Event.Header(held))
  {
    hide HeaderImage, HeaderFromImage, Blocks;
    var h := Wire.Header(|w.f|, BLOCK_SIZE, Tag(w.o), NO_ERROR_R);
    HeaderRoundTrip(w.o, h);
    var u := s.line.unread;
    assert u[..HEADER_BYTES] == HeaderImage(w.o, h);
    assert u[HEADER_BYTES..] == Blocks(w.o, w.f, k, BlockNumber(k));
  }

  /** The first two steps of a resume on a whole answer. */
  lemma ResumeBegins(w: World, s: State, k: nat, held: nat) returns (r: State)
    requires CanResume(w, s, k) && held < Rio.RIO_BUFSIZE && held <= |Blocks(w.o, w.f, k, BlockNumber(k))|
    ensures Goes(w, s, [AutoResume(FULL), Event.Header(held)], r) && 0 < k <= |w.f|
    ensures r == s.(pc := MakeDirs(k), total := |w.f|, line := Line(Blocks(w.o, w.f, k, BlockNumber(k)), held, true))
  {
    assert k > 0;
    hide CanResume, Blocks, Served, ErrorHeader, Next, HeaderStep, Run, Guarded, StartsClean;
    var s1 := Resumes(w, s, k, FULL);
    GoodHeaderRead(w, s1, k, held);
    r := HeaderStep(w, s1, held).value;
    Quiet(s1, Event.Header(held));
    Pair(w, s, AutoResume(FULL), s1, Event.Header(held), r);
  }

  /** The run ends idle, both partial files removed with all they held. */
  ghost predicate LosesAll(w: World, s: State, events: seq<Event>)
  {
    Guarded(w, s, events) &&
    match Run(w, s, events)
    case None => false
    case Some(r) =>
      && r.pc.Idle? && r.disk.part.None? && r.disk.meta.None?
      && r.tally.unlinked == s.tally.unlinked + Len(s.disk.part) > s.tally.unlinked
  }

  /** The three ways a resumed session loses all it had, from any state it can
      resume in: its connection is cut before the header, the slave refuses
      with PATH_ERROR_R, or a local call fails. */
  lemma WaysToLose(w: World, s: State, k: nat)
    requires CanResume(w, s, k) && Len(s.disk.part) > 0
    ensures LosesAll(w, s, [AutoResume(Answer(NO_ERROR_R, Some(0))), Event.Header(0), Go, Go])
    ensures LosesAll(w, s, [AutoResume(Answer(PATH_ERROR_R, None)), Event.Header(0), Go, Go])
    ensures LosesAll(w, s, [AutoResume(FULL), Event.Header(0), Fail, Go, Go])
  {
    assert k > 0;
    hide LosesAll, CanResume, Next, Run, Guarded, Costly, StartsClean, Arriving, Served, Whole, ErrorHeader, Blocks;
    var cut, refused := Answer(NO_ERROR_R, Some(0)), Answer(PATH_ERROR_R, None);
    HeaderLoses(w, s, k, cut);
    HeaderLoses(w, s, k, refused);
    var s1 := ResumeBegins(w, s, k, 0);
    var begin := [AutoResume(FULL), Event.Header(0)];
    var r := CostlyFail(w, s1);
    LosesNext(w, s, begin, s1, Fail, r);
    Joined(AutoResume(FULL), Event.Header(0), Fail, Go, Go);
  }

  lemma Joined(a: Event, b: Event, c: Event, d: Event, e: Event)
    ensures [a] + [b, c, d] == [a, b, c, d] && [a, b] + [c, d, e] == [a, b, c, d, e]
  {
  }

  lemma HeaderLoses(w: World, s: State, k: nat, a: Answer)
    requires CanResume(w, s, k) && Len(s.disk.part) > 0
    requires a == Answer(NO_ERROR_R, Some(0)) || a == Answer(PATH_ERROR_R, None)
    ensures LosesAll(w, s, [AutoResume(a), Event.Header(0), Go, Go])
  {
    assert k > 0;
    hide LosesAll, CanResume, Next, Run, Guarded, Costly, StartsClean, Arriving;
    var s1 := Resumes(w, s, k, a);
    var r := CostlyHeader(w, s1, a);
    Single(w, s, AutoResume(a), s1);
    LosesNext(w, s, [AutoResume(a)], s1, Event.Header(0), r);
    Joined(AutoResume(a), Event.Header(0), Go, Go, Go);
  }

  /** The header of a cut or refused resume. */
  lemma CostlyHeader(w: World, s: State, a: Answer) returns (r: State)
    requires s.pc.Await? && s.pc.k > 0 && Len(s.disk.part) > 0 && s.line.unread == Arriving(w, s.pc.k, a)
    requires a == Answer(NO_ERROR_R, Some(0)) || a == Answer(PATH_ERROR_R, None)
    ensures Next(w, s, Event.Header(0)) == Some(r) && Costly(w, s, Event.Header(0))
  {
    hide HeaderImage, HeaderFromImage, Served;
    if a.cut.None? {
      var h := Wire.Header(0, BLOCK_SIZE, Tag(w.o), PATH_ERROR_R);
      HeaderRoundTrip(w.o, h);
      var u := HeaderImage(w.o, h);
      assert u[..HEADER_BYTES] == u && u[HEADER_BYTES..] == [];
    }
    r := Next(w, s, Event.Header(0)).value;
  }

  lemma CostlyFail(w: World, s: State) returns (r: State)
    requires s.pc.MakeDirs? && s.pc.k > 0 && Len(s.disk.part) > 0
    ensures Next(w, s, Fail) == Some(r) && Costly(w, s, Fail)
  {
    r := Next(w, s, Fail).value;
  }

  /** A costly step, and what the client does next: both partial files go. */
  lemma LosesNext(w: World, s: State, begin: seq<Event>, t: State, e: Event, r: State)
    requires Goes(w, s, begin, t) && t.disk == s.disk && t.tally == s.tally
    requires Next(w, t, e) == Some(r) && Costly(w, t, e)
    ensures LosesAll(w, s, begin + [e, Go, Go])
  {
    hide Next, Costly, StartsClean, Run, Guarded;
    CostlyPurges(w, t, e, r);
    var last := Purged(w, r);
    Single(w, t, e, r);
    GoesThrough(w, t, [e], r, [Go, Go], last);
    assert [e] + [Go, Go] == [e, Go, Go];
    GoesThrough(w, s, begin, t, [e, Go, Go], last);
  }
}
