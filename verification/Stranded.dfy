/**
 Interrupted downloads that a start of the client does not resume: the meta
 file has outlived `.part`, lies where the scan does not look, or records 0.
 */
module Stranded {
  import opened Bytes
  import opened Text
  import opened Wire
  import opened Transfer
  import opened Names
  import opened Download
  import opened Losses
  import opened Stale
  import Rio

  predicate AtRest(pc: Pc) {
    pc.Down? || pc.Idle?
  }

  ghost predicate NoGet(events: seq<Event>) {
    forall e :: e in events ==> !e.Get?
  }

  // ------------------------------------------------ the meta file is left alone

  /** Nothing of `.part` is left, while the meta file still records progress. */
  ghost predicate Orphaned(w: World, s: State) {
    var resuming := s.pc.Await? || s.pc.MakeDirs? || s.pc.OpenPart? || s.pc.Opened?;
    && Len(s.disk.part) == 0 && (AtRest(s.pc) || resuming || s.pc.Purge? || s.pc.PurgeMeta?)
    && (s.disk.meta.Some? ==> ScannedOffset(s.disk) > 0 && (resuming ==> s.pc.k == ScannedOffset(s.disk)))
    && (s.disk.meta.None? ==> !resuming)
  }

  /** A crash between the final rename and the removal of the meta file is
      such a state, unless the file is empty. */
  lemma CrashStrands(w: World, s: State)
    requires Inv(w, s) && s.pc.Finalized? && |w.f| > 0
    ensures Next(w, s, Crash).Some? && Orphaned(w, Next(w, s, Crash).Or(s))
  {
    hide ParseMeta, MetaText, MetaOk, TallyOk, Fed;
  }

  /** From there no restart, auto-resume or retry ever completes a download or
      touches the final file again, whatever the connection carries: only a
      `get` does. */
  lemma {:induction false} StrandedUntilGet(w: World, s: State, events: seq<Event>, r: State)
    requires Orphaned(w, s) && NoGet(events) && Run(w, s, events) == Some(r)
    ensures Orphaned(w, r) && r.tally.completions == s.tally.completions && r.disk.final == s.disk.final
    decreases |events|
  {
    hide Next, Orphaned;
    if events != [] {
      var init, last := events[..|events| - 1], events[|events| - 1];
      assert last in events;
      var t := Run(w, s, init).value;
      StrandedUntilGet(w, s, init, t);
      StrandedStep(w, t, last, r);
    }
  }

  lemma StrandedStep(w: World, s: State, e: Event, r: State)
    requires Orphaned(w, s) && !e.Get? && Next(w, s, e) == Some(r)
    ensures Orphaned(w, r) && r.tally.completions == s.tally.completions && r.disk.final == s.disk.final
  {
    hide ParseMeta, MetaText, HeaderFromImage, BlockFromImage, Answered, Listed;
  }

  // ---------------------------------------------- the scan does not meet it

  /** A download whose meta file is not an entry of "./clientdir/" stays as it
      is, however often the client is started, until a `get`. */
  lemma {:induction false} UnlistedUntilGet(w: World, s: State, events: seq<Event>, r: State)
    requires !Listed(w.home, w.remote) && AtRest(s.pc) && NoGet(events) && Run(w, s, events) == Some(r)
    ensures AtRest(r.pc) && r.disk == s.disk
    decreases |events|
  {
    hide HeaderFromImage, BlockFromImage, Answered, Listed, ScannedOffset, ResumeOffset;
    if events != [] {
      var init, last := events[..|events| - 1], events[|events| - 1];
      assert last in events;
      UnlistedUntilGet(w, s, init, Run(w, s, init).value);
    }
  }

  // ------------------------------------------------------- it records nothing

  /** A first download killed before its first block is recorded. */
  function NoBlock(w: World): seq<Event> {
    [Restart, Get(FULL), Event.Header(0)] + (OpenSteps(w, 0) + [Crash, Restart])
  }

  /** It has a `.part` that reaches the offset recorded, which is 0; the next
      start removes the meta file and downloads nothing. */
  lemma ZeroForgotten(w: World, a: Answer) returns (s: State)
    requires Placeable(w) && Listed(w.home, w.remote)
    ensures Goes(w, Fresh(w), NoBlock(w), s)
    ensures s.pc.Idle? && Recorded(w, s.disk, 0) && s.disk.part == Some([]) && s.disk.final == w.before
    ensures Next(w, s, AutoResume(a)) == Some(s.(disk := s.disk.(meta := None)))
  {
    hide MetaText, ParseMeta, Blocks, Listed, Run, Guarded, OpenSteps;
    var s1 := FirstHeader(w, 0);
    OpenedUp(w, s1, 0);
    var s2 := Prepared(w, s1, 0);
    s := KilledAndStarted(w, s2);
    GoesThrough(w, s1, OpenSteps(w, 0), s2, [Crash, Restart], s);
    GoesThrough(w, Fresh(w), [Restart, Get(FULL), Event.Header(0)], s1, OpenSteps(w, 0) + [Crash, Restart], s);
    ReadsBack(w, 0);
  }
}
