/**
 Replication between slaves. A session on one slave logs its RM and PUT
 requests before their outcome is known; afterwards the log is replayed to
 every other slave, a PUT sending the file as it is then. Sessions follow one
 another.
 */
module Replication {
  import opened Bytes
  import opened Text
  import opened Wire
  import opened Transfer
  import opened Paths
  import opened FileSystem
  import opened Session

  type Log = seq<(u32, bytes)>

  /** What a logged request did: a removal, or an upload that stored some bytes
      (all of the file, or what came before the transfer was cut), or nothing. */
  datatype Event = Removal(path: bytes) | Upload(path: bytes, stored: Option<bytes>)

  function EntryOf(v: Event): (u32, bytes) {
    (if v.Removal? then RM else PUT, v.path)
  }

  function LogOf(events: seq<Event>): (log: Log)
    ensures |log| == |events| && forall i :: 0 <= i < |log| ==> log[i] == EntryOf(events[i])
  {
    seq(|events|, i requires 0 <= i < |events| => EntryOf(events[i]))
  }

  predicate Possible(e: Env, s: Store, v: Event) {
    v.Upload? && v.stored.Some? ==> Openable(e, s, v.path)
  }

  function Happens(e: Env, s: Store, v: Event): Store {
    match v
    case Removal(path) => RemovePath(s, e.dir, path)
    case Upload(path, stored) =>
      if stored.Some? && Openable(e, s, path) then Written(s, WriteKey(e.dir, e.rootPath, path).value, stored.value)
      else s
  }

  function AllHappen(e: Env, s: Store, events: seq<Event>): Store {
    if events == [] then s
    else Happens(e, AllHappen(e, s, events[..|events| - 1]), events[|events| - 1])
  }

  // -------------------------------------------------------------- the replay

  /** `snprintf` of the UPDATE payload truncates: such an entry is skipped. */
  predicate Fits(entry: (u32, bytes)) {
    |UpdatePayload(entry.0, entry.1)| < MAXLINE
  }

  /** One entry replayed to a peer whose files are `s`, from files `origin`, by
      a replay that has kept in step (`InStep`) with the peer. */
  function ReplayEntry(e: Env, origin: Store, s: Store, entry: (u32, bytes)): Store {
    if !Fits(entry) then s
    else if entry.0 == RM then RemovePath(s, e.dir, entry.1)
    else if entry.0 == PUT then Uploaded(e, s, ReadFile(origin, e.dir, entry.1), entry.1).0
    else s
  }

  function Replay(e: Env, origin: Store, log: Log, s: Store): Store {
    if log == [] then s
    else ReplayEntry(e, origin, Replay(e, origin, log[..|log| - 1], s), log[|log| - 1])
  }

  /** The entry is sent to the peers, as an UPDATE request. */
  predicate Sent(entry: (u32, bytes)) {
    (entry.0 == RM || entry.0 == PUT) && Fits(entry)
  }

  function UpdateOf(entry: (u32, bytes)): Command {
    Update(entry.0, entry.1)
  }

  /** The requests `coherence` sends to a peer for a log. */
  function UpdateScript(log: Log): seq<Command> {
    if log == [] then []
    else
      var last := log[|log| - 1];
      UpdateScript(log[..|log| - 1]) + if Sent(last) then [UpdateOf(last)] else []
  }

  /** The peer reads all that it is sent for the entry. */
  predicate TakenBy(e: Env, origin: Store, s: Store, entry: (u32, bytes)) {
    Sent(entry) ==> Guarded(e, origin, UpdateOf(entry), s)
  }

  /** No file sent to the peer is left unread by it; otherwise what is left is
      taken for the next request, and the rest of the log is not replayed. */
  ghost predicate InStep(e: Env, origin: Store, log: Log, s: Store) {
    log == [] ||
    var init := log[..|log| - 1];
    InStep(e, origin, init, s) && TakenBy(e, origin, Replay(e, origin, init, s), log[|log| - 1])
  }

  lemma UpdateDoes(e: Env, origin: Store, entry: (u32, bytes), w: Effect)
    requires e.localDir == e.dir && Sent(entry)
    ensures Exec(e, origin, UpdateOf(entry), w).store == ReplayEntry(e, origin, w.store, entry)
    ensures Exec(e, origin, UpdateOf(entry), w).log == w.log
  {
    hide ReadKey, Uploaded, Fits, PutText;
  }

  lemma ExecSnoc(e: Env, local: Store, script: seq<Command>, c: Command, w: Effect)
    ensures ExecAll(e, local, script + [c], w) == Exec(e, local, c, ExecAll(e, local, script, w))
    ensures AllGuarded(e, local, script + [c], w)
       <==> AllGuarded(e, local, script, w) && Guarded(e, local, c, ExecAll(e, local, script, w).store)
  {
    hide Exec, Guarded;
    var all, n := script + [c], |script|;
    assert all[..n] == script == script[..n];
    forall i | 0 <= i < n ensures GuardedAt(e, local, all, w, i) <==> GuardedAt(e, local, script, w, i) {
      assert all[..i] == script[..i];
    }
    assert GuardedAt(e, local, all, w, n) <==> Guarded(e, local, c, ExecAll(e, local, script, w).store);
    hide GuardedAt;
    if AllGuarded(e, local, all, w) {
      assert GuardedAt(e, local, all, w, n);
      forall i | 0 <= i < n ensures GuardedAt(e, local, script, w, i) {
        assert GuardedAt(e, local, all, w, i);
      }
    }
  }

  /** The session of updates leaves the peer with the replayed files, and with
      an empty log of its own: a peer never replays what it was sent; and it
      loses no byte exactly when the replay keeps in step. */
  lemma {:induction false} ReplayIsSession(e: Env, origin: Store, log: Log, w: Effect)
    requires e.localDir == e.dir
    ensures ExecAll(e, origin, UpdateScript(log), w).store == Replay(e, origin, log, w.store)
    ensures ExecAll(e, origin, UpdateScript(log), w).log == w.log
    ensures AllGuarded(e, origin, UpdateScript(log), w) <==> InStep(e, origin, log, w.store)
    decreases |log|
  {
    hide Exec, ReplayEntry, Sent, Guarded, AllGuarded;
    if log == [] {
      assert AllGuarded(e, origin, [], w) by { NothingGuarded(e, origin, w); }
    } else {
      var rest, entry := log[..|log| - 1], log[|log| - 1];
      ReplayIsSession(e, origin, rest, w);
      if Sent(entry) {
        ExecSnoc(e, origin, UpdateScript(rest), UpdateOf(entry), w);
        UpdateDoes(e, origin, entry, ExecAll(e, origin, UpdateScript(rest), w));
      } else {
        assert UpdateScript(log) == UpdateScript(rest);
        SkippedEntry(e, origin, Replay(e, origin, rest, w.store), entry);
      }
    }
  }

  lemma NothingGuarded(e: Env, origin: Store, w: Effect)
    ensures AllGuarded(e, origin, [], w)
  {
    hide GuardedAt;
  }

  lemma SkippedEntry(e: Env, origin: Store, s: Store, entry: (u32, bytes))
    requires !Sent(entry)
    ensures ReplayEntry(e, origin, s, entry) == s
  {
  }

  // ---------------------------------------------------------- the file names

  function Get(s: Store, k: Key): Option<bytes> {
    if k in s.files then Some(s.files[k]) else None
  }

  /** The file an accepted path names. */
  function Named(path: bytes): Key {
    Components(path)
  }

  /** The file a request would change: a removal names it in existing mode, an
      upload in write mode. */
  function Target(e: Env, entry: (u32, bytes)): Option<Key> {
    if entry.0 == RM then PathKey(e.dir, entry.1) else WriteKey(e.dir, e.rootPath, entry.1)
  }

  predicate Accepted(e: Env, path: bytes) {
    Accepts(e.dir, e.rootPath, path)
  }

  /** No event names its file by a path that goes up. */
  ghost predicate AllDown(events: seq<Event>) {
    forall v :: v in events ==> Downward(v.path)
  }

  lemma AcceptedReads(e: Env, s: Store, path: bytes)
    requires Accepted(e, path)
    ensures ReadKey(s, e.dir, path) == PathKey(e.dir, path) == WriteKey(e.dir, e.rootPath, path) == Some(Named(path))
    ensures Downward(path)
  {
    ModesAgree(s, e.dir, e.rootPath, path);
  }

  lemma WrittenReads(e: Env, s: Store, path: bytes)
    ensures WriteKey(e.dir, e.rootPath, path).Some? ==>
              && Accepted(e, path) && Downward(path)
              && ReadKey(s, e.dir, path) == PathKey(e.dir, path) == WriteKey(e.dir, e.rootPath, path) == Some(Named(path))
  {
    hide Components;
    if Accepted(e, path) {
      AcceptedReads(e, s, path);
    }
  }

  /** What an event does, key by key. */
  lemma HappensAt(e: Env, s: Store, v: Event, k: Key)
    requires Possible(e, s, v) && Downward(v.path)
    ensures Get(Happens(e, s, v), k)
         == if Target(e, EntryOf(v)) != Some(k) then Get(s, k)
            else if v.Removal? then None
            else if v.stored.Some? then v.stored else Get(s, k)
  {
    DownwardReads(s, e.dir, v.path);
    hide ReadKey, PathKey, WriteKey, CanOpen;
  }

  /** What a replayed entry does, key by key. */
  lemma ReplayAt(e: Env, origin: Store, s: Store, entry: (u32, bytes), k: Key)
    requires (entry.0 == RM || entry.0 == PUT) && Downward(entry.1)
    requires Opens(e, origin, s, entry) && (Target(e, entry) == Some(k) ==> Fits(entry))
    ensures Get(ReplayEntry(e, origin, s, entry), k)
         == if Target(e, entry) != Some(k) then Get(s, k)
            else if entry.0 == RM then None
            else if k in origin.files then Get(origin, k) else Get(s, k)
  {
    WrittenReads(e, origin, entry.1);
    DownwardReads(s, e.dir, entry.1);
    hide ReadKey, PathKey, WriteKey, CanOpen, Components, Fits;
  }

  // ------------------------------------------------------------- convergence

  /** An upload that names a file of the origin by a path it can be stored by
      finds the peer able to store it. */
  predicate Opens(e: Env, origin: Store, s: Store, entry: (u32, bytes)) {
    match Target(e, entry)
    case None => true
    case Some(k) => entry.0 == PUT && k in origin.files ==> Openable(e, s, entry.1)
  }

  /** The replay of the first `n` entries. */
  function ReplayFirst(e: Env, origin: Store, log: Log, n: nat, s: Store): Store {
    Replay(e, origin, log[..Min(n, |log|)], s)
  }

  /** At each turn of the replay, the peer can take the file it is sent. */
  ghost predicate Takes(e: Env, origin: Store, log: Log, s: Store) {
    forall i :: 0 <= i < |log| ==> Opens(e, origin, ReplayFirst(e, origin, log, i, s), log[i])
  }

  /** The uploads that have a file to send, with something in it, are by names
      that write mode accepts. A client can log an upload by another name of a
      file, such as "./a", without a file of its own to send: the slave refuses
      the name, but the replay finds the file. */
  ghost predicate Sendable(e: Env, origin: Store, log: Log) {
    forall x :: x in log ==> Refusable(e, origin, x)
  }

  /** Nothing is sent for an upload by a name that write mode refuses. */
  predicate Refusable(e: Env, origin: Store, x: (u32, bytes)) {
    x.0 == PUT && Fits(x) && !Accepted(e, x.1) ==>
      ReadFile(origin, e.dir, x.1) == None || ReadFile(origin, e.dir, x.1) == Some([])
  }

  /** The first `n` events. */
  function HappenFirst(e: Env, s: Store, events: seq<Event>, n: nat): Store {
    AllHappen(e, s, events[..Min(n, |events|)])
  }

  ghost predicate SessionPossible(e: Env, s: Store, events: seq<Event>) {
    forall i :: 0 <= i < |events| ==> Possible(e, HappenFirst(e, s, events, i), events[i])
  }

  /** Some removal of `k` comes at or after position `i`. */
  ghost predicate RemovedFrom(e: Env, events: seq<Event>, k: Key, i: nat) {
    exists j :: i <= j < |events| && events[j].Removal? && Target(e, EntryOf(events[j])) == Some(k)
  }

  lemma {:induction false} GoneWasRemoved(e: Env, s: Store, events: seq<Event>, k: Key, i: nat)
    requires i <= |events| && SessionPossible(e, s, events) && AllDown(events)
    requires Get(HappenFirst(e, s, events, i), k).Some? && Get(AllHappen(e, s, events), k).None?
    ensures RemovedFrom(e, events, k, i)
    decreases |events| - i
  {
    hide Happens, Possible, Target;
    assert events[..|events|] == events;
    if i < |events| {
      AllHappenNext(e, s, events, i, events[i]);
      assert events[i] in events;
      HappensAt(e, HappenFirst(e, s, events, i), events[i], k);
      if Get(HappenFirst(e, s, events, i + 1), k).Some? {
        GoneWasRemoved(e, s, events, k, i + 1);
      }
    }
  }

  /** The event is the one at position `i`. */
  predicate Nth<T(==)>(s: seq<T>, i: nat, x: T) {
    i < |s| && s[i] == x
  }

  lemma AllHappenNext(e: Env, s: Store, events: seq<Event>, i: nat, v: Event)
    requires Nth(events, i, v)
    ensures HappenFirst(e, s, events, i + 1) == Happens(e, HappenFirst(e, s, events, i), v)
    ensures SessionPossible(e, s, events) ==> Possible(e, HappenFirst(e, s, events, i), v)
  {
    hide Happens, Possible;
    assert events[..i + 1][..i] == events[..i];
  }

  /** While the log is replayed, each file of the peer is what the origin had
      at that point, or what the origin has in the end, or will be removed. */
  ghost predicate Tracking(e: Env, events: seq<Event>, final: Store, there: Store, here: Store, i: nat, k: Key) {
    || Get(here, k) == Get(there, k)
    || Get(here, k) == Get(final, k)
    || (Get(final, k).None? && RemovedFrom(e, events, k, i))
  }

  /** The requests for file `k` fit the UPDATE payload. */
  ghost predicate FitsAt(e: Env, log: Log, k: Key) {
    forall x :: x in log && Target(e, x) == Some(k) ==> Fits(x)
  }

  lemma ReplayNext(e: Env, origin: Store, log: Log, i: nat, s: Store, entry: (u32, bytes))
    requires Nth(log, i, entry)
    ensures ReplayFirst(e, origin, log, i + 1, s) == ReplayEntry(e, origin, ReplayFirst(e, origin, log, i, s), entry)
    ensures Takes(e, origin, log, s) ==> Opens(e, origin, ReplayFirst(e, origin, log, i, s), entry)
  {
    hide ReplayEntry, Opens;
    assert log[..i + 1][..i] == log[..i];
  }

  lemma {:induction false} ReplayTracks(e: Env, s: Store, events: seq<Event>, p: Store, i: nat, k: Key)
    requires i <= |events| && SessionPossible(e, s, events) && FitsAt(e, LogOf(events), k) && AllDown(events)
    requires Get(p, k) == Get(s, k) || Get(p, k) == Get(AllHappen(e, s, events), k)
    requires Takes(e, AllHappen(e, s, events), LogOf(events), p)
    ensures Tracking(e, events, AllHappen(e, s, events), HappenFirst(e, s, events, i),
                     ReplayFirst(e, AllHappen(e, s, events), LogOf(events), i, p), i, k)
    decreases i
  {
    var final, log := AllHappen(e, s, events), LogOf(events);
    if i > 0 {
      hide AllHappen, Replay, Takes, Tracking, SessionPossible, Target, Opens, ReplayEntry, Fits, FitsAt, AllDown, Happens;
      hide HappenFirst, ReplayFirst;
      ReplayTracks(e, s, events, p, i - 1, k);
      ReplayNext(e, final, log, i - 1, p, log[i - 1]);
      AllHappenNext(e, s, events, i - 1, events[i - 1]);
      TrackStep(e, s, events, final, ReplayFirst(e, final, log, i - 1, p), i - 1, k, events[i - 1]);
    } else {
      hide AllHappen, HappenFirst, ReplayFirst, Takes, SessionPossible, Get, RemovedFrom, FitsAt, AllDown, LogOf;
      NoneYet(e, s, events, final, p);
    }
  }

  lemma NoneYet(e: Env, s: Store, events: seq<Event>, final: Store, p: Store)
    ensures HappenFirst(e, s, events, 0) == s && ReplayFirst(e, final, LogOf(events), 0, p) == p
  {
    hide Happens, ReplayEntry;
    assert events[..0] == [] && LogOf(events)[..0] == [];
  }

  lemma TrackStep(e: Env, s: Store, events: seq<Event>, final: Store, here: Store, i: nat, k: Key, v: Event)
    requires Nth(events, i, v) && FitsAt(e, LogOf(events), k) && AllDown(events)
    requires Tracking(e, events, final, HappenFirst(e, s, events, i), here, i, k)
    requires SessionPossible(e, s, events) && final == AllHappen(e, s, events) && Opens(e, final, here, EntryOf(v))
    ensures Tracking(e, events, final, HappenFirst(e, s, events, i + 1), ReplayEntry(e, final, here, EntryOf(v)), i + 1, k)
  {
    hide Happens, Possible, Target, Openable, ReplayEntry, AllHappen, HappenFirst, Fits, RemovedFrom;
    assert v in events && LogOf(events)[i] in LogOf(events);
    AllHappenNext(e, s, events, i, v);
    HappensAt(e, HappenFirst(e, s, events, i), v, k);
    ReplayAt(e, final, here, EntryOf(v), k);
    if Get(HappenFirst(e, s, events, i + 1), k).Some? && Get(final, k).None? {
      GoneWasRemoved(e, s, events, k, i + 1);
    }
    RemovedLater(e, events, k, i, v);
  }

  lemma RemovedLater(e: Env, events: seq<Event>, k: Key, i: nat, v: Event)
    requires Nth(events, i, v)
    ensures RemovedFrom(e, events, k, i) ==>
              (v.Removal? && Target(e, EntryOf(v)) == Some(k)) || RemovedFrom(e, events, k, i + 1)
  {
    hide Target;
  }

  /** No file `k`: not before the session, and no upload of it. */
  ghost predicate Untouched(e: Env, s: Store, log: Log, k: Key) {
    k !in s.files && forall x :: x in log && x.0 == PUT ==> Target(e, x) != Some(k)
  }

  lemma {:induction false} UntouchedStays(e: Env, s: Store, events: seq<Event>, k: Key)
    requires SessionPossible(e, s, events) && AllDown(events) && Untouched(e, s, LogOf(events), k)
    ensures Get(AllHappen(e, s, events), k).None?
    decreases |events|
  {
    hide Happens, Possible, Target;
    if events != [] {
      var n := |events| - 1;
      var init, last := events[..n], events[n];
      PossiblePrefix(e, s, events);
      UntouchedPrefix(e, s, events, k);
      UntouchedStays(e, s, init, k);
      AllHappenNext(e, s, events, n, last);
      assert last in events && LogOf(events)[n] in LogOf(events);
      HappensAt(e, AllHappen(e, s, init), last, k);
    }
  }

  lemma UntouchedPrefix(e: Env, s: Store, events: seq<Event>, k: Key)
    requires events != [] && Untouched(e, s, LogOf(events), k) && AllDown(events)
    ensures Untouched(e, s, LogOf(events[..|events| - 1]), k) && AllDown(events[..|events| - 1])
  {
    hide Target;
    var init := events[..|events| - 1];
    assert LogOf(init) == LogOf(events)[..|init|];
    assert forall x :: x in LogOf(init) ==> x in LogOf(events);
    assert forall v :: v in init ==> v in events;
  }

  lemma PossiblePrefix(e: Env, s: Store, events: seq<Event>)
    requires events != [] && SessionPossible(e, s, events)
    ensures SessionPossible(e, s, events[..|events| - 1])
  {
    hide Possible, AllHappen;
    var init := events[..|events| - 1];
    forall i | 0 <= i < |init| ensures Possible(e, HappenFirst(e, s, init, i), init[i]) {
      assert init[..i] == events[..i];
      assert Possible(e, HappenFirst(e, s, events, i), events[i]);
    }
  }

  /** A replay puts no file there either. */
  lemma {:induction false} UntouchedReplay(e: Env, origin: Store, log: Log, p: Store, k: Key)
    requires k !in p.files && forall x :: x in log && x.0 == PUT ==> Target(e, x) != Some(k)
    ensures Get(Replay(e, origin, log, p), k).None?
    decreases |log|
  {
    if log != [] {
      var init, last := log[..|log| - 1], log[|log| - 1];
      assert last in log;
      UntouchedReplay(e, origin, init, p, k);
      ReplayAdds(e, origin, Replay(e, origin, init, p), last, k);
    }
  }

  lemma ReplayAdds(e: Env, origin: Store, s: Store, entry: (u32, bytes), k: Key)
    requires k !in s.files && (entry.0 == PUT ==> Target(e, entry) != Some(k))
    ensures k !in ReplayEntry(e, origin, s, entry).files
  {
    hide ReadKey, WriteKey, CanOpen, Fits;
  }

  /** Every request for a file that is ever there fits the UPDATE payload. */
  ghost predicate Carried(e: Env, s: Store, log: Log) {
    forall x, k :: x in log && Target(e, x) == Some(k) ==> Fits(x) || Untouched(e, s, log, k)
  }

  /** Replica convergence for one session: whatever its removals and uploads
      did, stored, cut short or refused, and by whatever names that do not go
      up, replaying its log from the origin's final files keeps in step with the
      peer and makes the peer's files equal to the origin's, if they were equal
      before the session, or are already. */
  lemma Converges(e: Env, s: Store, events: seq<Event>, p: Store)
    requires e.localDir == e.dir && AllDown(events)
    requires SessionPossible(e, s, events) && Carried(e, s, LogOf(events))
    requires p.files == s.files || p.files == AllHappen(e, s, events).files
    requires Takes(e, AllHappen(e, s, events), LogOf(events), p)
    requires Sendable(e, AllHappen(e, s, events), LogOf(events))
    ensures Replay(e, AllHappen(e, s, events), LogOf(events), p).files == AllHappen(e, s, events).files
    ensures InStep(e, AllHappen(e, s, events), LogOf(events), p)
  {
    hide AllHappen, Replay, SessionPossible, Takes, Sendable, Fits, Target, Carried, AllDown, InStep;
    var final := AllHappen(e, s, events);
    var r := Replay(e, final, LogOf(events), p);
    forall k ensures Get(r, k) == Get(final, k) {
      ConvergesAt(e, s, events, p, k);
    }
    SameFiles(r, final);
    TakesIsGuarded(e, final, LogOf(events), p);
  }

  lemma ConvergesAt(e: Env, s: Store, events: seq<Event>, p: Store, k: Key)
    requires SessionPossible(e, s, events) && AllDown(events) && Carried(e, s, LogOf(events))
    requires p.files == s.files || p.files == AllHappen(e, s, events).files
    requires Takes(e, AllHappen(e, s, events), LogOf(events), p)
    ensures Get(Replay(e, AllHappen(e, s, events), LogOf(events), p), k) == Get(AllHappen(e, s, events), k)
  {
    hide Happens, Possible, Target, Openable, ReplayEntry, Fits, AllHappen, Replay, SessionPossible, Takes, AllDown;
    var final := AllHappen(e, s, events);
    if FitsAt(e, LogOf(events), k) {
      ReplayTracks(e, s, events, p, |events|, k);
      assert events[..|events|] == events && LogOf(events)[..|events|] == LogOf(events);
    } else {
      assert Untouched(e, s, LogOf(events), k);
      UntouchedStays(e, s, events, k);
      UntouchedReplay(e, final, LogOf(events), p, k);
    }
  }

  lemma SameFiles(a: Store, b: Store)
    requires forall k :: Get(a, k) == Get(b, k)
    ensures a.files == b.files
  {
    forall k ensures k in a.files <==> k in b.files {
      assert Get(a, k) == Get(b, k);
    }
    forall k | k in a.files ensures a.files[k] == b.files[k] {
      assert Get(a, k) == Get(b, k);
    }
  }

  /** Where the peer can take every file of accepted name, and nothing is sent
      for others, the replay keeps in step, and its session loses nothing. */
  lemma TakesIsGuarded(e: Env, origin: Store, log: Log, s: Store)
    requires e.localDir == e.dir && Takes(e, origin, log, s) && Sendable(e, origin, log)
    ensures InStep(e, origin, log, s) && AllGuarded(e, origin, UpdateScript(log), Effect(s, [], []))
  {
    hide Takes, Sendable, InStep, AllGuarded, UpdateScript, ExecAll;
    TakesInStep(e, origin, log, s);
    ReplayIsSession(e, origin, log, Effect(s, [], []));
  }

  lemma {:induction false} TakesInStep(e: Env, origin: Store, log: Log, s: Store)
    requires e.localDir == e.dir && Takes(e, origin, log, s) && Sendable(e, origin, log)
    ensures InStep(e, origin, log, s)
    decreases |log|
  {
    hide Replay, TakenBy, Opens, Refusable;
    if log != [] {
      var n := |log| - 1;
      var rest := log[..n];
      assert log[n] in log && forall x :: x in rest ==> x in log;
      forall i | 0 <= i < n ensures Opens(e, origin, ReplayFirst(e, origin, rest, i, s), rest[i]) {
        assert rest[..i] == log[..i];
        assert Opens(e, origin, ReplayFirst(e, origin, log, i, s), log[i]);
      }
      TakesInStep(e, origin, rest, s);
      assert Opens(e, origin, ReplayFirst(e, origin, log, n, s), log[n]);
      EntryGuarded(e, origin, Replay(e, origin, rest, s), log[n]);
    }
  }

  lemma EntryGuarded(e: Env, origin: Store, s: Store, entry: (u32, bytes))
    requires e.localDir == e.dir && Refusable(e, origin, entry) && Opens(e, origin, s, entry)
    ensures TakenBy(e, origin, s, entry)
  {
    WrittenReads(e, origin, entry.1);
    hide ReadKey, PathKey, CanOpen, Components, Fits, Accepts;
    if entry.0 == PUT && Accepted(e, entry.1) {
      assert Target(e, entry) == Some(Named(entry.1));
    }
  }

  // -------------------------------------------------- many slaves and sessions

  datatype Visit = Visit(slave: nat, events: seq<Event>)

  function At(c: seq<Store>, j: nat): Store {
    if j < |c| then c[j] else EMPTY
  }

  /** The files of the visit's slave after its session. */
  function Origin(e: Env, c: seq<Store>, v: Visit): Store {
    AllHappen(e, At(c, v.slave), v.events)
  }

  /** A session on one slave, then its replay to all the others. */
  function RunVisit(e: Env, c: seq<Store>, v: Visit): (r: seq<Store>)
    ensures |r| == |c|
  {
    var origin := Origin(e, c, v);
    seq(|c|, j requires 0 <= j < |c| => if j == v.slave then origin else Replay(e, origin, LogOf(v.events), c[j]))
  }

  /** Every replay of the visit keeps in step. */
  ghost predicate VisitInStep(e: Env, c: seq<Store>, v: Visit) {
    forall j :: 0 <= j < |c| && j != v.slave ==> InStep(e, Origin(e, c, v), LogOf(v.events), c[j])
  }

  /** The requests clients may make: removals and uploads, each by some path. */
  type Requests = iset<(u32, bytes)>

  /** Sessions of these requests, by paths that do not go up. */
  ghost predicate Within(reqs: Requests, events: seq<Event>) {
    AllDown(events) && forall v :: v in events ==> EntryOf(v) in reqs
  }

  ghost predicate VisitsOk(reqs: Requests, n: nat, visits: seq<Visit>) {
    forall v :: v in visits ==> v.slave < n && Within(reqs, v.events)
  }

  function RunVisits(e: Env, c: seq<Store>, visits: seq<Visit>): (r: seq<Store>)
    ensures |r| == |c|
  {
    if visits == [] then c else RunVisit(e, RunVisits(e, c, visits[..|visits| - 1]), visits[|visits| - 1])
  }

  /** Every upload that stores something could open its file. */
  ghost predicate VisitPossible(e: Env, c: seq<Store>, v: Visit) {
    SessionPossible(e, At(c, v.slave), v.events)
  }

  ghost predicate VisitsPossible(e: Env, c: seq<Store>, visits: seq<Visit>) {
    visits == [] ||
    var init, last := visits[..|visits| - 1], visits[|visits| - 1];
    VisitsPossible(e, c, init) && VisitPossible(e, RunVisits(e, c, init), last)
  }

  /** Every replay of every visit keeps in step. */
  ghost predicate VisitsInStep(e: Env, c: seq<Store>, visits: seq<Visit>) {
    visits == [] ||
    var init, last := visits[..|visits| - 1], visits[|visits| - 1];
    VisitsInStep(e, c, init) && VisitInStep(e, RunVisits(e, c, init), last)
  }

  ghost predicate SameEverywhere(c: seq<Store>) {
    forall i, j :: 0 <= i < |c| && 0 <= j < |c| ==> c[i].files == c[j].files
  }

  // -------------------------------------------------------- which requests

  /** A file that some request can store. */
  ghost predicate Storable(e: Env, reqs: Requests, k: Key) {
    exists p :: (PUT, p) in reqs && Accepted(e, p) && Named(p) == k
  }

  /** A file that some request can remove. */
  ghost predicate Removable(e: Env, reqs: Requests, k: Key) {
    exists p :: (RM, p) in reqs && PathKey(e.dir, p) == Some(k)
  }

  /** No file that can be removed is a directory of another, or has another as
      a directory. */
  ghost predicate NoClash(e: Env, reqs: Requests) {
    forall k, l :: Storable(e, reqs, k) && Storable(e, reqs, l) && k < l ==>
      !Removable(e, reqs, k) && !Removable(e, reqs, l)
  }

  /** The request does to a file that is there what its sender meant: it is
      replayed if it is a removal or an upload that can store something, and
      only then. */
  predicate Faithful(e: Env, x: (u32, bytes)) {
    Fits(x) <==> x.0 == RM || Accepted(e, x.1)
  }

  /** Requests that a replay can always carry. */
  ghost predicate Replicable(e: Env, reqs: Requests) {
    && NoClash(e, reqs)
    && forall x, k :: x in reqs && (x.0 == RM || x.0 == PUT) && Storable(e, reqs, k) && PathKey(e.dir, x.1) == Some(k) ==>
         Faithful(e, x)
  }

  /** Only files that can be stored; and where one of them could be stands a
      directory only while a file is below it. */
  ghost predicate Holds(e: Env, reqs: Requests, s: Store) {
    && WellFormed(s)
    && (forall k :: k in s.files ==> Storable(e, reqs, k))
    && (forall d :: d in s.dirs && Storable(e, reqs, d) ==> exists k :: k in s.files && d in Above(k))
  }

  lemma AncestorIsPrefix(a: Key, k: Key)
    ensures a in Above(k) ==> a < k
  {
  }

  lemma PrefixIsAncestor(a: Key, k: Key)
    requires a != [] && a < k
    ensures a in Above(k)
  {
    assert k[..|a|] == a;
  }

  lemma HoldsWritten(e: Env, reqs: Requests, s: Store, p: bytes, k: Key, data: bytes)
    requires Holds(e, reqs, s) && (PUT, p) in reqs && WriteKey(e.dir, e.rootPath, p) == Some(k) && CanOpen(s, k)
    ensures Holds(e, reqs, Written(s, k, data))
  {
    hide Accepts, WellFormed, Above, Storable, Passable;
    WrittenReads(e, s, p);
    StorableAs(e, reqs, p);
    WrittenKeeps(s, k, data);
    var r := Written(s, k, data);
    forall d | d in r.dirs && Storable(e, reqs, d) ensures exists l :: l in r.files && d in Above(l) {
      if d in s.dirs {
        var l :| l in s.files && d in Above(l);
        assert l in r.files;
      } else {
        assert k in r.files && d in Above(k);
      }
    }
  }

  lemma StorableAs(e: Env, reqs: Requests, p: bytes)
    requires (PUT, p) in reqs && Accepted(e, p)
    ensures Storable(e, reqs, Named(p)) && Named(p) != []
  {
  }

  /** What can be removed is not below another file that can be stored. */
  lemma NotBelow(e: Env, reqs: Requests, d: Key, k: Key)
    requires NoClash(e, reqs) && Storable(e, reqs, d) && Storable(e, reqs, k) && Removable(e, reqs, k)
    ensures d !in Above(k)
  {
    hide Storable, Removable;
    AncestorIsPrefix(d, k);
  }

  lemma RemovableAs(e: Env, reqs: Requests, p: bytes, k: Key)
    requires (RM, p) in reqs && PathKey(e.dir, p) == Some(k)
    ensures Removable(e, reqs, k)
  {
    hide PathKey;
  }

  lemma HoldsWithout(e: Env, reqs: Requests, s: Store, p: bytes)
    requires Holds(e, reqs, s) && NoClash(e, reqs) && (RM, p) in reqs && Downward(p)
    ensures Holds(e, reqs, RemovePath(s, e.dir, p))
  {
    hide WellFormed, Above, Storable, Removable, NoClash, ReadKey, PathKey;
    DownwardReads(s, e.dir, p);
    if PathKey(e.dir, p).Some? && PathKey(e.dir, p).value in s.files {
      var k := PathKey(e.dir, p).value;
      RemovableAs(e, reqs, p, k);
      WithoutKeeps(s, k);
      var r := Without(s, k);
      forall d | d in r.dirs && Storable(e, reqs, d) ensures exists l :: l in r.files && d in Above(l) {
        NotBelow(e, reqs, d, k);
        var l :| l in s.files && d in Above(l);
        assert l in r.files;
      }
    } else {
      NothingRemoved(e, s, p);
    }
  }

  lemma NothingRemoved(e: Env, s: Store, p: bytes)
    requires ReadFile(s, e.dir, p) == None
    ensures RemovePath(s, e.dir, p) == s
  {
    hide ReadKey;
    if ReadKey(s, e.dir, p).Some? {
      assert s.files - {ReadKey(s, e.dir, p).value} == s.files;
    }
  }

  lemma EventHolds(e: Env, reqs: Requests, s: Store, v: Event)
    requires Holds(e, reqs, s) && NoClash(e, reqs) && EntryOf(v) in reqs && Downward(v.path)
    ensures Holds(e, reqs, Happens(e, s, v))
  {
    hide Holds, NoClash, CanOpen, WriteKey, ReadKey;
    match v {
      case Removal(path) => HoldsWithout(e, reqs, s, path);
      case Upload(path, stored) =>
        if stored.Some? && Openable(e, s, path) {
          HoldsWritten(e, reqs, s, path, WriteKey(e.dir, e.rootPath, path).value, stored.value);
        }
    }
  }

  lemma EntryHolds(e: Env, reqs: Requests, origin: Store, s: Store, entry: (u32, bytes))
    requires Holds(e, reqs, s) && NoClash(e, reqs) && entry in reqs && Downward(entry.1)
    ensures Holds(e, reqs, ReplayEntry(e, origin, s, entry))
  {
    hide Holds, NoClash, CanOpen, WriteKey, ReadKey, Fits;
    if entry.0 == RM {
      HoldsWithout(e, reqs, s, entry.1);
    } else if entry.0 == PUT && Openable(e, s, entry.1) {
      var file := ReadFile(origin, e.dir, entry.1);
      var k := WriteKey(e.dir, e.rootPath, entry.1).value;
      HoldsWritten(e, reqs, s, entry.1, k, if file.Some? then file.value else []);
    }
  }

  lemma {:induction false} EventsHold(e: Env, reqs: Requests, s: Store, events: seq<Event>)
    requires NoClash(e, reqs) && Holds(e, reqs, s) && Within(reqs, events)
    ensures Holds(e, reqs, AllHappen(e, s, events))
    decreases |events|
  {
    hide Holds, Happens, NoClash, Downward;
    if events != [] {
      var rest, last := events[..|events| - 1], events[|events| - 1];
      assert last in events && forall v :: v in rest ==> v in events;
      EventsHold(e, reqs, s, rest);
      EventHolds(e, reqs, AllHappen(e, s, rest), last);
    }
  }

  lemma {:induction false} ReplayHolds(e: Env, reqs: Requests, origin: Store, log: Log, s: Store)
    requires NoClash(e, reqs) && Holds(e, reqs, s) && forall x :: x in log ==> x in reqs && Downward(x.1)
    ensures Holds(e, reqs, Replay(e, origin, log, s))
    decreases |log|
  {
    hide Holds, ReplayEntry, NoClash, Downward;
    if log != [] {
      var rest, last := log[..|log| - 1], log[|log| - 1];
      assert last in log && forall x :: x in rest ==> x in log;
      ReplayHolds(e, reqs, origin, rest, s);
      EntryHolds(e, reqs, origin, Replay(e, origin, rest, s), last);
    }
  }

  /** A file that is neither at the origin nor at the peer is not put there. */
  lemma {:induction false} NeverThere(e: Env, origin: Store, log: Log, p: Store, k: Key)
    requires k !in origin.files && k !in p.files
    ensures k !in Replay(e, origin, log, p).files
    decreases |log|
  {
    hide ReplayEntry;
    if log != [] {
      var rest := log[..|log| - 1];
      NeverThere(e, origin, rest, p, k);
      NotPutThere(e, origin, Replay(e, origin, rest, p), log[|log| - 1], k);
    }
  }

  lemma NotPutThere(e: Env, origin: Store, s: Store, entry: (u32, bytes), k: Key)
    requires k !in origin.files && k !in s.files
    ensures k !in ReplayEntry(e, origin, s, entry).files
  {
    WrittenReads(e, origin, entry.1);
    hide ReadKey, PathKey, WriteKey, CanOpen, Fits, Components;
  }

  lemma RemovedIsRemovable(e: Env, reqs: Requests, events: seq<Event>, k: Key)
    requires Within(reqs, events)
    ensures RemovedFrom(e, events, k, 0) ==> Removable(e, reqs, k)
  {
    hide PathKey, AllDown;
    if RemovedFrom(e, events, k, 0) {
      var j :| 0 <= j < |events| && events[j].Removal? && Target(e, EntryOf(events[j])) == Some(k);
      assert events[j] in events;
    }
  }

  /** A file that nothing can remove and that is not there in the end was not
      there before. */
  lemma Unmoved(e: Env, reqs: Requests, s: Store, events: seq<Event>, k: Key)
    requires SessionPossible(e, s, events) && Within(reqs, events) && !Removable(e, reqs, k)
    requires k !in AllHappen(e, s, events).files
    ensures k !in s.files
  {
    RemovedIsRemovable(e, reqs, events, k);
    hide AllHappen, SessionPossible, RemovedFrom, Removable, AllDown;
    NoEvents(e, s, events);
    if k in s.files {
      GoneWasRemoved(e, s, events, k, 0);
    }
  }

  lemma NoEvents(e: Env, s: Store, events: seq<Event>)
    ensures HappenFirst(e, s, events, 0) == s
  {
    hide Happens;
    assert events[..0] == [];
  }

  /** A file that clashes with one the origin holds in the end is not at a peer
      at any time of the replay. */
  lemma NoRival(e: Env, reqs: Requests, s: Store, events: seq<Event>, p: Store, log: Log, k: Key, l: Key)
    requires NoClash(e, reqs) && Holds(e, reqs, s) && Within(reqs, events) && SessionPossible(e, s, events)
    requires p.files == s.files || p.files == AllHappen(e, s, events).files
    requires k in AllHappen(e, s, events).files && Storable(e, reqs, l) && (k in Above(l) || l in Above(k))
    ensures l !in Replay(e, AllHappen(e, s, events), log, p).files
  {
    hide AllHappen, Replay, Holds, NoClash, SessionPossible, Within, Storable, Removable, Above;
    var final := AllHappen(e, s, events);
    EventsHold(e, reqs, s, events);
    RivalGone(e, reqs, final, k, l);
    Unmoved(e, reqs, s, events, l);
    NeverThere(e, final, log, p, l);
  }

  lemma RivalGone(e: Env, reqs: Requests, s: Store, k: Key, l: Key)
    requires NoClash(e, reqs) && Holds(e, reqs, s) && k in s.files && Storable(e, reqs, l)
    requires k in Above(l) || l in Above(k)
    ensures l !in s.files && !Removable(e, reqs, l)
  {
    AncestorIsPrefix(k, l);
    AncestorIsPrefix(l, k);
    hide Above, Storable, Removable;
    assert Storable(e, reqs, k);
  }

  /** So at any time of the replay a peer can take what the origin holds in the
      end. */
  lemma TakesEntry(e: Env, reqs: Requests, here: Store, path: bytes)
    requires Holds(e, reqs, here) && (PUT, path) in reqs && Accepted(e, path)
    requires forall l :: Storable(e, reqs, l) && (Named(path) in Above(l) || l in Above(Named(path))) ==> l !in here.files
    ensures Openable(e, here, path)
  {
    hide Accepted, Storable, Above, ReadKey, PathKey, WriteKey, Named, WellFormed;
    AcceptedReads(e, here, path);
    StorableAs(e, reqs, path);
  }

  lemma LogWithin(reqs: Requests, events: seq<Event>)
    requires Within(reqs, events)
    ensures forall x :: x in LogOf(events) ==> x in reqs && Downward(x.1) && (x.0 == RM || x.0 == PUT)
  {
    forall x | x in LogOf(events) ensures x in reqs && Downward(x.1) && (x.0 == RM || x.0 == PUT) {
      var i :| 0 <= i < |events| && LogOf(events)[i] == x;
      assert events[i] in events;
    }
  }

  /** So every peer takes all it is sent. */
  lemma ReplayTakes(e: Env, reqs: Requests, s: Store, events: seq<Event>, p: Store)
    requires NoClash(e, reqs) && Holds(e, reqs, s) && Holds(e, reqs, p)
    requires Within(reqs, events) && SessionPossible(e, s, events)
    requires p.files == s.files || p.files == AllHappen(e, s, events).files
    ensures Takes(e, AllHappen(e, s, events), LogOf(events), p)
  {
    LogWithin(reqs, events);
    var final, log := AllHappen(e, s, events), LogOf(events);
    hide AllHappen, Replay, Holds, SessionPossible, Within, NoClash, Openable, Downward, LogOf, Storable, Above, Named,
         Target, Accepted;
    forall i | 0 <= i < |log| ensures Opens(e, final, ReplayFirst(e, final, log, i, p), log[i]) {
      assert log[i] in log && forall x :: x in log[..i] ==> x in log;
      if log[i].0 == PUT && Target(e, log[i]).Some? && Target(e, log[i]).value in final.files {
        ReplayHolds(e, reqs, final, log[..i], p);
        var here := Replay(e, final, log[..i], p);
        TargetIs(e, s, log[i]);
        var k := Named(log[i].1);
        forall l | Storable(e, reqs, l) && (k in Above(l) || l in Above(k)) ensures l !in here.files {
          NoRival(e, reqs, s, events, p, log[..i], k, l);
        }
        TakesEntry(e, reqs, here, log[i].1);
      }
    }
  }

  /** A request for a file that can be stored is carried as it was meant. */
  lemma ReplicableCarries(e: Env, reqs: Requests, s: Store, final: Store, log: Log)
    requires Replicable(e, reqs) && Holds(e, reqs, s) && Holds(e, reqs, final)
    requires forall x :: x in log ==> x in reqs && Downward(x.1) && (x.0 == RM || x.0 == PUT)
    ensures Carried(e, s, log) && Sendable(e, final, log)
  {
    hide NoClash, Fits, Accepted, Storable, PathKey, ReadKey, Named, WellFormed;
    forall x, k | x in log && Target(e, x) == Some(k) ensures Fits(x) || Untouched(e, s, log, k) {
      TargetIs(e, s, x);
      assert Storable(e, reqs, k) ==> Faithful(e, x);
      forall y | y in log && y.0 == PUT && !Fits(x) ensures Target(e, y) != Some(k) {
        if Target(e, y) == Some(k) {
          TargetIs(e, s, y);
          StorableAs(e, reqs, y.1);
        }
      }
    }
    forall x | x in log ensures Refusable(e, final, x) {
      DownwardReads(final, e.dir, x.1);
      assert x.0 == PUT && Fits(x) && !Accepted(e, x.1) ==> !Faithful(e, x);
    }
  }

  lemma TargetIs(e: Env, s: Store, x: (u32, bytes))
    requires Target(e, x).Some?
    ensures PathKey(e.dir, x.1) == Target(e, x)
    ensures x.0 != RM ==> Accepted(e, x.1) && Target(e, x) == Some(Named(x.1))
  {
    hide Components;
    WrittenReads(e, s, x.1);
  }

  ghost predicate Agrees(e: Env, reqs: Requests, c: seq<Store>) {
    SameEverywhere(c) && forall s :: s in c ==> Holds(e, reqs, s)
  }

  lemma VisitAgrees(e: Env, reqs: Requests, c: seq<Store>, v: Visit)
    requires e.localDir == e.dir && Replicable(e, reqs) && Agrees(e, reqs, c)
    requires v.slave < |c| && Within(reqs, v.events) && VisitPossible(e, c, v)
    ensures Agrees(e, reqs, RunVisit(e, c, v)) && VisitInStep(e, c, v)
  {
    hide Holds, AllHappen, Replay, SessionPossible, Takes, Sendable, Carried, NoClash, Faithful, InStep, Downward;
    var s := c[v.slave];
    var origin := AllHappen(e, s, v.events);
    assert s in c;
    EventsHold(e, reqs, s, v.events);
    LogWithin(reqs, v.events);
    ReplicableCarries(e, reqs, s, origin, LogOf(v.events));
    var r := RunVisit(e, c, v);
    forall j | 0 <= j < |c|
      ensures r[j].files == origin.files && Holds(e, reqs, r[j])
      ensures j != v.slave ==> InStep(e, origin, LogOf(v.events), c[j])
    {
      if j != v.slave {
        assert c[j] in c;
        ReplayTakes(e, reqs, s, v.events, c[j]);
        ReplayHolds(e, reqs, origin, LogOf(v.events), c[j]);
        Converges(e, s, v.events, c[j]);
      }
    }
  }

  /** Replica convergence for any number of slaves and any run of sessions on
      any of them: for requests that a replay can carry, every replay keeps in
      step and all slaves hold the same files after every session. */
  lemma {:induction false} ClusterConverges(e: Env, reqs: Requests, c: seq<Store>, visits: seq<Visit>)
    requires e.localDir == e.dir && Replicable(e, reqs) && Agrees(e, reqs, c)
    requires VisitsOk(reqs, |c|, visits) && VisitsPossible(e, c, visits)
    ensures Agrees(e, reqs, RunVisits(e, c, visits)) && VisitsInStep(e, c, visits)
    decreases |visits|
  {
    hide Agrees, RunVisit, Replicable, VisitPossible, Within, VisitInStep;
    if visits != [] {
      var n := |visits| - 1;
      assert visits[n] in visits;
      var rest := visits[..n];
      assert forall v :: v in rest ==> v in visits;
      ClusterConverges(e, reqs, c, rest);
      VisitAgrees(e, reqs, RunVisits(e, c, rest), visits[n]);
    }
  }

  // --------------------------------------------------- the guards are needed

  const EMPTY: Store := Store(map[], {})

  function TwoEmpty(): seq<Store> {
    [EMPTY, EMPTY]
  }

  /** Two slaves that start empty can go through these visits, and then differ,
      or a replay has not kept in step. */
  ghost predicate Fails(e: Env, visits: seq<Visit>) {
    && VisitsPossible(e, TwoEmpty(), visits)
    && !(SameEverywhere(RunVisits(e, TwoEmpty(), visits)) && VisitsInStep(e, TwoEmpty(), visits))
  }

  lemma EmptyOpens(e: Env, p: bytes)
    requires Accepted(e, p)
    ensures Openable(e, EMPTY, p) && Named(p) != []
    ensures PathKey(e.dir, p) == WriteKey(e.dir, e.rootPath, p) == Some(Named(p))
  {
    AcceptedReads(e, EMPTY, p);
  }

  lemma OneVisit(e: Env, c: seq<Store>, v: Visit)
    ensures RunVisits(e, c, [v]) == RunVisit(e, c, v)
    ensures VisitsPossible(e, c, [v]) <==> VisitPossible(e, c, v)
    ensures VisitsInStep(e, c, [v]) <==> VisitInStep(e, c, v)
  {
    hide RunVisit, VisitPossible, VisitInStep;
    assert [v][..0] == [];
    assert RunVisits(e, c, []) == c;
  }

  lemma TwoVisits(e: Env, c: seq<Store>, v: Visit, w: Visit)
    ensures RunVisits(e, c, [v, w]) == RunVisit(e, RunVisit(e, c, v), w)
    ensures VisitsPossible(e, c, [v, w]) <==> VisitPossible(e, c, v) && VisitPossible(e, RunVisit(e, c, v), w)
    ensures VisitsInStep(e, c, [v, w]) ==> VisitInStep(e, RunVisit(e, c, v), w)
  {
    hide RunVisit, VisitPossible, VisitInStep;
    OneVisit(e, c, v);
    assert [v, w][..1] == [v];
  }

  lemma OneEvent(e: Env, s: Store, x: Event)
    ensures AllHappen(e, s, [x]) == Happens(e, s, x)
    ensures SessionPossible(e, s, [x]) <==> Possible(e, s, x)
  {
    hide Happens, Possible;
    assert [x][..0] == [];
    assert AllHappen(e, s, []) == s;
  }

  lemma OneEntry(e: Env, origin: Store, x: (u32, bytes), s: Store)
    ensures Replay(e, origin, [x], s) == ReplayEntry(e, origin, s, x)
  {
    hide ReplayEntry;
    assert [x][..0] == [];
  }

  /** One upload on the first of two empty slaves. */
  lemma UploadOnce(e: Env, p: bytes, data: bytes)
    requires Accepted(e, p)
    ensures var v := Visit(0, [Upload(p, Some(data))]);
            var stored := Written(EMPTY, Named(p), data);
            && SessionPossible(e, EMPTY, v.events)
            && RunVisit(e, TwoEmpty(), v) == [stored, if Fits((PUT, p)) then stored else EMPTY]
  {
    hide Fits, Named, WriteKey, CanOpen, ReadKey, PathKey;
    var v := Visit(0, [Upload(p, Some(data))]);
    EmptyOpens(e, p);
    OneEvent(e, EMPTY, v.events[0]);
    var stored := Written(EMPTY, Named(p), data);
    assert AllHappen(e, EMPTY, v.events) == stored;
    AcceptedReads(e, stored, p);
    assert LogOf(v.events) == [(PUT, p)];
    OneEntry(e, stored, (PUT, p), EMPTY);
  }

  /** An upload whose name makes the UPDATE payload too long is skipped by the
      replay, and the slaves differ. */
  lemma OverlongDiverges(e: Env, p: bytes)
    requires Accepted(e, p) && !Fits((PUT, p))
    ensures var visits := [Visit(0, [Upload(p, Some([]))])];
            VisitsPossible(e, TwoEmpty(), visits) && !SameEverywhere(RunVisits(e, TwoEmpty(), visits))
  {
    hide Fits, Named, RunVisit, SessionPossible;
    var v := Visit(0, [Upload(p, Some([]))]);
    UploadOnce(e, p, []);
    OneVisit(e, TwoEmpty(), v);
    var r := RunVisit(e, TwoEmpty(), v);
    assert Named(p) in r[0].files && Named(p) !in r[1].files;
  }

  /** A removal, under a name that does not fit, of a file stored under one
      that does. */
  lemma UnsentRemovalDiverges(e: Env, p: bytes, q: bytes)
    requires Accepted(e, q) && Fits((PUT, q)) && PathKey(e.dir, p) == Some(Named(q)) && !Fits((RM, p))
    ensures var visits := [Visit(0, [Upload(q, Some([]))]), Visit(0, [Removal(p)])];
            VisitsPossible(e, TwoEmpty(), visits) && !SameEverywhere(RunVisits(e, TwoEmpty(), visits))
  {
    hide Fits, Named, RunVisits, VisitsPossible, VisitsInStep, VisitInStep, ReadKey;
    var first := Visit(0, [Upload(q, Some([]))]);
    var second := Visit(0, [Removal(p)]);
    var k := Named(q);
    UploadOnce(e, q, []);
    var stored := Written(EMPTY, k, []);
    var c := [stored, stored];
    DownwardReads(stored, e.dir, p);
    OneEvent(e, stored, second.events[0]);
    var origin := AllHappen(e, stored, second.events);
    assert LogOf(second.events) == [(RM, p)];
    OneEntry(e, origin, (RM, p), stored);
    var r := RunVisit(e, c, second);
    assert k !in r[0].files && k in r[1].files;
    TwoVisits(e, TwoEmpty(), first, second);
  }

  /** A name that is also a directory of another: after the other has been
      uploaded and removed on one slave, the directory stays there and nowhere
      else, and that slave can no longer take the file. */
  lemma ClashDiverges(e: Env, p: bytes, q: bytes, r: bytes)
    requires Accepted(e, p) && Accepted(e, q) && Named(p) < Named(q)
    requires Fits((PUT, p)) && PathKey(e.dir, r) == Some(Named(q))
    ensures var visits := [Visit(0, [Upload(q, Some([])), Removal(r)]), Visit(1, [Upload(p, Some([]))])];
            VisitsPossible(e, TwoEmpty(), visits) && !SameEverywhere(RunVisits(e, TwoEmpty(), visits))
  {
    hide Above, Named, Fits, RunVisit, RunVisits, VisitsPossible, VisitsInStep, VisitInStep, SessionPossible, WriteKey,
         ReadKey, PathKey;
    var first := Visit(0, [Upload(q, Some([])), Removal(r)]);
    var second := Visit(1, [Upload(p, Some([]))]);
    LeftoverDirectory(e, q, r);
    var c := [EMPTY.(dirs := Above(Named(q))), EMPTY];
    EmptyOpens(e, p);
    PrefixIsAncestor(Named(p), Named(q));
    RefusedThere(e, p, c);
    TwoVisits(e, TwoEmpty(), first, second);
  }

  /** An upload on the second of two slaves, of which the first has a directory
      in the file's place. */
  lemma RefusedThere(e: Env, p: bytes, c: seq<Store>)
    requires Accepted(e, p) && |c| == 2 && At(c, 0).files == map[] && Named(p) in At(c, 0).dirs && At(c, 1) == EMPTY
    ensures var v := Visit(1, [Upload(p, Some([]))]);
            VisitPossible(e, c, v) && !SameEverywhere(RunVisit(e, c, v))
  {
    hide Above, Named, Fits, ReadKey, PathKey, WriteKey;
    var v := Visit(1, [Upload(p, Some([]))]);
    EmptyOpens(e, p);
    OneEvent(e, EMPTY, v.events[0]);
    var origin := AllHappen(e, EMPTY, v.events);
    assert LogOf(v.events) == [(PUT, p)];
    OneEntry(e, origin, (PUT, p), c[0]);
    var r := RunVisit(e, c, v);
    assert Named(p) in r[1].files && Named(p) !in r[0].files;
  }

  /** Upload and removal of a name on one of two empty slaves. */
  lemma LeftoverDirectory(e: Env, q: bytes, r: bytes)
    requires Accepted(e, q) && PathKey(e.dir, r) == Some(Named(q))
    ensures var v := Visit(0, [Upload(q, Some([])), Removal(r)]);
            && SessionPossible(e, EMPTY, v.events)
            && RunVisit(e, TwoEmpty(), v) == [EMPTY.(dirs := Above(Named(q))), EMPTY]
  {
    var up, down := Upload(q, Some([])), Removal(r);
    var k := Named(q);
    var stored, origin := Written(EMPTY, k, []), EMPTY.(dirs := Above(k));
    EmptyOpens(e, q);
    PathDown(e, r);
    DownwardReads(stored, e.dir, r);
    DownwardReads(EMPTY, e.dir, r);
    AcceptedReads(e, origin, q);
    hide Above, Named, Fits, ReadKey, PathKey, WriteKey, CanOpen, Downward, Accepted;
    assert Without(stored, k) == origin && Without(EMPTY, k) == EMPTY;
    assert Happens(e, EMPTY, up) == stored && Happens(e, stored, down) == origin;
    var log := LogOf([up, down]);
    assert log == [(PUT, q), (RM, r)];
    assert ReplayEntry(e, origin, EMPTY, log[0]) == EMPTY && ReplayEntry(e, origin, EMPTY, log[1]) == EMPTY;
    hide Happens, ReplayEntry;
    TwoEvents(e, EMPTY, up, down);
    TwoEntries(e, origin, EMPTY, log[0], log[1]);
  }

  lemma TwoEvents(e: Env, s: Store, x: Event, y: Event)
    ensures AllHappen(e, s, [x, y]) == Happens(e, Happens(e, s, x), y)
    ensures Possible(e, s, x) && Possible(e, Happens(e, s, x), y) ==> SessionPossible(e, s, [x, y])
  {
    hide Happens, Possible;
    var events := [x, y];
    assert events[..0] == [] && events[..1] == [x];
    OneEvent(e, s, x);
    assert AllHappen(e, s, []) == s;
  }

  lemma TwoEntries(e: Env, origin: Store, s: Store, x: (u32, bytes), y: (u32, bytes))
    ensures Replay(e, origin, [x, y], s) == ReplayEntry(e, origin, ReplayEntry(e, origin, s, x), y)
  {
    hide ReplayEntry;
    assert [x, y][..1] == [x];
    OneEntry(e, origin, x, s);
  }

  /** A replay whose first file the peer does not take is out of step. */
  lemma {:induction false} OutOfStep(e: Env, origin: Store, log: Log, s: Store, p: bytes)
    requires e.localDir == e.dir && Nth(log, 0, (PUT, p)) && Fits((PUT, p)) && !Openable(e, s, p)
    requires ReadFile(origin, e.dir, p) != None && ReadFile(origin, e.dir, p) != Some([])
    ensures !InStep(e, origin, log, s)
    decreases |log|
  {
    hide Openable, ReadKey, ReplayEntry, Fits;
    var init := log[..|log| - 1];
    if init == [] {
      assert Replay(e, origin, init, s) == s;
    } else {
      OutOfStep(e, origin, init, s, p);
    }
  }

  /** A client uploads by another name of a file, without one of its own to
      send: the slave stores nothing, but its replay sends the file, and the
      peer refuses the name. */
  lemma RefusedStops(e: Env, p: bytes, q: bytes)
    requires e.localDir == e.dir && Accepted(e, q) && !Accepted(e, p) && Fits((PUT, p))
    requires PathKey(e.dir, p) == Some(Named(q))
    ensures Fails(e, [Visit(0, [Upload(q, Some([0]))]), Visit(0, [Upload(p, None)])])
  {
    hide Fits, Named, RunVisits, VisitsPossible, VisitsInStep, RunVisit, InStep, ReadKey, PathKey, CanOpen, AllHappen,
         SessionPossible;
    var first, second := Visit(0, [Upload(q, Some([0]))]), Visit(0, [Upload(p, None)]);
    UploadOnce(e, q, [0]);
    var c := RunVisit(e, TwoEmpty(), first);
    var stored := c[0];
    OneEvent(e, stored, second.events[0]);
    PathDown(e, p);
    DownwardReads(stored, e.dir, p);
    OutOfStep(e, stored, LogOf(second.events), c[1], p);
    TwoVisits(e, TwoEmpty(), first, second);
  }

  lemma PathDown(e: Env, p: bytes)
    ensures PathKey(e.dir, p).Some? ==> Downward(p)
  {
  }

  /** A client uploads a file that needs another in the place of one of its
      directories, and is refused, removes the other, and uploads it again: the
      replay sends the file twice, and the first time the peer refuses it. */
  lemma ClashStops(e: Env, p: bytes, q: bytes, r: bytes)
    requires e.localDir == e.dir && Accepted(e, p) && Accepted(e, q) && Named(p) < Named(q)
    requires Fits((PUT, p)) && Fits((PUT, q)) && PathKey(e.dir, r) == Some(Named(p))
    ensures Fails(e, [Visit(0, [Upload(p, Some([]))]), Visit(0, [Upload(q, None), Removal(r), Upload(q, Some([0]))])])
  {
    hide Fits, Named, RunVisits, VisitsPossible, VisitsInStep, RunVisit, InStep, ReadKey, PathKey, Above, AllHappen,
         SessionPossible;
    var first := Visit(0, [Upload(p, Some([]))]);
    var second := Visit(0, [Upload(q, None), Removal(r), Upload(q, Some([0]))]);
    UploadOnce(e, p, []);
    var stored := Written(EMPTY, Named(p), []);
    Replaced(e, p, q, r);
    var origin := AllHappen(e, stored, second.events);
    AcceptedReads(e, origin, q);
    EmptyOpens(e, p);
    PrefixIsAncestor(Named(p), Named(q));
    OutOfStep(e, origin, LogOf(second.events), stored, q);
    var c := RunVisit(e, TwoEmpty(), first);
    assert c[0] == stored && c[1] == stored;
    assert !VisitInStep(e, c, second);
    TwoVisits(e, TwoEmpty(), first, second);
  }

  lemma ThreeEvents(e: Env, s: Store, x: Event, y: Event, z: Event)
    ensures var s1 := Happens(e, s, x);
            var s2 := Happens(e, s1, y);
            && AllHappen(e, s, [x, y, z]) == Happens(e, s2, z)
            && (Possible(e, s, x) && Possible(e, s1, y) && Possible(e, s2, z) ==> SessionPossible(e, s, [x, y, z]))
  {
    hide Happens, Possible;
    var events := [x, y, z];
    assert events[..0] == [] && events[..1] == [x] && events[..2] == [x, y];
    OneEvent(e, s, x);
    TwoEvents(e, s, x, y);
    assert AllHappen(e, s, []) == s;
  }

  /** The refused upload, the removal and the upload at the origin. */
  lemma Replaced(e: Env, p: bytes, q: bytes, r: bytes)
    requires Accepted(e, p) && Accepted(e, q) && Named(p) < Named(q) && PathKey(e.dir, r) == Some(Named(p))
    ensures var s := Written(EMPTY, Named(p), []);
            var events := [Upload(q, None), Removal(r), Upload(q, Some([0]))];
            && SessionPossible(e, s, events)
            && AllHappen(e, s, events).files == map[Named(q) := [0]]
  {
    hide Named, ReadKey, PathKey, WriteKey, Accepted, AllHappen, SessionPossible;
    var s := Written(EMPTY, Named(p), []);
    ThreeEvents(e, s, Upload(q, None), Removal(r), Upload(q, Some([0])));
    PathDown(e, r);
    DownwardReads(s, e.dir, r);
    assert Without(s, Named(p)) == EMPTY.(dirs := Above(Named(p)));
    EmptyOpens(e, q);
    AncestorIsPrefix(Named(q), Named(p));
  }

  // ---------------------------------------------------------- paths that go up

  /** "a" */
  const A: bytes := [97]
  /** "d/x" */
  const DX: bytes := [100, 47, 120]
  /** "d/../a" */
  const UP: bytes := [100, 47, 46, 46, 47, 97]

  lemma UpwardNames()
    ensures Components(A) == [A] && Components(DX) == [[100], [120]] && Components(UP) == [[100], DOTDOT, A]
    ensures !SaysDirectory(UP) && Fits((PUT, A))
    ensures Above(Components(A)) == {} && Above(Components(DX)) == {[[100]]}
  {
    hide Components, UpdatePayload;
    ComponentAlone(A);
    ComponentAlone([100]);
    ComponentAlone([120]);
    ComponentAlone(DOTDOT);
    assert [100] + [SLASH] + [120] == DX;
    ComponentsOfSlash([100], [120]);
    assert DOTDOT + [SLASH] + A == [46, 46, 47, 97] && [100] + [SLASH] + [46, 46, 47, 97] == UP;
    ComponentsOfSlash(DOTDOT, A);
    ComponentsOfSlash([100], [46, 46, 47, 97]);
    var k: Key := [[100], [120]];
    assert k[..1] == [[100]];
    ShortFits(A);
  }

  lemma ShortFits(p: bytes)
    requires |p| < 100
    ensures Fits((PUT, p))
  {
    DecimalLength(PUT);
  }

  /** Where "d/../a" leads depends on the directory "d". */
  lemma UpwardLeads(s: Store)
    ensures Leads(s, [], [[100], DOTDOT, A]) == if [[100]] in s.dirs then Some([A]) else None
  {
    var cs: Key := [[100], DOTDOT, A];
    assert cs[1..] == [DOTDOT, A] && cs[1..][1..] == [A] && [A][1..] == [];
    assert Enter([], [100]) == [[100]] && Enter([[100]], DOTDOT) == [] && Enter([], A) == [A];
    assert Leads(s, [], [A]) == Leads(s, [A], []) == Some([A]);
    assert Leads(s, [], cs) == Leads(s, [[100]], [DOTDOT, A]);
  }

  lemma UpwardRemoves(e: Env, s: Store)
    requires Accepted(e, A) && CandidateLength(e.dir, UP) < MAXLINE
    ensures RemovePath(s, e.dir, UP) == if [[100]] in s.dirs then Without(s, [A]) else s
  {
    hide Components, Leads;
    UpwardNames();
    UpwardLeads(s);
  }

  /** A directory left behind on one slave decides what a path with ".." names
      there: such a removal is not repeated elsewhere. */
  lemma UpwardDiverges(e: Env)
    requires Accepted(e, A) && Accepted(e, DX) && CandidateLength(e.dir, UP) < MAXLINE
    ensures var visits := [Visit(0, [Upload(DX, Some([])), Removal(DX), Upload(A, Some([]))]), Visit(0, [Removal(UP)])];
            VisitsPossible(e, TwoEmpty(), visits) && !SameEverywhere(RunVisits(e, TwoEmpty(), visits))
  {
    hide Fits, VisitsPossible, VisitsInStep, VisitInStep, RunVisits, AllHappen, Replay, Components, Accepted,
         SessionPossible, RemovePath, SameEverywhere;
    var first := Visit(0, [Upload(DX, Some([])), Removal(DX), Upload(A, Some([]))]);
    var second := Visit(0, [Removal(UP)]);
    LeftBehind(e);
    var here, there := Store(map[[A] := []], {[[100]]}), Store(map[[A] := []], {});
    UpwardRemoves(e, here);
    UpwardRemoves(e, there);
    OneEvent(e, here, second.events[0]);
    var origin := AllHappen(e, here, second.events);
    assert origin == Without(here, [A]);
    assert LogOf(second.events) == [(RM, UP)];
    OneEntry(e, origin, (RM, UP), there);
    assert Replay(e, origin, LogOf(second.events), there) == there;
    SecondDiffers(e, [here, there], second);
    TwoVisits(e, TwoEmpty(), first, second);
  }

  lemma SecondDiffers(e: Env, c: seq<Store>, v: Visit)
    requires |c| == 2 && v.slave == 0
    requires Replay(e, Origin(e, c, v), LogOf(v.events), At(c, 1)).files != Origin(e, c, v).files
    ensures !SameEverywhere(RunVisit(e, c, v))
  {
    hide AllHappen, Replay;
    var r := RunVisit(e, c, v);
    assert r[0].files != r[1].files;
  }

  /** Both slaves have the file, and one of them the directory. */
  lemma LeftBehind(e: Env)
    requires Accepted(e, A) && Accepted(e, DX)
    ensures var v := Visit(0, [Upload(DX, Some([])), Removal(DX), Upload(A, Some([]))]);
            && SessionPossible(e, EMPTY, v.events)
            && RunVisit(e, TwoEmpty(), v) == [Store(map[[A] := []], {[[100]]}), Store(map[[A] := []], {})]
  {
    hide Fits, Replay, AllHappen, SessionPossible, Components, Accepted, ReadKey, PathKey, WriteKey;
    var up, down, again := Upload(DX, Some([])), Removal(DX), Upload(A, Some([]));
    UpwardNames();
    EmptyOpens(e, DX);
    EmptyOpens(e, A);
    ThreeEvents(e, EMPTY, up, down, again);
    var k := Named(DX);
    var s1 := Written(EMPTY, k, []);
    AcceptedReads(e, s1, DX);
    var s2 := Store(map[], {[[100]]});
    assert Happens(e, EMPTY, up) == s1;
    assert Happens(e, s1, down) == s2;
    var origin := Store(map[[A] := []], {[[100]]});
    assert Happens(e, s2, again) == origin;
    AcceptedReads(e, origin, DX);
    AcceptedReads(e, origin, A);
    AcceptedReads(e, EMPTY, DX);
    var log := LogOf([up, down, again]);
    assert log == [(PUT, DX), (RM, DX), (PUT, A)];
    ThreeEntries(e, origin, EMPTY, log[0], log[1], log[2]);
    assert ReplayEntry(e, origin, EMPTY, log[0]) == EMPTY;
    assert Without(EMPTY, k) == EMPTY;
    assert ReplayEntry(e, origin, EMPTY, log[1]) == EMPTY;
    assert ReplayEntry(e, origin, EMPTY, log[2]) == Written(EMPTY, [A], []) == Store(map[[A] := []], {});
    var v := Visit(0, [up, down, again]);
    var r := RunVisit(e, TwoEmpty(), v);
    assert r[0] == origin && r[1] == Store(map[[A] := []], {});
  }

  lemma ThreeEntries(e: Env, origin: Store, s: Store, x: (u32, bytes), y: (u32, bytes), z: (u32, bytes))
    ensures Replay(e, origin, [x, y, z], s)
         == ReplayEntry(e, origin, ReplayEntry(e, origin, ReplayEntry(e, origin, s, x), y), z)
  {
    hide ReplayEntry;
    assert [x, y, z][..2] == [x, y];
    TwoEntries(e, origin, s, x, y);
  }

  // -------------------------------------------------- the condition is exact

  lemma OverlongFails(e: Env, reqs: Requests, p: bytes) returns (visits: seq<Visit>)
    requires (PUT, p) in reqs && Accepted(e, p) && !Fits((PUT, p))
    ensures VisitsOk(reqs, 2, visits) && Fails(e, visits)
  {
    hide RunVisits, VisitsPossible, VisitsInStep, SameEverywhere, Fits, Accepted, Downward;
    AcceptedReads(e, EMPTY, p);
    OverlongDiverges(e, p);
    visits := [Visit(0, [Upload(p, Some([]))])];
  }

  lemma UnsentFails(e: Env, reqs: Requests, p: bytes, q: bytes) returns (visits: seq<Visit>)
    requires (RM, p) in reqs && (PUT, q) in reqs && Accepted(e, q) && PathKey(e.dir, p) == Some(Named(q))
    requires Fits((PUT, q)) && !Fits((RM, p))
    ensures VisitsOk(reqs, 2, visits) && Fails(e, visits)
  {
    hide RunVisits, VisitsPossible, VisitsInStep, SameEverywhere, Fits, Accepted, Downward, Named;
    AcceptedReads(e, EMPTY, q);
    PathDown(e, p);
    hide PathKey;
    UnsentRemovalDiverges(e, p, q);
    visits := [Visit(0, [Upload(q, Some([]))]), Visit(0, [Removal(p)])];
  }

  lemma RefusedFails(e: Env, reqs: Requests, p: bytes, q: bytes) returns (visits: seq<Visit>)
    requires e.localDir == e.dir && (PUT, p) in reqs && (PUT, q) in reqs && Accepted(e, q) && !Accepted(e, p)
    requires Fits((PUT, p)) && PathKey(e.dir, p) == Some(Named(q))
    ensures VisitsOk(reqs, 2, visits) && Fails(e, visits)
  {
    hide Fails, Fits, Accepted, Downward, Named;
    AcceptedReads(e, EMPTY, q);
    PathDown(e, p);
    hide PathKey;
    RefusedStops(e, p, q);
    visits := [Visit(0, [Upload(q, Some([0]))]), Visit(0, [Upload(p, None)])];
  }

  lemma UnfaithfulFails(e: Env, reqs: Requests, x: (u32, bytes), q: bytes) returns (visits: seq<Visit>)
    requires e.localDir == e.dir && x in reqs && (x.0 == RM || x.0 == PUT) && (PUT, q) in reqs && Accepted(e, q)
    requires PathKey(e.dir, x.1) == Some(Named(q)) && !Faithful(e, x)
    ensures VisitsOk(reqs, 2, visits) && Fails(e, visits)
  {
    hide Fails, VisitsOk, Fits, Accepted, Named, PathKey;
    if !Fits((PUT, q)) {
      visits := OverlongFails(e, reqs, q);
    } else if x.0 == RM {
      visits := UnsentFails(e, reqs, x.1, q);
    } else if Accepted(e, x.1) {
      visits := OverlongFails(e, reqs, x.1);
    } else {
      visits := RefusedFails(e, reqs, x.1, q);
    }
  }

  lemma DifferFails(e: Env, visits: seq<Visit>)
    requires VisitsPossible(e, TwoEmpty(), visits) && !SameEverywhere(RunVisits(e, TwoEmpty(), visits))
    ensures Fails(e, visits)
  {
    hide VisitsPossible, VisitsInStep, SameEverywhere, RunVisits;
  }

  lemma WithinOne(reqs: Requests, x: Event)
    requires EntryOf(x) in reqs && Downward(x.path)
    ensures Within(reqs, [x])
  {
    hide EntryOf, Downward;
  }

  lemma WithinMore(reqs: Requests, x: Event, events: seq<Event>)
    requires EntryOf(x) in reqs && Downward(x.path) && Within(reqs, events)
    ensures Within(reqs, [x] + events)
  {
    hide EntryOf, Downward;
  }

  lemma TwoVisitsOk(reqs: Requests, v: Visit, w: Visit)
    requires v.slave < 2 && w.slave < 2 && Within(reqs, v.events) && Within(reqs, w.events)
    ensures VisitsOk(reqs, 2, [v, w])
  {
    hide Within;
  }

  lemma LargerFails(e: Env, reqs: Requests, p: bytes, q: bytes, r: bytes) returns (visits: seq<Visit>)
    requires (PUT, p) in reqs && (PUT, q) in reqs && (RM, r) in reqs && Accepted(e, p) && Accepted(e, q)
    requires Named(p) < Named(q) && Fits((PUT, p)) && PathKey(e.dir, r) == Some(Named(q))
    ensures VisitsOk(reqs, 2, visits) && Fails(e, visits)
  {
    hide Fails, RunVisits, VisitsPossible, VisitsInStep, SameEverywhere, VisitsOk, Within, Fits, Accepted, Downward, Named,
         PathKey;
    var up, down, other := Upload(q, Some([])), Removal(r), Upload(p, Some([]));
    AcceptedReads(e, EMPTY, p);
    AcceptedReads(e, EMPTY, q);
    PathDown(e, r);
    WithinOne(reqs, other);
    WithinOne(reqs, down);
    WithinMore(reqs, up, [down]);
    assert [up] + [down] == [up, down];
    TwoVisitsOk(reqs, Visit(0, [up, down]), Visit(1, [other]));
    ClashDiverges(e, p, q, r);
    visits := [Visit(0, [up, down]), Visit(1, [other])];
    DifferFails(e, visits);
  }

  lemma SmallerFails(e: Env, reqs: Requests, p: bytes, q: bytes, r: bytes) returns (visits: seq<Visit>)
    requires e.localDir == e.dir && (PUT, p) in reqs && (PUT, q) in reqs && (RM, r) in reqs
    requires Accepted(e, p) && Accepted(e, q) && Named(p) < Named(q) && PathKey(e.dir, r) == Some(Named(p))
    requires Fits((PUT, p)) && Fits((PUT, q))
    ensures VisitsOk(reqs, 2, visits) && Fails(e, visits)
  {
    hide Fails, VisitsOk, Within, Fits, Accepted, Downward, Named, PathKey;
    var up, refused, down, again := Upload(p, Some([])), Upload(q, None), Removal(r), Upload(q, Some([0]));
    AcceptedReads(e, EMPTY, p);
    AcceptedReads(e, EMPTY, q);
    PathDown(e, r);
    WithinOne(reqs, up);
    WithinOne(reqs, again);
    WithinMore(reqs, down, [again]);
    WithinMore(reqs, refused, [down] + [again]);
    assert [refused] + ([down] + [again]) == [refused, down, again];
    TwoVisitsOk(reqs, Visit(0, [up]), Visit(0, [refused, down, again]));
    ClashStops(e, p, q, r);
    visits := [Visit(0, [up]), Visit(0, [refused, down, again])];
  }

  lemma ClashFails(e: Env, reqs: Requests, k: Key, l: Key) returns (visits: seq<Visit>)
    requires e.localDir == e.dir && Storable(e, reqs, k) && Storable(e, reqs, l) && k < l
    requires Removable(e, reqs, k) || Removable(e, reqs, l)
    ensures VisitsOk(reqs, 2, visits) && Fails(e, visits)
  {
    hide Fails, VisitsOk, Fits, Accepted, Named, PathKey;
    var p :| (PUT, p) in reqs && Accepted(e, p) && Named(p) == k;
    var q :| (PUT, q) in reqs && Accepted(e, q) && Named(q) == l;
    if !Fits((PUT, p)) {
      visits := OverlongFails(e, reqs, p);
    } else if !Fits((PUT, q)) {
      visits := OverlongFails(e, reqs, q);
    } else if Removable(e, reqs, l) {
      var r :| (RM, r) in reqs && PathKey(e.dir, r) == Some(l);
      visits := LargerFails(e, reqs, p, q, r);
    } else {
      var r :| (RM, r) in reqs && PathKey(e.dir, r) == Some(k);
      visits := SmallerFails(e, reqs, p, q, r);
    }
  }

  lemma FailingRun(e: Env, reqs: Requests) returns (visits: seq<Visit>)
    requires e.localDir == e.dir && !Replicable(e, reqs)
    ensures VisitsOk(reqs, 2, visits) && Fails(e, visits)
  {
    hide Fails, VisitsOk, Fits, Accepted, Named, PathKey, Faithful, Removable;
    if x, k :| x in reqs && (x.0 == RM || x.0 == PUT) && Storable(e, reqs, k) && PathKey(e.dir, x.1) == Some(k)
               && !Faithful(e, x) {
      var q :| (PUT, q) in reqs && Accepted(e, q) && Named(q) == k;
      visits := UnfaithfulFails(e, reqs, x, q);
    } else {
      hide Storable;
      var k, l :| Storable(e, reqs, k) && Storable(e, reqs, l) && k < l && (Removable(e, reqs, k) || Removable(e, reqs, l));
      visits := ClashFails(e, reqs, k, l);
    }
  }

  /** The guard on the requests is exact, whatever they are: every run of
      sessions on two slaves that start empty keeps their files equal, each
      replay in step, if and only if, of the files that can be stored, none
      that can be removed is a directory of another or has another as a
      directory; and those requests that name one by a path without ".." fit
      the UPDATE payload exactly if they are removals or can store it. */
  lemma ReplicationExact(e: Env, reqs: Requests)
    requires e.localDir == e.dir
    ensures Replicable(e, reqs) <==>
      forall visits: seq<Visit> :: VisitsOk(reqs, 2, visits) && VisitsPossible(e, TwoEmpty(), visits) ==>
        SameEverywhere(RunVisits(e, TwoEmpty(), visits)) && VisitsInStep(e, TwoEmpty(), visits)
  {
    if Replicable(e, reqs) {
      forall visits: seq<Visit> | VisitsOk(reqs, 2, visits) && VisitsPossible(e, TwoEmpty(), visits)
        ensures SameEverywhere(RunVisits(e, TwoEmpty(), visits)) && VisitsInStep(e, TwoEmpty(), visits)
      {
        ClusterConverges(e, reqs, TwoEmpty(), visits);
      }
    } else {
      var visits := FailingRun(e, reqs);
    }
  }
}
