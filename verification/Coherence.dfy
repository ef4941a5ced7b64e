/**
 `coherence`: the walk over the peers named by the master, and for each of
 them the walk over the log.
 */
module Coherence {
  import opened Bytes
  import opened Text
  import opened Wire
  import opened Transfer
  import opened Paths
  import opened FileSystem
  import opened Session
  import opened Logs
  import opened Replication

  /** A peer has left a file unread, and takes it for the next request: the
      model follows the walk no further. */
  const OUT_OF_STEP: int := -2

  /** One line of the peer list without its carriage return. */
  function Trimmed(line: bytes): bytes {
    if line != [] && line[|line| - 1] == CR then line[..|line| - 1] else line
  }

  /** The peers of a list: its lines, without the empty ones. */
  function PeerNames(text: bytes): seq<bytes>
    decreases |text|
  {
    if text == [] then []
    else
      var i := Find(text, NL);
      var name := Trimmed(text[..i]);
      (if name == [] then [] else [name]) + PeerNames(if i < |text| then text[i + 1..] else [])
  }

  /** The files of the peers after the walk, as far as they are known, and what
      `coherence` returns. A peer that cannot be reached ends the process, and
      with it the walk. */
  ghost function ReplayPeers(e: Env, origin: Store, log: Log, peers: seq<bytes>, stores: map<bytes, Store>)
    : (map<bytes, Store>, int)
  {
    if peers == [] then (stores, 0)
    else if peers[0] !in stores then (stores, EXITED)
    else if !InStep(e, origin, log, stores[peers[0]]) then (stores - {peers[0]}, OUT_OF_STEP)
    else ReplayPeers(e, origin, log, peers[1..], stores[peers[0] := Replay(e, origin, log, stores[peers[0]])])
  }

  /** The slaves that can be reached, by address. */
  class Network {
    var stores: map<bytes, Store>

    constructor (stores: map<bytes, Store>)
      ensures this.stores == stores
    {
      this.stores := stores;
    }

    /** One UPDATE request and its answers, an upload sending `origin`'s file;
        whether the peer has read all it was sent. */
    method SendUpdate(e: Env, ip: bytes, kind: u32, path: bytes, origin: Store) returns (inStep: bool)
      requires ip in stores && (kind == RM || kind == PUT)
      modifies this
      ensures inStep <==> Guarded(e, origin, Update(kind, path), old(stores)[ip])
      ensures inStep ==>
                stores == old(stores)[ip := Exec(e, origin, Update(kind, path), Effect(old(stores)[ip], [], [])).store]
      ensures ip in stores && stores == old(stores)[ip := stores[ip]]
    {
      hide Guarded, Exec;
      inStep := Guarded(e, origin, Update(kind, path), stores[ip]);
      stores := stores[ip := Exec(e, origin, Update(kind, path), Effect(stores[ip], [], [])).store];
    }

    /** The log walked for one peer, as long as it keeps in step. */
    method ReplayTo(e: Env, ip: bytes, log: LogNode?, origin: Store, ghost nodes: seq<LogNode>) returns (inStep: bool)
      requires ip in stores && e.localDir == e.dir
      requires IsList(nodes) && log == NodeAt(nodes, 0)
      modifies this
      ensures inStep <==> InStep(e, origin, Entries(nodes), old(stores)[ip])
      ensures inStep ==> stores == old(stores)[ip := Replay(e, origin, Entries(nodes), old(stores)[ip])]
      ensures ip in stores && stores == old(stores)[ip := stores[ip]]
    {
      hide Replay, ReplayFirst, ReplayEntry, InStep, Exec, Guarded, Sent;
      ghost var es := Entries(nodes);
      ghost var before := stores[ip];
      ghost var i: nat := 0;
      var entry := log;
      NothingReplayed(e, origin, before);
      assert es[..0] == [];
      while entry != null
        invariant i <= |nodes| && entry == NodeAt(nodes, i) && ip in stores
        invariant stores == old(stores)[ip := stores[ip]] && stores[ip] == Replay(e, origin, es[..i], before)
        invariant InStep(e, origin, es[..i], before)
        decreases |nodes| - i
      {
        StepNextEntry(e, origin, es, i, before, es[i]);
        assert es[i] == (entry.kind, entry.path);
        EntrySent(e, origin, stores[ip], es[i]);
        var payload := UpdatePayload(entry.kind, entry.path);
        if (entry.kind != RM && entry.kind != PUT) || |payload| >= MAXLINE {
          entry := Follow(entry, nodes, i);
          i := i + 1;
          continue;
        }
        inStep := SendUpdate(e, ip, entry.kind, entry.path, origin);
        if !inStep {
          return;
        }
        entry := Follow(entry, nodes, i);
        i := i + 1;
      }
      assert es[..i] == es;
      return true;
    }

    /** `coherence`, on the peer list the master sent: each line is cut in
        place, and the log replayed to the peer it names. */
    method Coherence(e: Env, log: LogNode?, list: bytes, origin: Store, ghost nodes: seq<LogNode>) returns (r: int)
      requires e.localDir == e.dir && IsCString(list)
      requires IsList(nodes) && log == NodeAt(nodes, 0)
      modifies this
      ensures nodes == [] ==> stores == old(stores) && r == 0
      ensures nodes != [] ==>
                var (known, code) := ReplayPeers(e, origin, Entries(nodes), PeerNames(list), old(stores));
                && r == code && (forall p :: p in known ==> p in stores && stores[p] == known[p])
                && (r != OUT_OF_STEP ==> stores == known)
      ensures nodes != [] && r == 0 ==> forall p :: p in PeerNames(list) ==> p in old(stores)
    {
      hide Replay, ReplayPeers, InStep, PeerNames, Find, CString;
      if log == null {
        return 0;
      }
      ghost var es := Entries(nodes);
      var content: bytes := list;
      var slaveIp: nat := 0;
      ghost var visited: seq<bytes> := [];
      assert list[0..] == list;
      while slaveIp < |content|
        invariant slaveIp <= |content| == |list| && content[slaveIp..] == list[slaveIp..]
        invariant PeerNames(list) == visited + PeerNames(list[slaveIp..])
        invariant ReplayPeers(e, origin, es, PeerNames(list), old(stores))
               == ReplayPeers(e, origin, es, PeerNames(list[slaveIp..]), stores)
        invariant stores.Keys == old(stores).Keys && forall p :: p in visited ==> p in old(stores)
      {
        var sep := Find(content[slaveIp..], NL);
        var next := |content|;
        ghost var rest := list[slaveIp..];
        TailStays(content, list, slaveIp, sep);
        if slaveIp + sep < |content| {
          content := content[slaveIp + sep := NUL];
          next := slaveIp + sep + 1;
        }
        LineCut(content, list, slaveIp, sep);
        var name := CString(content[slaveIp..]);
        if name != [] && name[|name| - 1] == CR {
          name := name[..|name| - 1];
        }
        NamesNext(list, slaveIp, sep, next, name);
        assert [] + PeerNames(list[next..]) == PeerNames(list[next..]);
        if name != [] {
          PeersNext(e, origin, es, name, PeerNames(list[next..]), stores);
          if name !in stores {
            assert name in PeerNames(list);
            return EXITED;
          }
          var inStep := ReplayTo(e, name, log, origin, nodes);
          if !inStep {
            return OUT_OF_STEP;
          }
          visited := visited + [name];
        }
        slaveIp := next;
      }
      assert list[slaveIp..] == [];
      NoNames(e, origin, es, stores);
      return 0;
    }
  }

  /** The line that starts at the pointer, once its newline is patched. */
  lemma LineCut(content: bytes, list: bytes, at: nat, sep: nat)
    requires IsCString(list) && at < |list| == |content| && sep == Find(list[at..], NL)
    requires at + sep < |list| ==> content[at..] == list[at..][sep := NUL]
    requires at + sep == |list| ==> content[at..] == list[at..]
    ensures CString(content[at..]) == list[at..][..sep]
  {
    var s := list[at..];
    assert forall i :: 0 <= i < |s| ==> s[i] in list;
    FindUnique(content[at..], NUL, sep);
  }

  /** Patching a byte leaves what comes after it. */
  lemma TailStays(content: bytes, list: bytes, at: nat, sep: nat)
    requires at + sep <= |list| == |content| && content[at..] == list[at..]
    ensures at + sep < |list| ==> content[at + sep := NUL][at + sep + 1..] == list[at + sep + 1..]
    ensures at + sep < |list| ==> content[at + sep := NUL][at..] == list[at..][sep := NUL]
  {
    assert forall i :: at <= i < |list| ==> content[i] == content[at..][i - at] == list[at..][i - at] == list[i];
  }

  lemma NamesNext(list: bytes, at: nat, sep: nat, next: nat, name: bytes)
    requires at < |list| && sep == Find(list[at..], NL) && name == Trimmed(list[at..][..sep])
    requires next == if at + sep < |list| then at + sep + 1 else |list|
    ensures PeerNames(list[at..]) == (if name == [] then [] else [name]) + PeerNames(list[next..])
  {
    var s := list[at..];
    assert list[next..] == if sep < |s| then s[sep + 1..] else [];
  }

  lemma PeersNext(e: Env, origin: Store, log: Log, name: bytes, rest: seq<bytes>, stores: map<bytes, Store>)
    ensures ReplayPeers(e, origin, log, [name] + rest, stores)
         == if name !in stores then (stores, EXITED)
            else if !InStep(e, origin, log, stores[name]) then (stores - {name}, OUT_OF_STEP)
            else ReplayPeers(e, origin, log, rest, stores[name := Replay(e, origin, log, stores[name])])
  {
    hide Replay, InStep;
    assert ([name] + rest)[1..] == rest;
  }

  lemma NoNames(e: Env, origin: Store, log: Log, stores: map<bytes, Store>)
    ensures PeerNames([]) == [] && ReplayPeers(e, origin, log, [], stores) == (stores, 0)
  {
  }

  lemma NothingReplayed(e: Env, origin: Store, s: Store)
    ensures Replay(e, origin, [], s) == s && InStep(e, origin, [], s)
  {
  }

  /** One more entry: the replay keeps in step if it did, and the peer reads what
      it is sent; once lost, step is not regained. */
  lemma StepNextEntry(e: Env, origin: Store, log: Log, i: nat, s: Store, entry: (u32, bytes))
    requires Nth(log, i, entry)
    ensures Replay(e, origin, log[..i + 1], s) == ReplayEntry(e, origin, Replay(e, origin, log[..i], s), entry)
    ensures InStep(e, origin, log[..i + 1], s)
       <==> InStep(e, origin, log[..i], s) && TakenBy(e, origin, Replay(e, origin, log[..i], s), entry)
    ensures InStep(e, origin, log, s) ==> InStep(e, origin, log[..i + 1], s)
  {
    hide ReplayEntry, TakenBy;
    assert log[..i + 1][..i] == log[..i];
    StepPrefix(e, origin, log, i + 1, s);
  }

  lemma {:induction false} StepPrefix(e: Env, origin: Store, log: Log, n: nat, s: Store)
    requires n <= |log|
    ensures InStep(e, origin, log, s) ==> InStep(e, origin, log[..n], s)
    decreases |log|
  {
    hide TakenBy, Replay;
    if n == |log| {
      assert log[..n] == log;
    } else {
      var init := log[..|log| - 1];
      assert init[..n] == log[..n];
      StepPrefix(e, origin, init, n, s);
    }
  }

  /** An entry is skipped or sent exactly as the replay says. */
  lemma EntrySent(e: Env, origin: Store, s: Store, entry: (u32, bytes))
    requires e.localDir == e.dir
    ensures Sent(entry) <==> (entry.0 == RM || entry.0 == PUT) && |UpdatePayload(entry.0, entry.1)| < MAXLINE
    ensures if Sent(entry) then
              ReplayEntry(e, origin, s, entry) == Exec(e, origin, Update(entry.0, entry.1), Effect(s, [], [])).store
            else ReplayEntry(e, origin, s, entry) == s
  {
    hide Exec, ReplayEntry;
    if Sent(entry) {
      UpdateDoes(e, origin, entry, Effect(s, [], []));
    } else {
      SkippedEntry(e, origin, s, entry);
    }
  }

  /** Each peer in turn can take the files it is sent. */
  ghost predicate PeersTake(e: Env, origin: Store, log: Log, peers: seq<bytes>, stores: map<bytes, Store>) {
    peers == [] || peers[0] !in stores ||
    (Takes(e, origin, log, stores[peers[0]])
     && PeersTake(e, origin, log, peers[1..], stores[peers[0] := Replay(e, origin, log, stores[peers[0]])]))
  }

  /** The walk reaches every peer; after it each has the origin's files, those
      named twice included, and no other slave has changed. */
  lemma {:induction false} PeersConverge(e: Env, s: Store, events: seq<Event>, peers: seq<bytes>, stores: map<bytes, Store>)
    requires e.localDir == e.dir && AllDown(events)
    requires SessionPossible(e, s, events) && Carried(e, s, LogOf(events))
    requires Sendable(e, AllHappen(e, s, events), LogOf(events))
    requires PeersTake(e, AllHappen(e, s, events), LogOf(events), peers, stores)
    requires forall p :: p in peers ==>
               p in stores && (stores[p].files == s.files || stores[p].files == AllHappen(e, s, events).files)
    ensures var (r, code) := ReplayPeers(e, AllHappen(e, s, events), LogOf(events), peers, stores);
            && code == 0 && r.Keys == stores.Keys
            && (forall p :: p in peers ==> r[p].files == AllHappen(e, s, events).files)
            && (forall p :: p in stores && p !in peers ==> r[p] == stores[p])
            && (forall p :: p in stores && stores[p].files == AllHappen(e, s, events).files ==>
                  r[p].files == AllHappen(e, s, events).files)
    decreases |peers|
  {
    hide AllHappen, Replay, Takes, SessionPossible, Carried, Sendable, InStep, LogOf, AllDown;
    if peers != [] {
      var first := peers[0];
      assert first in peers;
      Converges(e, s, events, stores[first]);
      var origin := AllHappen(e, s, events);
      var next := stores[first := Replay(e, origin, LogOf(events), stores[first])];
      assert forall p :: p in peers[1..] ==> p in peers;
      PeersConverge(e, s, events, peers[1..], next);
      assert forall p :: p in peers ==> p == first || p in peers[1..];
    }
  }

  // ------------------------------------------------------- the text of a list

  /** A peer list: every name on a line of its own, that ends with a newline or
      with a carriage return and a newline. */
  function ListText(names: seq<bytes>, crlf: seq<bool>): bytes
    requires |names| == |crlf|
  {
    if names == [] then [] else LineText(names[0], crlf[0]) + [NL] + ListText(names[1..], crlf[1..])
  }

  function LineText(name: bytes, crlf: bool): bytes {
    if crlf then name + [CR] else name
  }

  predicate IsName(n: bytes) {
    n != [] && NL !in n && n[|n| - 1] != CR
  }

  ghost predicate AreNames(names: seq<bytes>) {
    forall n :: n in names ==> IsName(n)
  }

  /** One line of the list gives the name on it, with either ending. */
  lemma LineNamed(name: bytes, crlf: bool, rest: bytes)
    requires IsName(name)
    ensures PeerNames(LineText(name, crlf) + [NL] + rest) == [name] + PeerNames(rest)
  {
    var line := LineText(name, crlf);
    assert NL !in line && Trimmed(line) == name && |line| > 0;
    hide LineText, Trimmed, IsName, Find;
    FindSeparator(line, NL, rest);
  }

  /** The names are read as they were written, whatever ends the lines; a last
      name needs no ending. */
  lemma {:induction false} NamesOfList(names: seq<bytes>, crlf: seq<bool>, last: bytes)
    requires |names| == |crlf| && AreNames(names) && (last == [] || IsName(last))
    ensures PeerNames(ListText(names, crlf) + last) == names + if last == [] then [] else [last]
  {
    hide PeerNames, LineText, IsName;
    if names == [] {
      assert [] + last == last;
      LastNamed(last);
    } else {
      var text := ListText(names[1..], crlf[1..]);
      var line := LineText(names[0], crlf[0]);
      NamesOfList(names[1..], crlf[1..], last);
      LineNamed(names[0], crlf[0], text + last);
      assert line + [NL] + text + last == line + [NL] + (text + last) by { Assoc(line + [NL], text, last); }
    }
  }

  lemma LastNamed(last: bytes)
    requires last == [] || IsName(last)
    ensures PeerNames(last) == if last == [] then [] else [last]
  {
    if last != [] {
      FindAbsent(last, NL);
      assert last[..|last|] == last;
    }
  }

  /** The walk over such a list, when every peer named can be reached and takes
      the files it is sent: it returns 0, every slave named has the origin's
      files after it, and the others are unchanged. */
  lemma ListConverges(e: Env, s: Store, events: seq<Event>, names: seq<bytes>, crlf: seq<bool>, stores: map<bytes, Store>)
    requires |names| == |crlf| && AreNames(names)
    requires e.localDir == e.dir && AllDown(events)
    requires SessionPossible(e, s, events) && Carried(e, s, LogOf(events))
    requires Sendable(e, AllHappen(e, s, events), LogOf(events))
    requires PeersTake(e, AllHappen(e, s, events), LogOf(events), names, stores)
    requires forall p :: p in names ==>
               p in stores && (stores[p].files == s.files || stores[p].files == AllHappen(e, s, events).files)
    ensures var (r, code) := ReplayPeers(e, AllHappen(e, s, events), LogOf(events), PeerNames(ListText(names, crlf)), stores);
            && code == 0 && r.Keys == stores.Keys
            && (forall p :: p in names ==> r[p].files == AllHappen(e, s, events).files)
            && (forall p :: p in stores && p !in names ==> r[p] == stores[p])
  {
    hide *;
    NamesOfList(names, crlf, []);
    assert ListText(names, crlf) + [] == ListText(names, crlf);
    assert names + [] == names;
    PeersConverge(e, s, events, names, stores);
  }
}
