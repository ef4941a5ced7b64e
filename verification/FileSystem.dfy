/**
 The files below a server's root directory, the creation of parent
 directories, and opening and removing files by path.

 A key is the list of components below the root. The root exists, nothing is
 denied by permissions, and there are no symbolic links.
 */
module FileSystem {
  import opened Bytes
  import opened Paths

  datatype Store = Store(files: map<Key, bytes>, dirs: set<Key>)

  /** The proper ancestors of a key below the root. */
  function Above(k: Key): set<Key> {
    set i | 0 < i < |k| :: k[..i]
  }

  function UpTo(k: Key): set<Key> {
    set i | 0 < i <= |k| :: k[..i]
  }

  /** Files and directories do not clash, and every ancestor is a directory. */
  ghost predicate WellFormed(s: Store) {
    && s.files.Keys !! s.dirs && [] !in s.files && [] !in s.dirs
    && (forall k :: k in s.files ==> Above(k) <= s.dirs)
    && (forall k :: k in s.dirs ==> Above(k) <= s.dirs)
  }

  /** No file where a directory is needed above `k`. */
  predicate Passable(s: Store, k: Key) {
    Above(k) !! s.files.Keys
  }

  /** A file can be opened for writing at `k`, its parents being created. */
  predicate CanOpen(s: Store, k: Key) {
    k != [] && k !in s.dirs && Passable(s, k)
  }

  function MkdirAll(s: Store, k: Key): Store {
    s.(dirs := s.dirs + (UpTo(k) - s.files.Keys))
  }

  /** After `open(O_CREAT | O_TRUNC)`. */
  function Opened(s: Store, k: Key): Store {
    Store(s.files[k := []], s.dirs + Above(k))
  }

  function Written(s: Store, k: Key, data: bytes): Store {
    Store(s.files[k := data], s.dirs + Above(k))
  }

  function Without(s: Store, k: Key): Store {
    s.(files := s.files - {k})
  }

  // -------------------------------------------------------- paths and keys

  /** Where an absolute path that never goes up leads. */
  function KeyOf(path: bytes): Key {
    WalkFrom([], Components(path))
  }

  lemma KeyOfPlain(path: bytes)
    requires AllPlain(Components(path))
    ensures KeyOf(path) == Components(path) && Downward(path)
  {
    hide Components;
    WalkPlainFrom([], Components(path));
    assert [] + Components(path) == Components(path);
    assert DOTDOT in Components(path) ==> Plain(DOTDOT);
  }

  lemma KeyOfSlash(a: bytes, b: bytes)
    requires Downward(b)
    ensures KeyOf(a + [SLASH] + b) == KeyOf(a) + KeyOf(b)
  {
    hide Components;
    ComponentsOfSlash(a, b);
    WalkAppend([], Components(a), Components(b));
    WalkDown(KeyOf(a), Components(b));
  }

  /** A stretch without slashes adds one component at most. */
  lemma KeyOfSegment(c: bytes)
    requires SLASH !in c && Downward(c)
    ensures |KeyOf(c)| <= 1
  {
    hide Components;
    ComponentAlone(c);
    WalkDown([], Components(c));
  }

  /** Key below the root of a path that leads to it or below it. */
  function Below(root: Key, k: Key): Key {
    if |k| <= |root| then [] else k[|root|..]
  }

  predicate OnTheWay(root: Key, k: Key) {
    k <= root || root <= k
  }

  /** Position of the last slash, or 0. */
  function LastSlash(s: bytes): (i: nat)
    ensures i <= |s|
  {
    if s == [] then 0 else if s[|s| - 1] == SLASH then |s| - 1 else LastSlash(s[..|s| - 1])
  }

  /** Everything above the last slash. */
  function ParentKey(path: bytes): Key {
    KeyOf(path[..LastSlash(path)])
  }

  /** From one slash to the next the key grows by one component at most. */
  lemma NextKey(path: bytes, q: nat, p: nat)
    requires q <= p <= |path| && (q == 0 || (q < |path| && path[q] == SLASH))
    requires forall i :: q < i < p ==> path[i] != SLASH
    requires Downward(path[..p])
    ensures KeyOf(path[..q]) <= KeyOf(path[..p]) && |KeyOf(path[..p])| <= |KeyOf(path[..q])| + 1
  {
    hide KeyOf, Downward;
    EmptyKey();
    if q < p {
      if path[q] == SLASH {
        assert path[..p] == path[..q] + [SLASH] + path[q + 1..p];
        DownwardParts(path[..q], path[q + 1..p]);
        KeyOfSlash(path[..q], path[q + 1..p]);
        KeyOfSegment(path[q + 1..p]);
      } else {
        assert path[..p] == [path[0]] + path[1..p];
        KeyOfSegment(path[..p]);
        assert path[..q] == [];
      }
    }
  }

  lemma EmptyKey()
    ensures KeyOf([]) == []
  {
  }

  /** The key at a slash is an ancestor of the whole path's key. */
  lemma KeyAtSlash(path: bytes, p: nat)
    requires p < |path| && path[p] == SLASH && Downward(path)
    ensures KeyOf(path[..p]) <= KeyOf(path) && Downward(path[..p])
  {
    hide KeyOf, Downward;
    assert path == path[..p] + [SLASH] + path[p + 1..];
    DownwardParts(path[..p], path[p + 1..]);
    KeyOfSlash(path[..p], path[p + 1..]);
  }

  lemma BelowGrows(root: Key, d: Key, e: Key)
    requires d <= e && |e| <= |d| + 1
    ensures Below(root, d) <= Below(root, e) && |Below(root, e)| <= |Below(root, d)| + 1
  {
  }

  lemma LastSlashIs(path: bytes, q: nat)
    requires q <= |path| && (q == 0 || (q < |path| && path[q] == SLASH))
    requires forall i :: q < i < |path| ==> path[i] != SLASH
    ensures LastSlash(path) == q
  {
    if path != [] && path[|path| - 1] != SLASH {
      LastSlashIs(path[..|path| - 1], q);
    }
  }

  // -------------------------------------------------------- ancestor algebra

  lemma AboveOfNext(d: Key, e: Key)
    requires d <= e && |e| == |d| + 1
    ensures Above(e) == UpTo(d) && UpTo(e) == UpTo(d) + {e}
  {
    forall x | x in Above(e) ensures x in UpTo(d) {
      var i :| 0 < i < |e| && x == e[..i];
      assert e[..i] == d[..i];
    }
    forall x | x in UpTo(d) ensures x in Above(e) {
      var i :| 0 < i <= |d| && x == d[..i];
      assert e[..i] == d[..i];
    }
    forall x | x in UpTo(e) ensures x in UpTo(d) + {e} {
      var i :| 0 < i <= |e| && x == e[..i];
      assert i == |e| ==> e[..i] == e;
      assert i < |e| ==> e[..i] == d[..i];
    }
    assert e[..|e|] == e;
  }

  lemma UpToIs(d: Key)
    ensures UpTo(d) == if d == [] then {} else Above(d) + {d}
  {
    assert d[..|d|] == d;
    forall x | x in UpTo(d) ensures d != [] && (x in Above(d) || x == d) {
      var i :| 0 < i <= |d| && x == d[..i];
      assert i == |d| ==> x == d;
    }
  }

  lemma AboveSmaller(d: Key, e: Key)
    requires d <= e
    ensures Above(d) <= Above(e) && (|d| < |e| && d != [] ==> d in Above(e))
  {
    forall x | x in Above(d) ensures x in Above(e) {
      var i :| 0 < i < |d| && x == d[..i];
      assert e[..i] == d[..i];
    }
    assert e[..|d|] == d;
  }

  /** What one `mkdir` of the loop finds, and what it leaves. */
  lemma MkdirNext(s0: Store, d: Key, e: Key)
    requires WellFormed(s0) && Passable(s0, d) && d <= e && |e| <= |d| + 1
    ensures var s := MkdirAll(s0, d);
            && (Passable(s, e) <==> Passable(s0, e))
            && (!Passable(s0, e) ==> s == s0)
            && (Passable(s0, e) ==> Above(e) <= s.dirs)
            && (Passable(s0, e) ==>
                  MkdirAll(s0, e) == if e == [] || e in s.files || e in s.dirs then s else s.(dirs := s.dirs + {e}))
  {
    UpToIs(d);
    UpToIs(e);
    if d != e {
      AboveOfNext(d, e);
      if d in s0.files {
        UnderFile(s0, d);
      }
    }
  }

  /** The same at the next slash of a path. */
  lemma AtSlash(s0: Store, root: Key, path: bytes, q: nat, p: nat)
    requires WellFormed(s0) && Downward(path) && root <= KeyOf(path) && p < |path| && path[p] == SLASH
    requires q <= p && (q == 0 || path[q] == SLASH) && forall i :: q < i < p ==> path[i] != SLASH
    requires Passable(s0, Below(root, KeyOf(path[..q])))
    ensures Downward(path[..p]) && OnTheWay(root, KeyOf(path[..p]))
    ensures var s := MkdirAll(s0, Below(root, KeyOf(path[..q])));
            var e := Below(root, KeyOf(path[..p]));
            && (Passable(s, e) <==> Passable(s0, e))
            && (!Passable(s0, e) ==> s == s0)
            && (Passable(s0, e) ==> Above(e) <= s.dirs)
            && (Passable(s0, e) ==>
                  MkdirAll(s0, e) == if e == [] || e in s.files || e in s.dirs then s else s.(dirs := s.dirs + {e}))
  {
    hide KeyOf, Downward, WellFormed, Passable, MkdirAll, Below;
    KeyAtSlash(path, p);
    NextKey(path, q, p);
    BelowGrows(root, KeyOf(path[..q]), KeyOf(path[..p]));
    MkdirNext(s0, Below(root, KeyOf(path[..q])), Below(root, KeyOf(path[..p])));
  }

  /** Where a file stands, nothing is left to create above it. */
  lemma UnderFile(s: Store, d: Key)
    requires WellFormed(s) && d in s.files
    ensures MkdirAll(s, d) == s
  {
    UpToIs(d);
  }

  lemma MkdirAllKeeps(s: Store, d: Key)
    requires WellFormed(s) && Passable(s, d)
    ensures WellFormed(MkdirAll(s, d))
  {
    var r := MkdirAll(s, d);
    UpToIs(d);
    forall k | k in r.dirs ensures Above(k) <= r.dirs {
      if k !in s.dirs {
        var i :| 0 < i <= |d| && k == d[..i];
        AboveSmaller(k, d);
      }
    }
    assert [] !in UpTo(d);
  }

  lemma GrownKeeps(s: Store, d: Key)
    requires WellFormed(s) && Passable(s, d)
    ensures WellFormed(MkdirAll(s, d)) && MkdirAll(s, d).files == s.files && s.dirs <= MkdirAll(s, d).dirs
  {
    MkdirAllKeeps(s, d);
  }

  lemma StartAtRoot(s: Store, path: bytes, root: Key)
    ensures Below(root, KeyOf(path[..0])) == [] && Passable(s, []) && MkdirAll(s, []) == s
  {
    EmptyKey();
    assert path[..0] == [];
  }

  /** A failure at one slash is a failure for the whole path. */
  lemma NotPassable(s: Store, root: Key, path: bytes, p: nat)
    requires p < |path| && path[p] == SLASH && !Passable(s, Below(root, KeyOf(path[..p]))) && Downward(path)
    ensures !Passable(s, Below(root, ParentKey(path)))
  {
    hide KeyOf, Downward;
    var last := LastSlash(path);
    SlashBeforeLast(path, p);
    if p < last {
      KeyAtSlash(path, last);
      KeyAtSlash(path[..last], p);
      assert path[..last][..p] == path[..p];
    }
    AboveSmaller(Below(root, KeyOf(path[..p])), Below(root, ParentKey(path)));
  }

  lemma SlashBeforeLast(path: bytes, p: nat)
    requires p < |path| && path[p] == SLASH
    ensures p <= LastSlash(path) < |path| && path[LastSlash(path)] == SLASH
  {
    if path[|path| - 1] != SLASH {
      SlashBeforeLast(path[..|path| - 1], p);
    }
  }

  /** The buffer cut at a patched slash. */
  lemma PatchedString(buf: bytes, path: bytes, p: nat)
    requires IsCString(path) && p < |path| <= |buf|
    requires buf[..p] == path[..p] && buf[p] == NUL
    ensures CString(buf) == path[..p]
  {
    assert forall i :: 0 <= i < p ==> buf[i] == buf[..p][i] == path[i];
    FindUnique(buf, NUL, p);
  }

  lemma EndOfString(buf: bytes, path: bytes, p: nat)
    requires IsCString(path) && p <= |path| < |buf| && buf[..|path|] == path && buf[p] == NUL
    ensures p == |path|
  {
    assert forall i :: 0 <= i < |path| ==> buf[i] == path[i];
  }

  // ------------------------------------------------ existing and new files

  /** The path says that what it names is a directory. */
  predicate SaysDirectory(path: bytes) {
    var cs := Components(path);
    cs == [] || path[|path| - 1] == SLASH || cs[|cs| - 1] == [DOT] || cs[|cs| - 1] == DOTDOT
  }

  /** Components that never lead above the directory `depth` levels up. */
  predicate Inside(depth: nat, cs: Key)
    decreases |cs|
  {
    cs == []
    || (if cs[0] == [DOT] then Inside(depth, cs[1..])
        else if cs[0] == DOTDOT then depth > 0 && Inside(depth - 1, cs[1..])
        else Inside(depth + 1, cs[1..]))
  }

  /** A path that never leads above the root. */
  predicate StaysInside(path: bytes) {
    Inside(0, Components(path))
  }

  /** Where components lead from a place below the root, as far as they go up
      only from directories. Whether what they lead to is there is for the
      caller to see; `LeadsExact` says that nothing else has to be. */
  function Leads(s: Store, at: Key, cs: Key): Option<Key>
    decreases |cs|
  {
    if cs == [] then Some(at)
    else if cs[0] == DOTDOT && (at == [] || at !in s.dirs) then None
    else Leads(s, Enter(at, cs[0]), cs[1..])
  }

  predicate IsDirectory(s: Store, k: Key) {
    k == [] || k in s.dirs
  }

  /** Looking up existing mode's name component by component, as the kernel
      does: every component is looked up in a directory. */
  ghost predicate WalkedInDirectories(s: Store, at: Key, cs: Key) {
    forall i :: 0 <= i < |cs| ==> IsDirectory(s, WalkFrom(at, cs[..i]))
  }

  lemma WalkedNext(s: Store, at: Key, cs: Key)
    requires cs != []
    ensures WalkedInDirectories(s, at, cs) <==> IsDirectory(s, at) && WalkedInDirectories(s, Enter(at, cs[0]), cs[1..])
  {
    hide IsDirectory, Enter;
    var rest := cs[1..];
    assert cs[..0] == [] && WalkFrom(at, []) == at;
    forall i | 0 <= i < |rest| ensures WalkFrom(Enter(at, cs[0]), rest[..i]) == WalkFrom(at, cs[..i + 1]) {
      assert cs[..i + 1][1..] == rest[..i];
    }
    if IsDirectory(s, at) && WalkedInDirectories(s, Enter(at, cs[0]), rest) {
      forall i | 0 <= i < |cs| ensures IsDirectory(s, WalkFrom(at, cs[..i])) {
        if i > 0 {
          assert IsDirectory(s, WalkFrom(Enter(at, cs[0]), rest[..i - 1]));
        }
      }
    }
    if WalkedInDirectories(s, at, cs) {
      assert IsDirectory(s, WalkFrom(at, cs[..0]));
      forall i | 0 <= i < |rest| ensures IsDirectory(s, WalkFrom(Enter(at, cs[0]), rest[..i])) {
        assert IsDirectory(s, WalkFrom(at, cs[..i + 1]));
      }
    }
  }

  /** A path from below the root leads to something that is there exactly when
      its walk leads there and every component of it is looked up in a
      directory; a file is not followed by ".". */
  lemma {:induction false} LeadsExact(s: Store, at: Key, cs: Key, k: Key)
    requires WellFormed(s) && Inside(|at|, cs) && (IsDirectory(s, k) || k in s.files)
    requires k in s.files ==> cs != [] && Plain(cs[|cs| - 1])
    ensures Leads(s, at, cs) == Some(k) <==> WalkFrom(at, cs) == k && WalkedInDirectories(s, at, cs)
    decreases |cs|
  {
    hide WellFormed, WalkedInDirectories;
    if cs == [] {
      NothingWalked(s, at);
    } else {
      WalkedNext(s, at, cs);
      var next := Enter(at, cs[0]);
      if Plain(cs[0]) {
        ParentThere(s, at, cs[0]);
      }
      if |cs| == 1 {
        assert cs[1..] == [] && WalkFrom(at, cs) == next;
        NothingWalked(s, next);
        NotBoth(s, k);
      } else {
        LeadsExact(s, next, cs[1..], k);
        WalkedFirst(s, next, cs[1..]);
      }
    }
  }

  lemma NothingWalked(s: Store, at: Key)
    ensures WalkedInDirectories(s, at, [])
  {
  }

  lemma WalkedFirst(s: Store, at: Key, cs: Key)
    requires cs != []
    ensures WalkedInDirectories(s, at, cs) ==> IsDirectory(s, at)
  {
    hide IsDirectory;
    assert cs[..0] == [] && WalkFrom(at, []) == at;
  }

  lemma ParentThere(s: Store, at: Key, c: bytes)
    requires WellFormed(s) && Plain(c)
    ensures at + [c] in s.files || at + [c] in s.dirs ==> IsDirectory(s, at)
  {
    var k := at + [c];
    if at != [] && (k in s.files || k in s.dirs) {
      assert k[..|at|] == at;
      assert at in Above(k);
    }
  }

  lemma NotBoth(s: Store, k: Key)
    requires WellFormed(s)
    ensures IsDirectory(s, k) ==> k !in s.files
  {
  }

  lemma {:induction false} LeadsDown(s: Store, at: Key, cs: Key)
    requires DOTDOT !in cs
    ensures Leads(s, at, cs) == Some(WalkFrom(at, cs))
    decreases |cs|
  {
    if cs != [] {
      assert cs[0] in cs;
      assert forall c :: c in cs[1..] ==> c in cs;
      LeadsDown(s, Enter(at, cs[0]), cs[1..]);
    }
  }

  lemma {:induction false} DownIsInside(depth: nat, cs: Key)
    requires DOTDOT !in cs
    ensures Inside(depth, cs)
    decreases |cs|
  {
    if cs != [] {
      assert cs[0] in cs;
      assert forall c :: c in cs[1..] ==> c in cs;
      DownIsInside(if cs[0] == [DOT] then depth else depth + 1, cs[1..]);
    }
  }

  /** Existing mode has a candidate for the path, and the path may name a file. */
  predicate Nameable(dir: bytes, path: bytes) {
    dir != [] && CandidateLength(dir, path) < MAXLINE && !SaysDirectory(path)
  }

  /** The file a path names in `require_existing` mode, if it is there. */
  function ReadKey(s: Store, dir: bytes, path: bytes): Option<Key> {
    if Nameable(dir, path) then Leads(s, [], Components(path)) else None
  }

  /** The empty path, ".", "..", and every path that ends in "/", "/." or "/.."
      name no file in that mode, whatever the store holds. */
  lemma NamesDirectory(s: Store, dir: bytes, path: bytes)
    ensures path == [] || path[|path| - 1] == SLASH ==> ReadKey(s, dir, path) == None
    ensures ReadKey(s, dir, path + [SLASH, DOT]) == ReadKey(s, dir, path + [SLASH, DOT, DOT]) == None
    ensures ReadKey(s, dir, [DOT]) == ReadKey(s, dir, [DOT, DOT]) == None
  {
    hide Leads;
    if path == [] {
      NoComponents();
    }
    hide Components;
    forall end: bytes | end == [DOT] || end == DOTDOT
      ensures SaysDirectory(end) && SaysDirectory(path + [SLASH] + end)
    {
      ComponentAlone(end);
      ComponentsOfSlash(path, end);
    }
    assert path + [SLASH] + [DOT] == path + [SLASH, DOT] && path + [SLASH] + DOTDOT == path + [SLASH, DOT, DOT];
  }

  /** The file a path that never goes up names in that mode: its text decides. */
  function PathKey(dir: bytes, path: bytes): Option<Key> {
    if Nameable(dir, path) && Downward(path) then Some(KeyOf(path)) else None
  }

  lemma DownwardReads(s: Store, dir: bytes, path: bytes)
    requires Downward(path)
    ensures ReadKey(s, dir, path) == PathKey(dir, path) && StaysInside(path)
  {
    LeadsDown(s, [], Components(path));
    DownIsInside(0, Components(path));
  }

  /** The file a path names in write mode. */
  function WriteKey(dir: bytes, rootPath: bytes, path: bytes): Option<Key> {
    if Accepts(dir, rootPath, path) then Some(Components(path)) else None
  }

  lemma AcceptedNameable(dir: bytes, rootPath: bytes, path: bytes)
    requires Accepts(dir, rootPath, path)
    ensures Nameable(dir, path) && AllPlain(Components(path))
  {
    var cs := Components(path);
    assert cs[|cs| - 1] in cs;
    hide Components;
  }

  /** Where write mode accepts a path, both modes name the same file. */
  lemma ModesAgree(s: Store, dir: bytes, rootPath: bytes, path: bytes)
    requires Accepts(dir, rootPath, path)
    ensures ReadKey(s, dir, path) == PathKey(dir, path) == WriteKey(dir, rootPath, path) == Some(Components(path))
    ensures Downward(path)
  {
    hide Accepts, Nameable, Components, AllPlain, KeyOf, Downward;
    AcceptedNameable(dir, rootPath, path);
    KeyOfPlain(path);
    DownwardReads(s, dir, path);
  }

  /** A canonical root directory: its path and its key. */
  predicate Canonical(root: Key) {
    root != [] && AllPlain(root) && forall c :: c in root ==> c != [] && SLASH !in c
  }

  /** Where the text of a canonical path below the root leads. */
  lemma CanonicalKey(root: Key, k: Key)
    requires Canonical(root) && AllPlain(k) && Proper(k)
    ensures KeyOf(Join(root + k)) == root + k && Below(root, KeyOf(Join(root + k))) == k
    ensures Downward(Join(root + k)) && InDir(Join(root + k), Join(root))
  {
    hide Components, Join, KeyOf, InDir, Downward;
    assert Proper(root + k) && AllPlain(root + k);
    ComponentsOfJoin(root + k);
    KeyOfPlain(Join(root + k));
    ContainmentExact(root + k, root);
  }

  /** The last slash of a joined path, and what comes before it. */
  lemma JoinedParent(init: Key, c: bytes)
    requires SLASH !in c
    ensures var abs := Join(init + [c]); LastSlash(abs) <= |abs| && abs[..LastSlash(abs)] == Join(init)
  {
    hide Join;
    JoinSnoc(init, c);
    var abs := Join(init + [c]);
    LastSlashIs(abs, |Join(init)|);
  }

  /** Where the parent of a canonical path below the root is. */
  lemma ParentOfJoined(root: Key, front: Key, c: bytes)
    requires Canonical(root) && AllPlain(front) && Proper(front) && SLASH !in c
    ensures ParentKey(Join(root + front + [c])) == root + front
    ensures Below(root, ParentKey(Join(root + front + [c]))) == front
  {
    hide Components, Join, KeyOf, Downward, InDir, Canonical, Proper, AllPlain;
    JoinedParent(root + front, c);
    CanonicalKey(root, front);
  }

  /** The resolver's output is the canonical path of the components. */
  lemma ResolvedIs(root: Key, path: bytes)
    requires Components(path) != []
    ensures var cs := Components(path);
            Resolved(Join(root), path) == Join(root + cs) == Join(root + cs[..|cs| - 1] + [cs[|cs| - 1]])
  {
    var cs := Components(path);
    hide Components, Join;
    JoinAppend(root, cs);
    assert root + cs == root + cs[..|cs| - 1] + [cs[|cs| - 1]];
  }

  /** Where the resolver's output leads, and where its parent is. */
  lemma ResolvedKey(root: Key, path: bytes)
    requires Canonical(root) && Components(path) != [] && AllPlain(Components(path))
    ensures var abs := Resolved(Join(root), path);
            var cs := Components(path);
            && Downward(abs)
            && KeyOf(abs) == root + cs && Below(root, KeyOf(abs)) == cs
            && Below(root, ParentKey(abs)) == cs[..|cs| - 1]
  {
    var cs := Components(path);
    assert Proper(cs);
    hide Components, Join, KeyOf, ParentKey, Below, Resolved, Downward, InDir, Canonical, Proper, AllPlain;
    ResolvedIs(root, path);
    FrontPlain(cs);
    CanonicalKey(root, cs);
    ParentOfJoined(root, cs[..|cs| - 1], cs[|cs| - 1]);
  }

  lemma FrontPlain(cs: Key)
    requires cs != [] && AllPlain(cs) && Proper(cs)
    ensures var front := cs[..|cs| - 1]; Proper(front) && AllPlain(front) && SLASH !in cs[|cs| - 1]
  {
    var front := cs[..|cs| - 1];
    assert forall c :: c in front ==> c in cs;
    assert cs[|cs| - 1] in cs;
  }

  lemma LastParent(s: Store, k: Key)
    requires k != [] && WellFormed(s)
    ensures var p := k[..|k| - 1];
            && (Passable(s, k) <==> Passable(s, p) && p !in s.files)
            && (Passable(s, k) ==> MkdirAll(s, p) == s.(dirs := s.dirs + Above(k)))
            && (Passable(s, p) ==> Passable(MkdirAll(s, p), k) == Passable(s, k)
                                   && (k in MkdirAll(s, p).dirs <==> k in s.dirs))
  {
    var p := k[..|k| - 1];
    AboveOfNext(p, k);
    UpToIs(p);
    assert k !in UpTo(p);
  }

  /** When the file cannot be opened, its parents were all there already. */
  lemma NothingMade(s: Store, k: Key)
    requires WellFormed(s) && k != [] && Passable(s, k[..|k| - 1]) && !CanOpen(s, k)
    ensures MkdirAll(s, k[..|k| - 1]) == s
  {
    var p := k[..|k| - 1];
    AboveOfNext(p, k);
    UpToIs(p);
    if p in s.files {
      UnderFile(s, p);
    }
  }

  lemma ResolvedCString(buf: bytes)
    ensures IsCString(CString(buf))
  {
  }

  lemma OpenedKeeps(s: Store, k: Key)
    requires WellFormed(s) && CanOpen(s, k)
    ensures WellFormed(Opened(s, k))
  {
    LastParent(s, k);
    MkdirAllKeeps(s, k[..|k| - 1]);
    NotAboveItself(s, k);
  }

  lemma WrittenKeeps(s: Store, k: Key, data: bytes)
    requires WellFormed(s) && CanOpen(s, k)
    ensures WellFormed(Written(s, k, data))
  {
    OpenedKeeps(s, k);
    assert Written(s, k, data).files.Keys == Opened(s, k).files.Keys;
  }

  lemma WithoutKeeps(s: Store, k: Key)
    requires WellFormed(s)
    ensures WellFormed(Without(s, k))
  {
  }

  lemma NotAboveItself(s: Store, k: Key)
    requires WellFormed(s) && CanOpen(s, k)
    ensures k !in s.dirs + Above(k) && (forall x :: x in s.dirs ==> k !in Above(x))
    ensures forall x :: x in s.files ==> x !in Above(k)
  {
    forall x | x in s.dirs ensures k !in Above(x) {
      assert Above(x) <= s.dirs;
    }
  }

  // ------------------------------------------------------------ system calls

  datatype Errno = Success | Exists | NotDir | NoEntry | IsDir

  class Disk {
    const root: Key
    var store: Store

    constructor (root: Key, store: Store)
      ensures this.root == root && this.store == store
    {
      this.root, this.store := root, store;
    }

    /** `mkdir(2)`. */
    method Mkdir(path: bytes) returns (e: Errno)
      requires Downward(path) && OnTheWay(root, KeyOf(path))
      modifies this
      ensures var k := Below(root, KeyOf(path));
              && (!Passable(old(store), k) ==> e == NotDir)
              && (Passable(old(store), k) && k != [] && !(Above(k) <= old(store).dirs) ==> e == NoEntry)
              && (Passable(old(store), k) && Above(k) <= old(store).dirs ==>
                    e == if k == [] || k in old(store).files || k in old(store).dirs then Exists else Success)
              && store == if e == Success then old(store).(dirs := old(store).dirs + {k}) else old(store)
    {
      var k := Below(root, KeyOf(path));
      if k == [] {
        e := Exists;
      } else if !Passable(store, k) {
        e := NotDir;
      } else if !(Above(k) <= store.dirs) {
        e := NoEntry;
      } else if k in store.files || k in store.dirs {
        e := Exists;
      } else {
        store := store.(dirs := store.dirs + {k});
        e := Success;
      }
    }

    /** The loop of `ensure_parent_dirs`: each slash is patched to end the
        string there, the directory is made, and the slash is put back. It
        succeeds exactly when the name fits and no file stands above the last
        directory; a file in the place of that directory itself goes
        unnoticed. */
    method EnsureParentDirs(path: bytes) returns (ok: bool)
      requires IsCString(path) && Downward(path) && root <= KeyOf(path) && WellFormed(store)
      modifies this
      ensures var parent := Below(root, ParentKey(path));
              && (ok <==> |path| < MAXLINE && Passable(old(store), parent))
              && store == if ok then MkdirAll(old(store), parent) else old(store)
      ensures WellFormed(store) && store.files == old(store).files && old(store).dirs <= store.dirs
    {
      hide KeyOf, Downward, WellFormed, Passable, MkdirAll, Below;
      if |path| >= MAXLINE {
        return false;
      }
      var tmp := new byte[MAXLINE];
      var n := Snprintf(tmp, 0, path);
      assert tmp[..|path|] == path;
      ghost var s0 := store;
      ghost var q: nat := 0;
      ghost var d: Key := [];
      StartAtRoot(s0, path, root);
      var p: nat := if tmp[0] == SLASH then 1 else 0;
      while tmp[p] != NUL
        invariant p <= |path| && tmp[..|path|] == path && tmp[|path|] == NUL
        invariant q <= p && (q == 0 || (q < |path| && path[q] == SLASH))
        invariant forall i :: q < i < p ==> path[i] != SLASH
        invariant d == Below(root, KeyOf(path[..q])) && Passable(s0, d)
        invariant store == MkdirAll(s0, d)
        invariant p == 0 ==> tmp[0] != SLASH
        decreases |path| - p
      {
        assert p < |path|;
        if tmp[p] == SLASH {
          ghost var e := Below(root, KeyOf(path[..p]));
          AtSlash(s0, root, path, q, p);
          tmp[p] := NUL;
          PatchedString(tmp[..], path, p);
          if tmp[0] != NUL {
            var errno := Mkdir(CString(tmp[..]));
            if errno != Success && errno != Exists {
              NotPassable(s0, root, path, p);
              GrownKeeps(s0, d);
              return false;
            }
          }
          tmp[p] := SLASH;
          q, d := p, e;
        }
        p := p + 1;
      }
      EndOfString(tmp[..], path, p);
      LastSlashIs(path, q);
      GrownKeeps(s0, d);
      return true;
    }

    /** `open(2)` with O_WRONLY, O_CREAT and O_TRUNC. */
    method Create(path: bytes) returns (ok: bool)
      requires Downward(path) && OnTheWay(root, KeyOf(path))
      modifies this
      ensures var k := Below(root, KeyOf(path));
              && ok == (CanOpen(old(store), k) && Above(k) <= old(store).dirs)
              && store == if ok then old(store).(files := old(store).files[k := []]) else old(store)
    {
      var k := Below(root, KeyOf(path));
      ok := CanOpen(store, k) && Above(k) <= store.dirs;
      if ok {
        store := store.(files := store.files[k := []]);
      }
    }

    /** The bytes written through a descriptor opened on `key`. */
    method Fill(key: Key, data: bytes)
      modifies this
      ensures store == old(store).(files := old(store).files[key := data])
    {
      store := store.(files := store.files[key := data]);
    }

    /** `open_file_w`: the file is created or emptied exactly when write mode
        accepts the path, no directory is in its place and no file stands
        above it; then every ancestor exists as a directory. */
    method OpenFileW(dir: bytes, path: bytes) returns (ok: bool, key: Key)
      requires Canonical(root) && IsCString(Join(root)) && |Join(root)| < MAXLINE
      requires IsCString(path) && WellFormed(store)
      modifies this
      ensures ok <==> WriteKey(dir, Join(root), path).Some? && CanOpen(old(store), WriteKey(dir, Join(root), path).value)
      ensures ok ==> key == Components(path) && store == Opened(old(store), key) && Above(key) <= store.dirs
      ensures WellFormed(store) && (!ok ==> store == old(store))
    {
      hide Components, Join, KeyOf, Downward, WellFormed, Above, Passable, MkdirAll, Below, LastSlash;
      ghost var s0 := store;
      key := Components(path);
      var absPath := new byte[MAXLINE];
      var resolved := GetAbsPath(path, absPath, dir, Join(root));
      if !resolved {
        return false, key;
      }
      var abs := CString(absPath[..]);
      ResolvedKey(root, path);
      ResolvedCString(absPath[..]);
      LastParent(s0, key);
      if Passable(s0, key[..|key| - 1]) && !CanOpen(s0, key) {
        NothingMade(s0, key);
      }
      var made := EnsureParentDirs(abs);
      if !made {
        return false, key;
      }
      if Below(root, KeyOf(abs)) in store.dirs {
        return false, key;
      }
      ok := Create(abs);
      if ok {
        OpenedKeeps(s0, key);
      }
    }

    /** `realpath(3)` of a candidate: what it names must exist, and be a
        directory if the path says so. */
    method Realpath(path: bytes) returns (r: Option<bytes>)
      requires StaysInside(path)
      ensures r == match Leads(store, [], Components(path))
                   case None => None
                   case Some(k) =>
                     if IsDirectory(store, k) || (k in store.files && !SaysDirectory(path)) then Some(Join(root + k))
                     else None
    {
      var cs := Components(path);
      var at: Key := [];
      var i := 0;
      assert cs[0..] == cs;
      while i < |cs|
        invariant i <= |cs| && Leads(store, [], cs) == Leads(store, at, cs[i..])
      {
        if cs[i] == DOTDOT && (at == [] || at !in store.dirs) {
          return None;
        }
        at := Enter(at, cs[i]);
        i := i + 1;
      }
      assert cs[i..] == [];
      if IsDirectory(store, at) || (at in store.files && !SaysDirectory(path)) {
        return Some(Join(root + at));
      }
      return None;
    }

    /** `unlink(2)`. */
    method Unlink(path: bytes) returns (e: Errno)
      requires Downward(path) && OnTheWay(root, KeyOf(path))
      modifies this
      ensures var k := Below(root, KeyOf(path));
              && (e == Success <==> k in old(store).files && k != [] && k !in old(store).dirs)
              && (e == IsDir <==> k == [] || k in old(store).dirs)
              && (e == NoEntry <==>
                    k != [] && k !in old(store).files && k !in old(store).dirs && Passable(old(store), k))
              && store == if e == Success then Without(old(store), k) else old(store)
    {
      var k := Below(root, KeyOf(path));
      if k == [] || k in store.dirs {
        e := IsDir;
      } else if k in store.files {
        store := Without(store, k);
        e := Success;
      } else if !Passable(store, k) {
        e := NotDir;
      } else {
        e := NoEntry;
      }
    }

    /** `get_abs_path_from_src_path` with `require_existing` 1: `realpath` of
        the candidate, and the containment test. */
    method GetExistingPath(dir: bytes, path: bytes) returns (r: Option<bytes>)
      requires Canonical(root) && StaysInside(path)
      ensures r.Some? <==>
                && dir != [] && CandidateLength(dir, path) < MAXLINE && Leads(store, [], Components(path)).Some?
                && var k := Leads(store, [], Components(path)).value;
                   IsDirectory(store, k) || (k in store.files && !SaysDirectory(path))
      ensures r.Some? ==> r == Some(Join(root + Leads(store, [], Components(path)).value))
    {
      hide Components, Join, Leads, InDir, SaysDirectory, IsDirectory;
      if dir == [] || CandidateLength(dir, path) >= MAXLINE {
        return None;
      }
      r := Realpath(path);
      if r.None? {
        return None;
      }
      LeadsPlain(store, [], Components(path));
      CanonicalKey(root, Leads(store, [], Components(path)).value);
      if !InDir(r.value, Join(root)) {
        return None;
      }
    }

    /** `remove_file`: 0 when it has removed a file, 1 when `unlink` finds no
        such file, and 2 otherwise. But `unlink` is called only on a path that
        `realpath` has found to exist, so 1 is never returned: a missing file
        gives 2, as a directory does. */
    method RemoveFile(dir: bytes, path: bytes) returns (r: int)
      requires Canonical(root) && WellFormed(store) && StaysInside(path)
      modifies this
      ensures var k := ReadKey(old(store), dir, path);
              && r == (if k.Some? && k.value in old(store).files then 0 else 2)
              && store == if r == 0 then Without(old(store), k.value) else old(store)
      ensures WellFormed(store)
    {
      hide Components, Join, Leads, KeyOf, Downward, Above, CandidateLength, SaysDirectory;
      var fullPath := GetExistingPath(dir, path);
      if fullPath.None? {
        return 2;
      }
      ghost var k := Leads(store, [], Components(path)).value;
      LeadsPlain(store, [], Components(path));
      CanonicalKey(root, k);
      NotBoth(store, k);
      var e := Unlink(fullPath.value);
      return if e == Success then 0 else if e == NoEntry then 1 else 2;
    }
  }

  lemma {:induction false} LeadsPlain(s: Store, at: Key, cs: Key)
    requires AllPlain(at) && Proper(at) && Proper(cs)
    ensures Leads(s, at, cs).Some? ==>
              AllPlain(Leads(s, at, cs).value) && Proper(Leads(s, at, cs).value)
    decreases |cs|
  {
    if cs != [] && Leads(s, at, cs).Some? {
      assert cs[0] in cs;
      assert forall c :: c in cs[1..] ==> c in cs;
      LeadsPlain(s, Enter(at, cs[0]), cs[1..]);
    }
  }
}
