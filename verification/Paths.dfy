/**
 Path resolution in write mode, containment, and the creation of parent
 directories before a file is opened for writing.

 A path is a C string; its components are what lies between slashes. The root
 given to the resolver is already canonical, and there are no symbolic links.
 */
module Paths {
  import opened Bytes

  type Key = seq<bytes>

  const DOTDOT: bytes := [DOT, DOT]

  /** The non-empty components of a path. */
  function Components(s: bytes): (cs: Key)
    ensures forall c :: c in cs ==> c != [] && SLASH !in c && (IsCString(s) ==> IsCString(c))
    decreases |s|
  {
    if s == [] then []
    else
      var i := Find(s, SLASH);
      assert forall c :: c in s[..i] ==> c in s;
      var rest := if i < |s| then Components(s[i + 1..]) else [];
      (if i == 0 then [] else [s[..i]]) + rest
  }

  /** A slash before each component: the normal form. */
  function Join(cs: Key): bytes {
    if cs == [] then [] else [SLASH] + cs[0] + Join(cs[1..])
  }

  ghost predicate Proper(cs: Key) {
    forall c :: c in cs ==> c != [] && SLASH !in c
  }

  predicate Plain(c: bytes) {
    c != [DOT] && c != DOTDOT
  }

  predicate AllPlain(cs: Key) {
    forall c :: c in cs ==> Plain(c)
  }

  function SkipSlashes(s: bytes): (t: bytes)
    ensures t == [] || t[0] != SLASH
  {
    if s != [] && s[0] == SLASH then SkipSlashes(s[1..]) else s
  }

  /** Length of the candidate of `build_candidate_path`. */
  function CandidateLength(dir: bytes, path: bytes): nat
    requires dir != []
  {
    if path != [] && path[0] == SLASH then |dir| + |SkipSlashes(path)|
    else |dir| + (if dir[|dir| - 1] == SLASH then 0 else 1) + |path|
  }

  /** The paths write mode accepts, under the directory name `dir` whose
      canonical path is `root`: at least one component, no trailing slash, no
      "." and no "..", and everything fits. */
  predicate Accepts(dir: bytes, root: bytes, path: bytes) {
    && dir != [] && CandidateLength(dir, path) < MAXLINE
    && Components(path) != [] && path[|path| - 1] != SLASH
    && AllPlain(Components(path))
    && |root| + |Join(Components(path))| < MAXLINE
  }

  function Resolved(root: bytes, path: bytes): bytes {
    root + Join(Components(path))
  }

  // --------------------------------------------------------- the kernel's walk

  /** The path never goes up. */
  predicate Downward(path: bytes) {
    DOTDOT !in Components(path)
  }

  /** One component walked from a directory, there being no symbolic links. */
  function Enter(at: Key, c: bytes): Key {
    if c == [DOT] then at
    else if c == DOTDOT then (if at == [] then [] else at[..|at| - 1])
    else at + [c]
  }

  function WalkFrom(at: Key, cs: Key): Key
    decreases |cs|
  {
    if cs == [] then at else WalkFrom(Enter(at, cs[0]), cs[1..])
  }

  lemma {:induction false} WalkPlainFrom(at: Key, cs: Key)
    requires AllPlain(cs)
    ensures WalkFrom(at, cs) == at + cs
    decreases |cs|
  {
    if cs != [] {
      assert Plain(cs[0]) by { assert cs[0] in cs; }
      assert forall c :: c in cs[1..] ==> c in cs;
      WalkPlainFrom(at + [cs[0]], cs[1..]);
      assert at + [cs[0]] + cs[1..] == at + cs;
    }
  }

  lemma {:induction false} WalkAppend(at: Key, a: Key, b: Key)
    ensures WalkFrom(at, a + b) == WalkFrom(WalkFrom(at, a), b)
    decreases |a|
  {
    if a == [] {
      assert a + b == b;
    } else {
      assert (a + b)[1..] == a[1..] + b;
      WalkAppend(Enter(at, a[0]), a[1..], b);
    }
  }

  /** A walk that never goes up stays below where it starts, and does not
      depend on it. */
  lemma {:induction false} WalkDown(at: Key, cs: Key)
    requires DOTDOT !in cs
    ensures WalkFrom(at, cs) == at + WalkFrom([], cs) && |WalkFrom([], cs)| <= |cs|
    decreases |cs|
  {
    if cs == [] {
      assert at + [] == at;
    } else {
      var first := Enter([], cs[0]);
      DownStep(at, cs);
      hide Enter;
      WalkDown(at + first, cs[1..]);
      WalkDown(first, cs[1..]);
      assert at + (first + WalkFrom([], cs[1..])) == at + first + WalkFrom([], cs[1..]);
    }
  }

  lemma DownStep(at: Key, cs: Key)
    requires cs != [] && DOTDOT !in cs
    ensures DOTDOT !in cs[1..] && Enter(at, cs[0]) == at + Enter([], cs[0]) && |Enter([], cs[0])| <= 1
  {
    assert cs[0] in cs && [] + [cs[0]] == [cs[0]] && at + [] == at;
  }

  /** A walk leaves no "." and no "..". */
  lemma {:induction false} WalkedPlain(at: Key, cs: Key)
    requires AllPlain(at) && Proper(at) && Proper(cs)
    ensures AllPlain(WalkFrom(at, cs)) && Proper(WalkFrom(at, cs))
    decreases |cs|
  {
    if cs != [] {
      assert cs[0] in cs;
      assert forall c :: c in cs[1..] ==> c in cs;
      WalkedPlain(Enter(at, cs[0]), cs[1..]);
    }
  }

  // -------------------------------------------------------- component algebra

  lemma ComponentsCons(c: bytes, rest: bytes)
    requires SLASH !in c
    ensures Components(c + [SLASH] + rest) == (if c == [] then [] else [c]) + Components(rest)
  {
    FindSeparator(c, SLASH, rest);
  }

  lemma ComponentAlone(c: bytes)
    requires SLASH !in c
    ensures Components(c) == if c == [] then [] else [c]
  {
    FindAbsent(c, SLASH);
    assert c[..|c|] == c;
  }

  /** What comes before a slash of a path that never goes up does not either. */
  lemma DownwardParts(a: bytes, b: bytes)
    ensures Downward(a + [SLASH] + b) <==> Downward(a) && Downward(b)
  {
    hide Components;
    ComponentsOfSlash(a, b);
  }

  lemma SplitAtSlash(a: bytes) returns (c: bytes, rest: bytes)
    requires SLASH in a
    ensures SLASH !in c && a == c + [SLASH] + rest
  {
    var i := Find(a, SLASH);
    c, rest := a[..i], a[i + 1..];
  }

  /** A slash separates: the components of the two sides follow each other. */
  lemma {:induction false} ComponentsOfSlash(a: bytes, b: bytes)
    ensures Components(a + [SLASH] + b) == Components(a) + Components(b)
    decreases |a|
  {
    hide Components;
    if SLASH in a {
      var c, rest := SplitAtSlash(a);
      assert a + [SLASH] + b == c + [SLASH] + (rest + [SLASH] + b);
      ComponentsCons(c, rest + [SLASH] + b);
      ComponentsCons(c, rest);
      ComponentsOfSlash(rest, b);
    } else {
      ComponentsCons(a, b);
      ComponentAlone(a);
    }
  }

  /** Repeated slashes, leading and inside, do not matter. */
  lemma SlashesDoNotMatter(a: bytes, b: bytes)
    ensures Components(a + [SLASH, SLASH] + b) == Components(a + [SLASH] + b)
    ensures Components([SLASH] + b) == Components(b)
  {
    assert a + [SLASH, SLASH] + b == a + [SLASH] + ([SLASH] + b);
    assert [] + [SLASH] + b == [SLASH] + b;
    ComponentsOfSlash([], b);
    ComponentsOfSlash(a, [SLASH] + b);
    ComponentsOfSlash(a, b);
  }

  lemma {:induction false} SkipKeepsComponents(s: bytes)
    ensures Components(SkipSlashes(s)) == Components(s)
    decreases |s|
  {
    if s != [] && s[0] == SLASH {
      SkipKeepsComponents(s[1..]);
      SlashesDoNotMatter([], s[1..]);
      assert s == [SLASH] + s[1..];
    }
  }

  lemma ProperTail(cs: Key)
    requires Proper(cs) && cs != []
    ensures Proper(cs[1..]) && cs[0] != [] && SLASH !in cs[0]
  {
    assert cs[0] in cs;
    assert forall c :: c in cs[1..] ==> c in cs;
  }

  /** The normal form is read back as its own components. */
  lemma {:induction false} ComponentsOfJoin(cs: Key)
    requires Proper(cs)
    ensures Components(Join(cs)) == cs
    decreases |cs|
  {
    hide Components;
    if cs == [] {
      NoComponents();
    } else {
      ProperTail(cs);
      ComponentsOfJoin(cs[1..]);
      ComponentsOfHead(cs[0], Join(cs[1..]));
      assert cs == [cs[0]] + cs[1..];
      assert Join(cs) == [SLASH] + (cs[0] + Join(cs[1..]));
    }
  }

  lemma ComponentsOfHead(c: bytes, rest: bytes)
    requires c != [] && SLASH !in c && (rest == [] || rest[0] == SLASH)
    ensures Components([SLASH] + (c + rest)) == [c] + Components(rest)
  {
    hide Components;
    SlashesDoNotMatter([], c + rest);
    if rest == [] {
      assert c + rest == c;
      ComponentAlone(c);
      NoComponents();
    } else {
      var tail := rest[1..];
      assert rest == [SLASH] + tail && c + rest == c + [SLASH] + tail;
      SlashesDoNotMatter([], tail);
      ComponentsCons(c, tail);
    }
  }

  lemma {:induction false} JoinSnoc(cs: Key, c: bytes)
    ensures Join(cs + [c]) == Join(cs) + [SLASH] + c
    decreases |cs|
  {
    if cs == [] {
      assert (cs + [c])[1..] == [];
    } else {
      assert (cs + [c])[1..] == cs[1..] + [c];
      JoinSnoc(cs[1..], c);
    }
  }

  lemma {:induction false} JoinAppend(a: Key, b: Key)
    ensures Join(a + b) == Join(a) + Join(b)
    decreases |a|
  {
    if a == [] {
      assert a + b == b;
    } else {
      assert (a + b)[1..] == a[1..] + b;
      JoinAppend(a[1..], b);
    }
  }

  lemma {:induction false} JoinLast(cs: Key)
    requires Proper(cs) && cs != []
    ensures Join(cs) != [] && Join(cs)[|Join(cs)| - 1] != SLASH && Join(cs)[0] == SLASH
  {
    var init, c := cs[..|cs| - 1], cs[|cs| - 1];
    assert cs == init + [c];
    assert c in cs;
    JoinSnoc(init, c);
  }

  /** Resolution does not see repeated slashes, and resolving the normal form
      of an accepted path accepts it again with the same result. */
  lemma ResolutionNormal(dir: bytes, root: bytes, path: bytes)
    requires Accepts(dir, root, path)
    ensures var normal := Join(Components(path));
            Components(normal) == Components(path) && Resolved(root, normal) == Resolved(root, path)
            && (|dir| <= |root| ==> Accepts(dir, root, normal))
  {
    var cs := Components(path);
    var normal := Join(cs);
    ComponentsOfJoin(cs);
    JoinLast(cs);
    assert |SkipSlashes(normal)| <= |normal| by { SkipShorter(normal); }
  }

  lemma {:induction false} SkipShorter(s: bytes)
    ensures |SkipSlashes(s)| <= |s|
  {
    if s != [] && s[0] == SLASH {
      SkipShorter(s[1..]);
    }
  }

  // -------------------------------------------------------------- containment

  /** `is_path_in_dirpath` on a canonical directory path: `strncmp` over its
      length, then a separator or the end. */
  predicate InDir(abs: bytes, root: bytes) {
    root <= abs && (|abs| == |root| || abs[|root|] == SLASH)
  }

  lemma UnderRoot(cs: Key, rs: Key)
    requires Proper(cs) && rs <= cs
    ensures InDir(Join(cs), Join(rs))
  {
    var rest := cs[|rs|..];
    assert cs == rs + rest;
    JoinAppend(rs, rest);
  }

  /** For canonical paths and a canonical root other than "/", the string test
      is the prefix relation on components. */
  lemma ContainmentExact(cs: Key, rs: Key)
    requires Proper(cs) && Proper(rs) && rs != []
    ensures InDir(Join(cs), Join(rs)) <==> rs <= cs
  {
    hide Components, Join, InDir;
    if rs <= cs {
      UnderRoot(cs, rs);
    }
    if InDir(Join(cs), Join(rs)) {
      InsideRoot(cs, rs);
    }
  }

  lemma InsideRoot(cs: Key, rs: Key)
    requires Proper(cs) && Proper(rs) && InDir(Join(cs), Join(rs))
    ensures rs <= cs
  {
    hide Components, Join;
    var tail := Join(cs)[|Join(rs)|..];
    assert Join(cs) == Join(rs) + tail;
    ComponentsOfJoin(cs);
    ComponentsOfJoin(rs);
    if tail == [] {
      assert Join(cs) == Join(rs);
    } else {
      assert tail == [SLASH] + tail[1..];
      assert Join(cs) == Join(rs) + [SLASH] + tail[1..];
      ComponentsOfSlash(Join(rs), tail[1..]);
    }
  }

  /** For the root "/" the test fails on every canonical path below it. */
  lemma RootExcluded(cs: Key)
    requires Proper(cs) && cs != []
    ensures !InDir(Join(cs), [SLASH])
  {
    assert cs[0] in cs;
    assert Join(cs)[1] == cs[0][0];
  }

  /** Everything write mode produces passes the containment test. */
  lemma ResolvedInside(root: Key, path: bytes)
    requires Proper(root) && root != []
    ensures InDir(Resolved(Join(root), path), Join(root))
  {
    JoinAppend(root, Components(path));
    ContainmentExact(root + Components(path), root);
  }

  // ------------------------------------------------------------- the resolver

  /** `snprintf(buf + at, size - at, ...)` for a text already formatted. */
  method Snprintf(buf: array<byte>, at: nat, text: bytes) returns (n: nat)
    requires at < buf.Length
    modifies buf
    ensures n == |text|
    ensures buf[..at] == old(buf[..at])
    ensures n < buf.Length - at ==> buf[at..at + n] == text && buf[at + n] == NUL
  {
    n := |text|;
    var k := Min(n, buf.Length - at - 1);
    forall i | 0 <= i < k {
      buf[at + i] := text[i];
    }
    buf[at + k] := NUL;
  }

  lemma NoComponents()
    ensures Components([]) == [] && Join([]) == [] && AllPlain([])
  {
  }

  lemma {:induction false} SkipLast(s: bytes)
    ensures var t := SkipSlashes(s);
            (t != [] ==> s != [] && t[|t| - 1] == s[|s| - 1]) && (IsCString(s) ==> IsCString(t))
  {
    if s != [] && s[0] == SLASH {
      SkipLast(s[1..]);
      assert forall c :: c in s[1..] ==> c in s;
    }
  }

  /** A path that does not end in a slash has a component. */
  lemma {:induction false} FoundLast(s: bytes)
    requires s != [] && s[|s| - 1] != SLASH
    ensures Components(s) != []
    decreases |s|
  {
    hide Components;
    if SLASH in s {
      var c, rest := SplitAtSlash(s);
      assert s[|c|] == SLASH;
      assert rest != [] ==> rest[|rest| - 1] == s[|s| - 1];
      FoundLast(rest);
      ComponentsCons(c, rest);
    } else {
      ComponentAlone(s);
    }
  }

  /** One round of the cursor loop. */
  lemma CursorStep(rel: bytes, cursor: nat, sep: nat, rest: nat)
    requires cursor < |rel| && sep == Find(rel[cursor..], SLASH)
    requires rest == if cursor + sep < |rel| then cursor + sep + 1 else |rel|
    ensures var c := rel[cursor..cursor + sep];
            SLASH !in c
            && Components(rel[cursor..]) == (if sep == 0 then [] else [c]) + Components(rel[rest..])
  {
    hide Components;
    var s := rel[cursor..];
    var c := rel[cursor..cursor + sep];
    assert c == s[..sep];
    NoComponents();
    if cursor + sep < |rel| {
      assert s == c + [SLASH] + rel[rest..];
      ComponentsCons(c, rel[rest..]);
    } else {
      assert s == c;
      ComponentAlone(c);
    }
  }

  lemma TooLong(root: bytes, all: Key, front: Key, back: Key)
    requires all == front + back && |root| + |Join(front)| >= MAXLINE
    ensures |root| + |Join(all)| >= MAXLINE
  {
    JoinAppend(front, back);
  }

  lemma {:induction false} JoinIsCString(cs: Key)
    requires forall c :: c in cs ==> IsCString(c)
    ensures IsCString(Join(cs))
  {
    if cs != [] {
      assert cs[0] in cs;
      assert forall c :: c in cs[1..] ==> c in cs;
      JoinIsCString(cs[1..]);
    }
  }

  /** What write mode has appended after the components before the cursor. */
  ghost predicate Built(serverPath: bytes, len: nat, root: bytes, done: Key) {
    len < |serverPath| && serverPath[..len] == root + Join(done) && serverPath[len] == NUL
  }

  lemma BuiltRoot(buf: bytes, root: bytes)
    requires |root| < |buf| && buf[..|root|] == root && buf[|root|] == NUL
    ensures Built(buf, |root|, root, [])
  {
  }

  lemma BuiltFits(buf: bytes, len: nat, root: bytes, done: Key)
    requires Built(buf, len, root, done)
    ensures |root| + |Join(done)| < |buf|
  {
  }

  lemma BuiltString(buf: bytes, len: nat, root: bytes, done: Key)
    requires Built(buf, len, root, done) && IsCString(root) && forall c :: c in done ==> IsCString(c)
    ensures CString(buf) == root + Join(done)
  {
    JoinIsCString(done);
    var text := root + Join(done);
    assert buf == text + [NUL] + buf[len + 1..];
    FindSeparator(text, NUL, buf[len + 1..]);
  }

  /** Appending one formatted component to the buffer. */
  lemma BuiltMore(before: bytes, after: bytes, len: nat, root: bytes, done: Key, c: bytes)
    requires Built(before, len, root, done) && |after| == |before|
    requires after[..len] == before[..len]
    requires var n := 1 + |c|; len + n < |after| && after[len..len + n] == [SLASH] + c && after[len + n] == NUL
    ensures Built(after, len + 1 + |c|, root, done + [c])
  {
    JoinSnoc(done, c);
    assert after[..len + 1 + |c|] == after[..len] + after[len..len + 1 + |c|];
  }

  /** Appends "/" and a component, and tells whether they fitted. */
  method AppendComponent(buf: array<byte>, len: nat, c: bytes, ghost root: bytes, ghost done: Key)
    returns (fits: bool)
    requires len < buf.Length == MAXLINE && Built(buf[..], len, root, done)
    modifies buf
    ensures fits <==> |root| + |Join(done + [c])| < MAXLINE
    ensures fits ==> len + 1 + |c| < MAXLINE && Built(buf[..], len + 1 + |c|, root, done + [c])
  {
    hide Join;
    JoinSnoc(done, c);
    assert |root + Join(done)| == len;
    ghost var before := buf[..];
    var n := Snprintf(buf, len, [SLASH] + c);
    fits := n < MAXLINE - len;
    if fits {
      BuiltMore(before, buf[..], len, root, done, c);
    }
  }

  /** `get_abs_path_from_src_path` with `require_existing` 0; `root` is what
      `realpath` gives for the directory. */
  method GetAbsPath(path: bytes, serverPath: array<byte>, dir: bytes, root: bytes) returns (ok: bool)
    requires IsCString(path) && IsCString(root) && |root| < MAXLINE && serverPath.Length == MAXLINE
    modifies serverPath
    ensures ok <==> Accepts(dir, root, path)
    ensures ok ==> CString(serverPath[..]) == Resolved(root, path)
  {
    hide Components, Join, Built;
    if dir == [] || CandidateLength(dir, path) >= MAXLINE {
      return false;
    }
    var relPath := if path != [] && path[0] == SLASH then SkipSlashes(path) else path;
    SkipKeepsComponents(path);
    if relPath == [] {
      NoComponents();
      return false;
    }
    SkipLast(path);
    if relPath[|relPath| - 1] == SLASH {
      return false;
    }
    var n := Snprintf(serverPath, 0, root);
    var cursor: nat := 0;
    var len: nat := |root|;
    ghost var all := Components(path);
    ghost var done: Key := [];
    NoComponents();
    assert relPath[0..] == relPath && serverPath[0..|root|] == root;
    assert Built(serverPath[..], len, root, done) by { BuiltRoot(serverPath[..], root); }
    while cursor < |relPath|
      invariant cursor <= |relPath|
      invariant all == done + Components(relPath[cursor..])
      invariant AllPlain(done)
      invariant len < MAXLINE && Built(serverPath[..], len, root, done)
    {
      var sep := Find(relPath[cursor..], SLASH);
      var rest := if cursor + sep < |relPath| then cursor + sep + 1 else |relPath|;
      var component := relPath[cursor..cursor + sep];
      CursorStep(relPath, cursor, sep, rest);
      if sep == 0 {
        cursor := rest;
        continue;
      }
      assert all == done + [component] + Components(relPath[rest..]);
      if !Plain(component) {
        assert !AllPlain(all) by { assert all[|done|] == component; }
        return false;
      }
      var fits := AppendComponent(serverPath, len, component, root, done);
      done := done + [component];
      if !fits {
        TooLong(root, all, done, Components(relPath[rest..]));
        return false;
      }
      len := len + 1 + |component|;
      cursor := rest;
    }
    assert relPath[cursor..] == [];
    NoComponents();
    assert all == done;
    FoundLast(relPath);
    assert forall c :: c in all ==> IsCString(c);
    BuiltString(serverPath[..], len, root, done);
    BuiltFits(serverPath[..], len, root, done);
    return true;
  }
}
