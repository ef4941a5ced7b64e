/**
 The local names of a download, and the scan for interrupted downloads at
 start-up: a single pass over the entries of "./clientdir/".
 */
module Names {
  import opened Bytes
  import opened Paths

  /** "./clientdir/" */
  const CLIENT_DIR: bytes := [46, 47, 99, 108, 105, 101, 110, 116, 100, 105, 114, 47]
  /** ".part" */
  const PART_SUFFIX: bytes := [46, 112, 97, 114, 116]
  /** ".meta" */
  const META_END: bytes := [46, 109, 101, 116, 97]
  const META_SUFFIX: bytes := PART_SUFFIX + META_END
  /** ".tmp" */
  const TMP_SUFFIX: bytes := [46, 116, 109, 112]
  const TILDE: byte := 126

  /** Room for the client directory and for the suffix `.part.meta.tmp`. */
  const NAME_ROOM: nat := |CLIENT_DIR| + |META_SUFFIX| + |TMP_SUFFIX|

  /** `build_client_dest_path`: the final local path. */
  function FinalPath(remote: bytes): bytes {
    if remote != [] && (remote[0] == SLASH || remote[0] == TILDE) then remote else CLIENT_DIR + remote
  }

  function PartPath(remote: bytes): bytes {
    FinalPath(remote) + PART_SUFFIX
  }

  function MetaPath(remote: bytes): bytes {
    FinalPath(remote) + META_SUFFIX
  }

  function TmpPath(remote: bytes): bytes {
    MetaPath(remote) + TMP_SUFFIX
  }

  /** `has_suffix`. */
  predicate HasSuffix(value: bytes, suffix: bytes) {
    |suffix| <= |value| && value[|value| - |suffix|..] == suffix
  }

  /** A path the command line can give, whose derived names fit the buffers. */
  ghost predicate WellNamed(path: bytes) {
    IsCString(path) && path != [] && NL !in path && path[|path| - 1] != CR && |path| + NAME_ROOM < MAXLINE
  }

  /** The four files of a download are different, their names fit the buffers,
      and of the three partial ones the meta file alone carries the suffix the
      scan looks for. */
  lemma NamesApart(remote: bytes)
    requires WellNamed(remote)
    ensures |TmpPath(remote)| < MAXLINE
    ensures var names := [FinalPath(remote), PartPath(remote), MetaPath(remote), TmpPath(remote)];
            forall i, j :: 0 <= i < j < 4 ==> names[i] != names[j]
    ensures HasSuffix(MetaPath(remote), META_SUFFIX)
    ensures !HasSuffix(PartPath(remote), META_SUFFIX) && !HasSuffix(TmpPath(remote), META_SUFFIX)
  {
    var meta, part, tmp := MetaPath(remote), PartPath(remote), TmpPath(remote);
    assert meta[|meta| - |META_SUFFIX|..] == META_SUFFIX;
    assert part[|part| - 1] == 116 && tmp[|tmp| - 1] == 112 && META_SUFFIX[9] == 97;
    assert |part| >= 10 ==> part[|part| - 10..][9] == part[|part| - 1];
    assert tmp[|tmp| - 10..][9] == tmp[|tmp| - 1];
  }

  // ---------------------------------------------------------------- the scan

  /** "clientdir" */
  const CLIENT_NAME: bytes := [99, 108, 105, 101, 110, 116, 100, 105, 114]

  /** The file a local path names, for a process running in `home`. */
  function LocalKey(home: Key, path: bytes): Key {
    WalkFrom(if path != [] && path[0] == SLASH then [] else home, Components(path))
  }

  function ScannedDir(home: Key): Key {
    home + [CLIENT_NAME]
  }

  /** The meta file of a download is an entry of the directory scanned. */
  predicate Listed(home: Key, remote: bytes) {
    var k := LocalKey(home, MetaPath(remote));
    ScannedDir(home) <= k && |k| == |home| + 2
  }

  function EntryName(home: Key, remote: bytes): bytes
    requires Listed(home, remote)
  {
    LocalKey(home, MetaPath(remote))[|home| + 1]
  }

  predicate Relative(path: bytes) {
    path == [] || (path[0] != SLASH && path[0] != TILDE)
  }

  lemma ClientDirParts(rest: bytes)
    ensures Components(CLIENT_DIR + rest) == [[DOT], CLIENT_NAME] + Components(rest)
  {
    hide Components;
    var below := CLIENT_NAME + [SLASH] + rest;
    assert CLIENT_DIR + rest == [DOT] + [SLASH] + below;
    ComponentsOfSlash([DOT], below);
    ComponentAlone([DOT]);
    BelowClientDir(rest);
    assert [[DOT]] + ([CLIENT_NAME] + Components(rest)) == [[DOT], CLIENT_NAME] + Components(rest);
  }

  lemma BelowClientDir(rest: bytes)
    ensures Components(CLIENT_NAME + [SLASH] + rest) == [CLIENT_NAME] + Components(rest)
  {
    hide Components;
    assert SLASH !in CLIENT_NAME;
    ComponentsOfSlash(CLIENT_NAME, rest);
    ComponentAlone(CLIENT_NAME);
  }

  /** Where the meta file of a relative path is. */
  lemma RelativeKey(home: Key, remote: bytes)
    requires Relative(remote)
    ensures LocalKey(home, MetaPath(remote)) == WalkFrom(ScannedDir(home), Components(remote + META_SUFFIX))
  {
    hide Components, WalkFrom;
    var rest := remote + META_SUFFIX;
    assert MetaPath(remote) == CLIENT_DIR + rest && CLIENT_DIR[0] == DOT;
    ClientDirParts(rest);
    WalkIn(home, CLIENT_NAME, Components(rest));
  }

  /** The three kinds of name a user can give: one that begins with a slash is
      kept and starts at the root, one that begins with a tilde is kept and
      starts where the client runs, any other is put below "./clientdir/". */
  lemma LocalPlaces(home: Key, name: bytes)
    ensures FinalPath([47] + name) == [47] + name
            && LocalKey(home, FinalPath([47] + name)) == WalkFrom([], Components(name))
    ensures FinalPath([126] + name) == [126] + name
            && LocalKey(home, FinalPath([126] + name)) == WalkFrom(home, Components([126] + name))
    ensures name == [] || (name[0] != 47 && name[0] != 126) ==>
              && FinalPath(name) == CLIENT_DIR + name
              && LocalKey(home, FinalPath(name)) == WalkFrom(home + [CLIENT_NAME], Components(name))
  {
    hide Components, WalkFrom;
    assert [47] + name == [] + [SLASH] + name;
    NoComponents();
    ComponentsOfSlash([], name);
    assert [] + Components(name) == Components(name);
    assert CLIENT_DIR[0] == DOT;
    ClientDirParts(name);
    WalkIn(home, CLIENT_NAME, Components(name));
  }

  lemma WalkIn(at: Key, c: bytes, cs: Key)
    requires Plain(c)
    ensures WalkFrom(at, [[DOT], c] + cs) == WalkFrom(at + [c], cs)
  {
    var all := [[DOT], c] + cs;
    assert all[1..] == [c] + cs && all[1..][1..] == cs;
    assert WalkFrom(at, all) == WalkFrom(at, all[1..]);
  }

  /** For a relative path without "." and "..", the scan meets the meta file
      exactly when the path has a single component. */
  lemma ListedExact(home: Key, remote: bytes)
    requires Relative(remote) && AllPlain(Components(remote + META_SUFFIX))
    ensures Listed(home, remote) <==> |Components(remote + META_SUFFIX)| == 1
  {
    hide Components, WalkFrom;
    RelativeKey(home, remote);
    WalkPlainFrom(ScannedDir(home), Components(remote + META_SUFFIX));
  }

  /** A bare name is met, under its own name. */
  lemma BareListed(home: Key, remote: bytes)
    requires Relative(remote) && SLASH !in remote
    ensures Listed(home, remote) && EntryName(home, remote) == remote + META_SUFFIX
  {
    hide Components, WalkFrom;
    var name := remote + META_SUFFIX;
    assert SLASH !in name && |name| >= 10;
    ComponentAlone(name);
    RelativeKey(home, remote);
    WalkPlainFrom(ScannedDir(home), [name]);
  }

  /** A path with a directory in it is not. */
  lemma DeeperNotListed(home: Key, dir: bytes, name: bytes)
    requires Relative(dir) && Components(dir) != [] && AllPlain(Components(dir + [SLASH] + name + META_SUFFIX))
    ensures !Listed(home, dir + [SLASH] + name)
  {
    hide Components, Listed;
    var remote := dir + [SLASH] + name;
    assert dir != [] by {
      NoComponents();
    }
    assert remote[0] == dir[0];
    assert remote + META_SUFFIX == dir + [SLASH] + (name + META_SUFFIX);
    assert dir + [SLASH] + name + META_SUFFIX == remote + META_SUFFIX;
    ComponentsOfSlash(dir, name + META_SUFFIX);
    var front, c := LastComponent(name, META_SUFFIX);
    ListedExact(home, remote);
  }

  /** The last component of a path that ends in a text without slashes ends
      in that text. */
  lemma {:induction false} LastComponent(a: bytes, end: bytes) returns (front: Key, c: bytes)
    requires end != [] && SLASH !in end
    ensures Components(a + end) == front + [c] && HasSuffix(c, end) && |c| <= |a| + |end|
    decreases |a|
  {
    hide Components;
    if SLASH in a {
      var d, rest := SplitAtSlash(a);
      assert a + end == d + [SLASH] + (rest + end);
      ComponentsCons(d, rest + end);
      front, c := LastComponent(rest, end);
      front := (if d == [] then [] else [d]) + front;
    } else {
      ComponentAlone(a + end);
      front, c := [], a + end;
      assert (a + end)[|a|..] == end;
    }
  }

  lemma {:induction false} WalkLast(at: Key, cs: Key, c: bytes)
    requires Plain(c)
    ensures WalkFrom(at, cs + [c]) == WalkFrom(at, cs) + [c]
    decreases |cs|
  {
    if cs == [] {
      assert (cs + [c])[1..] == [];
      assert WalkFrom(Enter(at, c), []) == at + [c];
    } else {
      assert (cs + [c])[1..] == cs[1..] + [c];
      WalkLast(Enter(at, cs[0]), cs[1..], c);
    }
  }

  /** The entry the scan meets has the suffix it looks for, and fits. */
  lemma EntryFound(home: Key, remote: bytes)
    requires WellNamed(remote) && Listed(home, remote)
    ensures HasSuffix(EntryName(home, remote), META_SUFFIX) && |CLIENT_DIR| + |EntryName(home, remote)| < MAXLINE
  {
    hide Components, WalkFrom;
    var path := MetaPath(remote);
    var at: Key := if path[0] == SLASH then [] else home;
    if Relative(remote) {
      var front, c := LastComponent(remote, META_SUFFIX);
      RelativeKey(home, remote);
      WalkLast(ScannedDir(home), front, c);
    } else {
      var front, c := LastComponent(remote, META_SUFFIX);
      WalkLast(at, front, c);
    }
  }
}
