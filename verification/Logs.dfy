/**
 The log of a connection: a linked list on the heap, appended to through a
 pointer to any of its nodes.
 */
module Logs {
  import opened Bytes
  import opened Wire

  class LogNode {
    var follow: LogNode?
    var kind: u32
    var path: bytes

    constructor (kind: u32, path: bytes)
      ensures follow == null && this.kind == kind && this.path == path
    {
      follow, this.kind, this.path := null, kind, path;
    }
  }

  /** The nodes of an acyclic list, first to last. */
  ghost predicate IsList(nodes: seq<LogNode>)
    reads nodes
  {
    && (forall i, j :: 0 <= i < j < |nodes| ==> nodes[i] != nodes[j])
    && (forall i :: 0 <= i < |nodes| ==> nodes[i].follow == NodeAt(nodes, i + 1))
  }

  function NodeAt(nodes: seq<LogNode>, i: nat): LogNode? {
    if i < |nodes| then nodes[i] else null
  }

  ghost function Entries(nodes: seq<LogNode>): (es: seq<(u32, bytes)>)
    reads nodes
    ensures |es| == |nodes|
  {
    seq(|nodes|, i requires 0 <= i < |nodes| reads nodes => (nodes[i].kind, nodes[i].path))
  }

  /** `add`, called through node `k` of a list, or through a null pointer when
      the list is empty. It fails exactly on a null pointer and on a path that
      does not fit, and then changes nothing; otherwise one new node ends the
      same list. */
  method Add(log: LogNode?, kind: u32, path: bytes, ghost nodes: seq<LogNode>, ghost k: nat)
    returns (r: int, ghost after: seq<LogNode>)
    requires IsList(nodes) && k <= |nodes| && log == NodeAt(nodes, k)
    modifies nodes
    ensures r == (if log == null || |path| >= MAXBUF then 1 else 0)
    ensures IsList(after) && nodes <= after
    ensures r == 1 ==> after == nodes && forall n :: n in nodes ==> unchanged(n)
    ensures r == 0 ==> |after| == |nodes| + 1 && fresh(after[|nodes|])
    ensures r == 0 ==> Entries(after) == old(Entries(nodes)) + [(kind, path)]
  {
    after := nodes;
    if log == null {
      return 1, nodes;
    }
    if |path| >= MAXBUF {
      return 1, nodes;
    }
    var c := log;
    ghost var i := k;
    while c.follow != null
      invariant k <= i < |nodes| && c == nodes[i]
      decreases |nodes| - i
    {
      i := i + 1;
      c := c.follow;
    }
    var node := new LogNode(kind, path);
    c.follow := node;
    after := nodes + [node];
    assert Entries(after) == old(Entries(nodes)) + [(kind, path)];
    return 0, after;
  }

  /** `follow`. */
  method Follow(log: LogNode?, ghost nodes: seq<LogNode>, ghost k: nat) returns (next: LogNode?)
    requires IsList(nodes) && k <= |nodes| && log == NodeAt(nodes, k)
    ensures next == NodeAt(nodes, k + 1)
  {
    if log == null {
      return null;
    }
    return log.follow;
  }

  /** Repeated `follow` meets the entries in the order they were added. */
  method Enumerate(log: LogNode?, ghost nodes: seq<LogNode>) returns (entries: seq<(u32, bytes)>)
    requires IsList(nodes) && log == NodeAt(nodes, 0)
    ensures entries == Entries(nodes)
  {
    entries := [];
    var c := log;
    while c != null
      invariant |entries| <= |nodes| && c == NodeAt(nodes, |entries|)
      invariant entries == Entries(nodes)[..|entries|]
      decreases |nodes| - |entries|
    {
      entries := entries + [(c.kind, c.path)];
      c := Follow(c, nodes, |entries| - 1);
    }
  }

  /** `free_log`: every node is freed, once, and no other. */
  method FreeLog(log: LogNode?, ghost nodes: seq<LogNode>) returns (freed: seq<LogNode>)
    requires IsList(nodes) && log == NodeAt(nodes, 0)
    ensures freed == nodes
    ensures forall i, j :: 0 <= i < j < |freed| ==> freed[i] != freed[j]
  {
    freed := [];
    var c := log;
    while c != null
      invariant |freed| <= |nodes| && c == NodeAt(nodes, |freed|)
      invariant freed == nodes[..|freed|]
      decreases |nodes| - |freed|
    {
      var tmp := c.follow;
      freed := freed + [c];
      c := tmp;
    }
  }

  /** The log kept by the connection loop, which starts from a null pointer:
      as shipped, every `add` is refused and the log stays empty. */
  method ConnectionLog(requests: seq<(u32, bytes)>) returns (log: LogNode?, isUpdate: bool)
    ensures log == null
    ensures isUpdate <==> exists i :: 0 <= i < |requests| && requests[i].0 == UPDATE
  {
    log, isUpdate := null, false;
    for n := 0 to |requests|
      invariant log == null
      invariant isUpdate <==> exists i :: 0 <= i < n && requests[i].0 == UPDATE
    {
      var (kind, path) := requests[n];
      if kind == RM || kind == PUT {
        var r, nodes := Add(log, kind, path, [], 0);
      }
      if kind == UPDATE {
        isUpdate := true;
      }
    }
  }

  lemma Appended(start: seq<(u32, bytes)>, added: seq<(u32, bytes)>, n: nat)
    requires n < |added|
    ensures start + added[..n] + [(added[n].0, added[n].1)] == start + added[..n + 1]
  {
  }

  /** Additions to a list that has a node, and the list as `follow` then
      shows it. */
  method AddAll(log: LogNode, added: seq<(u32, bytes)>, ghost nodes: seq<LogNode>)
    returns (ghost after: seq<LogNode>, seen: seq<(u32, bytes)>)
    requires IsList(nodes) && nodes != [] && log == nodes[0]
    requires forall x :: x in added ==> |x.1| < MAXBUF
    modifies nodes
    ensures IsList(after) && nodes <= after
    ensures seen == Entries(after) == old(Entries(nodes)) + added
  {
    hide Entries, IsList;
    ghost var start := Entries(nodes);
    after := nodes;
    assert added[..0] == [];
    for n := 0 to |added|
      invariant nodes <= after && IsList(after)
      invariant forall i :: |nodes| <= i < |after| ==> fresh(after[i])
      invariant Entries(after) == start + added[..n]
    {
      assert added[n] in added;
      ghost var before := after;
      var r;
      r, after := Add(log, added[n].0, added[n].1, after, 0);
      assert after == before + [after[|before|]];
      Appended(start, added, n);
    }
    assert added[..|added|] == added;
    seen := Enumerate(log, after);
  }
}
