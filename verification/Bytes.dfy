/**
 Bytes, C strings and the limits shared by every component of the system.
 A C string is the sequence of its characters without the terminating NUL.
 */
module Bytes {

  type byte = b: int | 0 <= b < 256
  type bytes = seq<byte>

  const NUL: byte := 0
  const NL: byte := 10
  const CR: byte := 13
  const MINUS: byte := 45
  const PLUS: byte := 43
  const DOT: byte := 46
  const SLASH: byte := 47
  const COLON: byte := 58

  const MAXLINE: nat := 8192
  const MAXBUF: nat := 8192

  const U16_LIMIT: nat := 0x1_0000
  const U32_LIMIT: nat := 0x1_0000_0000
  const U64_LIMIT: nat := 0x1_0000_0000_0000_0000

  type u16 = x: int | 0 <= x < 0x1_0000
  type u32 = x: int | 0 <= x < 0x1_0000_0000

  datatype Option<+T> = None | Some(value: T)
  {
    function Or(default: T): T {
      match this
      case None => default
      case Some(v) => v
    }
  }

  function Min(a: nat, b: nat): (m: nat)
    ensures m <= a && m <= b && (m == a || m == b)
  {
    if a < b then a else b
  }

  ghost predicate IsCString(s: bytes) {
    NUL !in s
  }

  /** `n` NUL bytes, as `memset` leaves them. */
  function Zeros(n: nat): (z: bytes)
    ensures |z| == n && forall i :: 0 <= i < n ==> z[i] == NUL
  {
    seq(n, i => NUL)
  }

  lemma Assoc(a: bytes, b: bytes, c: bytes)
    ensures (a + b) + c == a + (b + c)
  {
  }

  /** Index of the first `c` in `s`, or `|s|`: the position `strchr` finds. */
  function Find(s: bytes, c: byte): (i: nat)
    ensures i <= |s| && (forall k :: 0 <= k < i ==> s[k] != c) && (i < |s| ==> s[i] == c)
  {
    if s == [] || s[0] == c then 0 else 1 + Find(s[1..], c)
  }

  /** The C string that starts at the beginning of a buffer. */
  function CString(buf: bytes): bytes {
    buf[..Find(buf, NUL)]
  }

  lemma FindUnique(s: bytes, c: byte, i: nat)
    requires i <= |s| && (forall k :: 0 <= k < i ==> s[k] != c) && (i == |s| || s[i] == c)
    ensures Find(s, c) == i
  {
  }

  /** A separator is found right after a part that does not contain it. */
  lemma FindSeparator(a: bytes, c: byte, b: bytes)
    requires c !in a
    ensures Find(a + [c] + b, c) == |a|
    ensures (a + [c] + b)[..|a|] == a && (a + [c] + b)[|a| + 1..] == b
  {
    FindUnique(a + [c] + b, c, |a|);
  }

  lemma FindAbsent(a: bytes, c: byte)
    requires c !in a
    ensures Find(a, c) == |a|
  {
    FindUnique(a, c, |a|);
  }

  /** Reading `data` off the front of what follows position `i`. */
  lemma FrontOf(s: bytes, i: nat, data: bytes, rest: bytes)
    requires i <= |s| && s[i..] == data + rest
    ensures i + |data| <= |s| && data == s[i..i + |data|] && rest == s[i + |data|..]
  {
    assert s[i..][..|data|] == data && s[i..][|data|..] == rest;
  }

  lemma CStringOfPadded(s: bytes, n: nat)
    requires IsCString(s) && n > 0
    ensures CString(s + Zeros(n)) == s
  {
    assert s + Zeros(n) == s + [NUL] + Zeros(n)[1..];
    FindSeparator(s, NUL, Zeros(n)[1..]);
  }
}
