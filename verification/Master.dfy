/**
 The master: which slave a client is sent to, and the text that tells it.
 */
module Master {
  import opened Bytes
  import opened Text
  import opened Wire

  const SLAVE_ERROR: byte := 6
  const PASSWORD_ERROR: byte := 7
  /** The bound of the client's copy loop, and the room in its buffer. */
  const INET6_ADDRSTRLEN: nat := 46
  const INET_ADDRSTRLEN: nat := 16
  /** The master's buffer for the port. */
  const PORT_BUFFER: nat := 5

  // ------------------------------------------------------------ round robin

  datatype Login = Login(passwordOk: bool, kind: u32)
  datatype Answer = Granted(slave: nat) | Refused(error: byte)

  /** The server loop's index over the connected slaves. */
  class Server {
    const connected: nat
    var i: nat

    constructor (connected: nat)
      ensures this.connected == connected && i == 0
    {
      this.connected, i := connected, 0;
    }

    /** One client: a wrong password, then a grant or a refusal. */
    method Serve(login: Login) returns (a: Answer)
      requires connected > 0 ==> i < connected
      modifies this`i
      ensures connected > 0 ==> i < connected
      ensures !login.passwordOk ==> a == Refused(PASSWORD_ERROR) && i == old(i)
      ensures login.passwordOk && (connected == 0 || login.kind != GET) ==> a == Refused(SLAVE_ERROR) && i == old(i)
      ensures login.passwordOk && connected > 0 && login.kind == GET ==>
                a == Granted((old(i) + 1) % connected) && i == (old(i) + 1) % connected
    {
      if !login.passwordOk {
        return Refused(PASSWORD_ERROR);
      }
      if connected != 0 && login.kind == GET {
        i := (i + 1) % connected;
        a := Granted(i);
      } else {
        a := Refused(SLAVE_ERROR);
      }
    }

    /** Any run of logins: the grants are the consecutive ones of the rotation,
        whatever refusals come between them. */
    method ServeAll(logins: seq<Login>) returns (grants: seq<nat>)
      requires connected > 0 && i < connected
      modifies this`i
      ensures |grants| == Grantables(logins)
      ensures forall k :: 0 <= k < |grants| ==> grants[k] == Slave(old(i), connected, k)
      ensures i < connected
    {
      grants := [];
      SlaveZero(i, connected);
      assert logins[..0] == [];
      for n := 0 to |logins|
        invariant i == Slave(old(i), connected, |grants| - 1)
        invariant |grants| == Grantables(logins[..n])
        invariant forall k :: 0 <= k < |grants| ==> grants[k] == Slave(old(i), connected, k)
      {
        assert logins[..n + 1][..n] == logins[..n];
        SlaveNext(old(i), connected, |grants| - 1);
        var a := Serve(logins[n]);
        if a.Granted? {
          grants := grants + [a.slave];
        }
      }
      assert logins[..|logins|] == logins;
    }
  }

  /** How many logins are granted a slave when one is connected. */
  function Grantables(logins: seq<Login>): nat {
    if logins == [] then 0
    else
      var last := logins[|logins| - 1];
      Grantables(logins[..|logins| - 1]) + if last.passwordOk && last.kind == GET then 1 else 0
  }

  lemma {:induction false} GrantablesJoin(a: seq<Login>, b: seq<Login>)
    ensures Grantables(a + b) == Grantables(a) + Grantables(b)
    decreases |b|
  {
    if b == [] {
      assert a + b == a;
    } else {
      assert (a + b)[..|a + b| - 1] == a + b[..|b| - 1];
      GrantablesJoin(a, b[..|b| - 1]);
    }
  }

  lemma {:induction false} NoneGrantable(logins: seq<Login>)
    requires forall l :: l in logins ==> !l.passwordOk || l.kind != GET
    ensures Grantables(logins) == 0
  {
    if logins != [] {
      assert logins[|logins| - 1] in logins;
      NoneGrantable(logins[..|logins| - 1]);
    }
  }

  /** Logins with a wrong password, however many and wherever they come, take
      no slave and leave the rotation where it is. */
  lemma WrongPasswords(before: seq<Login>, wrong: seq<Login>, after: seq<Login>)
    requires forall l :: l in wrong ==> !l.passwordOk
    ensures Grantables(before + wrong + after) == Grantables(before + after)
  {
    hide Grantables;
    NoneGrantable(wrong);
    GrantablesJoin(before + wrong, after);
    GrantablesJoin(before, wrong);
    GrantablesJoin(before, after);
  }

  /** The slave of grant `k`, counted from 0, when the index starts at `start`. */
  function Slave(start: nat, n: nat, k: int): (s: nat)
    requires n > 0 && k >= -1
    ensures s < n
  {
    (start + 1 + k) % n
  }

  lemma SlaveZero(start: nat, n: nat)
    requires start < n
    ensures Slave(start, n, -1) == start
  {
  }

  lemma ModShift(x: int, n: int)
    requires n > 0
    ensures (x % n + 1) % n == (x + 1) % n && (x + n) % n == x % n
  {
    var q, r := x / n, x % n;
    assert x == n * q + r;
    if r + 1 < n {
      DivMod(x + 1, n, q, r + 1);
      DivMod(r + 1, n, 0, r + 1);
    } else {
      assert x + 1 == n * (q + 1);
      DivMod(x + 1, n, q + 1, 0);
      DivMod(n, n, 1, 0);
    }
    assert x + n == n * (q + 1) + r;
    DivMod(x + n, n, q + 1, r);
  }

  lemma SlaveNext(start: nat, n: nat, k: int)
    requires n > 0 && k >= -1
    ensures Slave(start, n, k + 1) == (Slave(start, n, k) + 1) % n
  {
    ModShift(start + 1 + k, n);
  }

  /** Grants `a` up to `b` that go to slave `s`. */
  function Count(start: nat, n: nat, s: nat, a: nat, b: nat): nat
    requires n > 0
  {
    if b <= a then 0 else Count(start, n, s, a, b - 1) + if Slave(start, n, b - 1) == s then 1 else 0
  }

  /** Two grants less than a round apart go to different slaves. */
  lemma DifferentInRound(start: nat, n: nat, j: nat, k: nat)
    requires n > 0 && j < k < j + n
    ensures Slave(start, n, j) != Slave(start, n, k)
  {
    var x, y := start + 1 + j, start + 1 + k;
    var d := y / n - x / n;
    assert y - x == n * d + (y % n - x % n);
    assert d <= 0 ==> n * d <= 0;
    assert d >= 1 ==> n * d >= n;
  }

  /** Some grant of each round goes to slave `s`. */
  lemma FoundInRound(start: nat, n: nat, s: nat, a: nat) returns (k: nat)
    requires s < n
    ensures a <= k < a + n && Slave(start, n, k) == s
  {
    var x := start + 1 + a;
    var q, r := x / n, x % n;
    assert x == n * q + r;
    if r <= s {
      k := a + (s - r);
      DivMod(start + 1 + k, n, q, s);
    } else {
      k := a + (s + n - r);
      assert start + 1 + k == n * (q + 1) + s;
      DivMod(start + 1 + k, n, q + 1, s);
    }
  }

  lemma {:induction false} CountWithin(start: nat, n: nat, s: nat, a: nat, b: nat, k: nat)
    requires n > 0 && a <= b <= a + n && a <= k < a + n && Slave(start, n, k) == s
    ensures Count(start, n, s, a, b) == if k < b then 1 else 0
    decreases b - a
  {
    hide Slave;
    if a < b {
      CountWithin(start, n, s, a, b - 1, k);
      if b - 1 < k {
        DifferentInRound(start, n, b - 1, k);
      } else if k < b - 1 {
        DifferentInRound(start, n, k, b - 1);
      }
    }
  }

  /** Fairness: of every `n` consecutive grants each slave gets exactly one. */
  lemma EveryRound(start: nat, n: nat, s: nat, a: nat)
    requires s < n
    ensures Count(start, n, s, a, a + n) == 1
  {
    var k := FoundInRound(start, n, s, a);
    CountWithin(start, n, s, a, a + n, k);
  }

  lemma {:induction false} CountSplit(start: nat, n: nat, s: nat, a: nat, b: nat, c: nat)
    requires n > 0 && a <= b <= c
    ensures Count(start, n, s, a, c) == Count(start, n, s, a, b) + Count(start, n, s, b, c)
    decreases c - b
  {
    hide Slave;
    if b < c {
      CountSplit(start, n, s, a, b, c - 1);
    }
  }

  /** After `m` grants, every slave has had `m / n` of them or one more. */
  lemma {:induction false} CountShare(start: nat, n: nat, s: nat, a: nat, m: nat)
    requires s < n
    ensures m / n <= Count(start, n, s, a, a + m) <= m / n + 1
    decreases m
  {
    hide Slave;
    if m < n {
      DivMod(m, n, 0, m);
      var k := FoundInRound(start, n, s, a);
      CountWithin(start, n, s, a, a + m, k);
    } else {
      EveryRound(start, n, s, a);
      CountSplit(start, n, s, a, a + n, a + m);
      CountShare(start, n, s, a + n, m - n);
      var q, r := (m - n) / n, (m - n) % n;
      assert m == n * (q + 1) + r;
      DivMod(m, n, q + 1, r);
    }
  }

  /** After any number of grants, no slave has had two more than another. */
  lemma Balanced(start: nat, n: nat, s: nat, t: nat, m: nat)
    requires s < n && t < n
    ensures -1 <= Count(start, n, s, 0, m) - Count(start, n, t, 0, m) <= 1
  {
    CountShare(start, n, s, 0, m);
    CountShare(start, n, t, 0, m);
  }

  // ------------------------------------------------------------ credentials

  function CredText(ip: bytes, port: bytes): bytes {
    ip + [COLON] + port
  }

  /** `write_cred`: the address, a colon and the port, byte by byte. */
  method WriteCred(cred: array<byte>, port: bytes, ip: bytes)
    requires IsCString(ip) && IsCString(port) && |ip| + |port| + 1 < cred.Length
    modifies cred
    ensures CString(cred[..]) == CredText(ip, port)
  {
    var i: nat := 0;
    while i < |ip|
      invariant i <= |ip| && cred[..i] == ip[..i]
    {
      cred[i] := ip[i];
      i := i + 1;
    }
    cred[i] := COLON;
    i := i + 1;
    assert cred[..i] == ip + [COLON];
    var j: nat := 0;
    while j < |port|
      invariant j <= |port| && i == |ip| + 1 + j
      invariant cred[..i] == ip + [COLON] + port[..j]
    {
      cred[i] := port[j];
      i := i + 1;
      j := j + 1;
    }
    cred[i] := NUL;
    assert cred[..i] == CredText(ip, port);
    assert cred[..] == CredText(ip, port) + [NUL] + cred[i + 1..];
    FindSeparator(CredText(ip, port), NUL, cred[i + 1..]);
  }

  /** What the client makes of the text of an answer. Overrun: it has written
      past the end of its buffer. */
  datatype Cred = Got(host: bytes, port: int) | NoPort | Overrun

  /** Where the copy loop stops: at a colon, or at its own bound; what follows
      the text is zeros. */
  function CopyEnd(content: bytes): nat {
    var colon := Find(content, COLON);
    if colon == |content| then INET6_ADDRSTRLEN else Min(colon, INET6_ADDRSTRLEN)
  }

  /** `get_cred` with room for `room` bytes of the host. */
  function ParseCred(content: bytes, room: nat): Cred {
    var colon := Find(content, COLON);
    if CopyEnd(content) >= room then Overrun
    else if colon == |content| then NoPort
    else Got(content[..CopyEnd(content)], Strtol(content[colon + 1..]).0)
  }

  /** `get_cred`: the copy loop, the terminating NUL, and the port. */
  method GetCred(content: bytes, host: array<byte>) returns (c: Cred)
    requires IsCString(content) && host.Length > 0
    modifies host
    ensures c == ParseCred(content, host.Length)
    ensures c.Got? ==> CString(host[..]) == c.host
  {
    hide Strtol;
    var buffer := content + Zeros(INET6_ADDRSTRLEN);
    var i: nat := 0;
    while i < INET6_ADDRSTRLEN && buffer[i] != COLON
      invariant i <= INET6_ADDRSTRLEN && i <= host.Length && host[..i] == buffer[..i]
      invariant forall k :: 0 <= k < i ==> buffer[k] != COLON
    {
      if i == host.Length {
        LoopEnd(content, i);
        return Overrun;
      }
      host[i] := buffer[i];
      i := i + 1;
    }
    LoopEnd(content, i);
    if i >= host.Length {
      return Overrun;
    }
    host[i] := NUL;
    var colon := Find(content, COLON);
    if colon == |content| {
      return NoPort;
    }
    assert host[..] == content[..i] + [NUL] + host[i + 1..];
    assert IsCString(content[..i]);
    FindSeparator(content[..i], NUL, host[i + 1..]);
    return Got(content[..i], Strtol(content[colon + 1..]).0);
  }

  /** How far the loop is known to go. */
  lemma LoopEnd(content: bytes, i: nat)
    requires i <= INET6_ADDRSTRLEN && forall k :: 0 <= k < i ==> (content + Zeros(INET6_ADDRSTRLEN))[k] != COLON
    ensures i <= CopyEnd(content)
    ensures i == INET6_ADDRSTRLEN || (content + Zeros(INET6_ADDRSTRLEN))[i] == COLON ==> i == CopyEnd(content)
  {
    var buffer := content + Zeros(INET6_ADDRSTRLEN);
    var colon := Find(content, COLON);
    if colon < |content| {
      assert buffer[colon] == COLON;
    }
    if i < INET6_ADDRSTRLEN && buffer[i] == COLON {
      assert i < |content|;
      FindUnique(content, COLON, i);
    }
  }

  /** What the master sends: the port is printed into a buffer of five bytes,
      and a longer one overruns it. */
  function SentCred(ip: bytes, port: u16): Option<bytes> {
    if |Decimal(port)| < PORT_BUFFER then Some(CredText(ip, Decimal(port))) else None
  }

  lemma PortFits(port: u16)
    ensures |Decimal(port)| < PORT_BUFFER <==> port < 10000
  {
    var tens: nat := port / 10;
    var hundreds := tens / 10;
    var thousands := hundreds / 10;
    MoreDigits(port);
    MoreDigits(tens);
    MoreDigits(hundreds);
    MoreDigits(thousands);
  }

  lemma MoreDigits(n: nat)
    ensures |Decimal(n)| == if n < 10 then 1 else 1 + |Decimal(n / 10)|
  {
  }

  /** The client gets back the address and the port, exactly when the port has
      at most four digits, and the address has no colon and fits the client's
      buffer with the terminating NUL; the bound of the loop is larger than the
      buffer, and does not protect it. */
  lemma CredRoundTrip(ip: bytes, port: u16)
    ensures SentCred(ip, port).Some? && ParseCred(SentCred(ip, port).value, INET_ADDRSTRLEN) == Got(ip, port as int)
       <==> port < 10000 && COLON !in ip && |ip| < INET_ADDRSTRLEN
    ensures COLON !in ip && port < 10000 ==>
              && SentCred(ip, port).Some?
              && (ParseCred(SentCred(ip, port).value, INET_ADDRSTRLEN) == Overrun <==> |ip| >= INET_ADDRSTRLEN)
  {
    PortFits(port);
    hide Decimal;
    var text := CredText(ip, Decimal(port));
    if COLON !in ip {
      FindSeparator(ip, COLON, Decimal(port));
      ScanPrinted(port, []);
      assert Decimal(port) + [] == Decimal(port);
      assert ip[..|ip|] == ip;
    } else {
      var j :| 0 <= j < |ip| && ip[j] == COLON;
      assert text[j] == COLON;
    }
  }
}
