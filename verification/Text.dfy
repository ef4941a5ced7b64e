/**
 The textual payloads: decimal numbers, the RESUME payload, the `.part.meta`
 file and the UPDATE payload, with the C library parsers that read them back.
 */
module Text {
  import opened Bytes

  // ---------------------------------------------------------------- numbers

  const ULONG_MAX: nat := U64_LIMIT - 1
  const LONG_MAX: nat := 0x7FFF_FFFF_FFFF_FFFF

  predicate IsDigit(c: byte) {
    48 <= c < 58
  }

  predicate IsSpace(c: byte) {
    c == 32 || 9 <= c <= 13
  }

  /** Text of `%u` (and of `%d` for a non-negative number). */
  function Decimal(n: nat): (s: bytes)
    ensures s != [] && forall i :: 0 <= i < |s| ==> IsDigit(s[i])
  {
    if n < 10 then [48 + n] else Decimal(n / 10) + [48 + n % 10]
  }

  function DigitsValue(s: bytes): nat
    requires forall i :: 0 <= i < |s| ==> IsDigit(s[i])
  {
    if s == [] then 0
    else
      var last := s[|s| - 1];
      assert IsDigit(last);
      DigitsValue(s[..|s| - 1]) * 10 + (last as int - 48)
  }

  datatype Class = Spaces | Digits

  predicate InClass(k: Class, c: byte) {
    if k.Spaces? then IsSpace(c) else IsDigit(c)
  }

  /** Number of leading characters that belong to the class. */
  function Span(s: bytes, k: Class): (n: nat)
    ensures n <= |s| && (forall i :: 0 <= i < n ==> InClass(k, s[i])) && (n < |s| ==> !InClass(k, s[n]))
  {
    if s == [] || !InClass(k, s[0]) then 0
    else
      var n := 1 + Span(s[1..], k);
      assert forall i :: 1 <= i < n ==> s[i] == s[1..][i - 1];
      n
  }

  lemma SpanUnique(s: bytes, k: Class, n: nat)
    requires n <= |s| && (forall i :: 0 <= i < n ==> InClass(k, s[i])) && (n < |s| ==> !InClass(k, s[n]))
    ensures Span(s, k) == n
  {
  }

  /** What the scanner of `strtoul`/`strtol` in base 10 sees: sign, magnitude
      and the number of characters consumed (0 when there is no number). */
  datatype Scan = Scan(negative: bool, magnitude: nat, end: nat)

  function ScanNumber(s: bytes): (r: Scan)
    ensures r.end <= |s|
  {
    var w := Span(s, Spaces);
    var signed := w < |s| && (s[w] == MINUS || s[w] == PLUS);
    var start := if signed then w + 1 else w;
    var d := Span(s[start..], Digits);
    if d == 0 then Scan(false, 0, 0)
    else Scan(signed && s[w] == MINUS, DigitsValue(s[start..][..d]), start + d)
  }

  /** `strtoul`: saturates, and a minus sign negates modulo 2^64. */
  function Strtoul(s: bytes): (nat, nat) {
    var r := ScanNumber(s);
    if r.magnitude > ULONG_MAX then (ULONG_MAX, r.end)
    else if r.negative then ((U64_LIMIT - r.magnitude) % U64_LIMIT, r.end)
    else (r.magnitude, r.end)
  }

  /** `strtol`: saturates at both ends. */
  function Strtol(s: bytes): (int, nat) {
    var r := ScanNumber(s);
    if r.negative then (if r.magnitude > LONG_MAX + 1 then -(LONG_MAX as int + 1) else -(r.magnitude as int), r.end)
    else (if r.magnitude > LONG_MAX then LONG_MAX else r.magnitude, r.end)
  }

  lemma {:induction false} DecimalValue(n: nat)
    ensures DigitsValue(Decimal(n)) == n
  {
    if n < 10 {
      assert Decimal(n)[..0] == [];
    } else {
      DecimalValue(n / 10);
      assert Decimal(n)[..|Decimal(n)| - 1] == Decimal(n / 10);
    }
  }

  lemma {:induction false} DecimalLength(n: nat)
    requires n < U32_LIMIT
    ensures |Decimal(n)| <= 10
  {
    DecimalDigits(n, 10, 10000000000);
  }

  lemma {:induction false} DecimalDigits(n: nat, d: nat, power: nat)
    requires d > 0 && power == Pow10(d) && n < power
    ensures |Decimal(n)| <= d
  {
    if n >= 10 {
      assert d > 1;
      DecimalDigits(n / 10, d - 1, Pow10(d - 1));
    }
  }

  function Pow10(d: nat): nat {
    if d == 0 then 1 else 10 * Pow10(d - 1)
  }

  /** A printed number is read back exactly, up to the character after it. */
  lemma ScanPrinted(n: nat, rest: bytes)
    requires rest == [] || !IsDigit(rest[0])
    ensures ScanNumber(Decimal(n) + rest) == Scan(false, n, |Decimal(n)|)
  {
    var s := Decimal(n) + rest;
    assert IsDigit(s[0]);
    SpanUnique(s, Spaces, 0);
    assert s[0..] == s;
    SpanUnique(s, Digits, |Decimal(n)|);
    assert s[..|Decimal(n)|] == Decimal(n);
    DecimalValue(n);
  }

  lemma StrtoulPrinted(n: u32, rest: bytes)
    requires rest == [] || !IsDigit(rest[0])
    ensures Strtoul(Decimal(n) + rest) == (n, |Decimal(n)|)
  {
    ScanPrinted(n, rest);
  }

  // ---------------------------------------------------------- RESUME payload

  /** `snprintf("%s\n%u")`, as built for a RESUME request. */
  function ResumePayload(path: bytes, offset: u32): bytes {
    path + [NL] + Decimal(offset)
  }

  /** `parse_resume_data`, with an output buffer of MAXLINE bytes. */
  function ParseResumeData(data: bytes): (r: Option<(bytes, u32)>)
  {
    var sep := Find(data, NL);
    if sep == |data| then None
    else if sep == 0 || sep >= MAXLINE then None
    else
      var number := data[sep + 1..];
      if number == [] then None
      else
        var (value, end) := Strtoul(number);
        if end == 0 || end != |number| || value >= U32_LIMIT then None
        else Some((data[..sep], value))
  }

  lemma FirstNewlineInside(path: bytes, rest: bytes)
    requires NL in path
    ensures Find(path + [NL] + rest, NL) < |path|
  {
    var j :| 0 <= j < |path| && path[j] == NL;
    assert (path + [NL] + rest)[j] == NL;
  }

  /** The RESUME payload is inverted exactly for non-empty paths without a
      newline that fit the server's buffer, and for no others. */
  lemma ResumeRoundTrip(path: bytes, offset: u32)
    ensures ParseResumeData(ResumePayload(path, offset)) == Some((path, offset))
       <==> path != [] && NL !in path && |path| < MAXLINE
  {
    hide Strtoul, ScanNumber;
    var data := ResumePayload(path, offset);
    if NL !in path {
      FindSeparator(path, NL, Decimal(offset));
      StrtoulPrinted(offset, []);
      assert Decimal(offset) + [] == Decimal(offset);
    } else {
      FirstNewlineInside(path, Decimal(offset));
    }
  }

  // --------------------------------------------------------------- meta file

  /** `fprintf("%s\n%u\n")`: the whole content of a `.part.meta` file. */
  function MetaText(path: bytes, offset: u32): (s: bytes)
    ensures s != []
  {
    path + [NL] + Decimal(offset) + [NL]
  }

  /** `fgets` with a buffer of `size` bytes: the line, newline included. */
  function Fgets(s: bytes, size: nat): (line: bytes)
    requires size > 0
    ensures line <= s && |line| < size
  {
    var n := Find(s, NL);
    s[..Min(if n < |s| then n + 1 else n, size - 1)]
  }

  predicate IsEol(c: byte) {
    c == NL || c == CR
  }

  /** The line without its trailing newlines and carriage returns. */
  function TrimEol(s: bytes): (t: bytes)
    ensures t <= s && (t != [] ==> !IsEol(t[|t| - 1]))
    ensures forall i :: |t| <= i < |s| ==> IsEol(s[i])
  {
    if s != [] && IsEol(s[|s| - 1]) then TrimEol(s[..|s| - 1]) else s
  }

  /** `read_meta_file` with a path buffer of MAXLINE bytes, on a file content. */
  function ParseMeta(content: bytes): (r: Option<(bytes, u32)>)
  {
    var line := Fgets(content, MAXLINE);
    var rest := content[|line|..];
    var number := CString(Fgets(rest, 64));
    var (value, end) := Strtoul(number);
    if line == [] || rest == [] then None
    else if end == 0 || (end < |number| && number[end] != NL) || value >= U32_LIMIT then None
    else Some((TrimEol(CString(line)), value))
  }

  /** The body of `read_meta_file`, with its in-place trimming loop. */
  method ReadMetaFile(file: Option<bytes>) returns (r: Option<(bytes, u32)>)
    ensures r == if file.None? then None else ParseMeta(file.value)
  {
    hide Strtoul, Fgets, CString;
    if file.None? {
      return None;
    }
    var content := file.value;
    var line := Fgets(content, MAXLINE);
    if line == [] {
      return None;
    }
    var remote := CString(line);
    var n: nat := |remote|;
    assert remote[..n] == remote;
    while n > 0 && IsEol(remote[n - 1])
      invariant n <= |remote|
      invariant TrimEol(remote[..n]) == TrimEol(CString(line))
    {
      assert remote[..n][..n - 1] == remote[..n - 1];
      n := n - 1;
    }
    assert TrimEol(remote[..n]) == remote[..n];
    remote := remote[..n];
    var rest := content[|line|..];
    if rest == [] {
      return None;
    }
    var number := CString(Fgets(rest, 64));
    var (value, end) := Strtoul(number);
    if end == 0 || (end < |number| && number[end] != NL) || value >= U32_LIMIT {
      return None;
    }
    return Some((remote, value));
  }

  lemma NumberLine(offset: u32)
    ensures var number := CString(Fgets(Decimal(offset) + [NL], 64));
            number == Decimal(offset) + [NL] && Strtoul(number) == (offset, |Decimal(offset)|)
  {
    var s := Decimal(offset) + [NL];
    assert s == Decimal(offset) + [NL] + [];
    FindSeparator(Decimal(offset), NL, []);
    DecimalLength(offset);
    assert Fgets(s, 64) == s;
    assert NUL !in s;
    FindAbsent(s, NUL);
    StrtoulPrinted(offset, [NL]);
  }

  /** The first line is the path, and the second the offset. */
  lemma MetaLines(path: bytes, offset: u32)
    requires IsCString(path) && NL !in path && |path| + 1 < MAXLINE
    ensures var text := MetaText(path, offset);
            var line := Fgets(text, MAXLINE);
            line == path + [NL] && CString(line) == line && text[|line|..] == Decimal(offset) + [NL]
  {
    var text := MetaText(path, offset);
    assert text == path + [NL] + (Decimal(offset) + [NL]);
    FindSeparator(path, NL, Decimal(offset) + [NL]);
    FindAbsent(path + [NL], NUL);
  }

  lemma TrimNewline(path: bytes)
    ensures TrimEol(path + [NL]) == path <==> path == [] || !IsEol(path[|path| - 1])
  {
    assert (path + [NL])[..|path|] == path;
    assert TrimEol(path + [NL]) == TrimEol(path);
  }

  /** A meta file is read back exactly for the paths that hold no newline, do
      not end in a carriage return and leave room for the newline in the
      reader's buffer, and for no others. */
  lemma MetaRoundTrip(path: bytes, offset: u32)
    requires IsCString(path)
    ensures ParseMeta(MetaText(path, offset)) == Some((path, offset))
       <==> NL !in path && (path != [] ==> path[|path| - 1] != CR) && |path| + 1 < MAXLINE
  {
    if NL in path {
      assert MetaText(path, offset) == path + [NL] + (Decimal(offset) + [NL]);
      TrimmedShorter(path, Decimal(offset) + [NL]);
    } else if |path| + 1 >= MAXLINE {
      LongPathRejected(path, offset);
    } else {
      MetaLines(path, offset);
      TrimNewline(path);
      NumberLine(offset);
    }
  }

  /** A path with a newline does not survive `fgets` and trimming. */
  lemma TrimmedShorter(path: bytes, rest: bytes)
    requires NL in path
    ensures TrimEol(CString(Fgets(path + [NL] + rest, MAXLINE))) != path
  {
    var text := path + [NL] + rest;
    FirstNewlineInside(path, rest);
    var line := Fgets(text, MAXLINE);
    var t := TrimEol(CString(line));
    assert |line| <= Find(text, NL) + 1;
    assert |t| == |path| ==> t == line;
  }

  lemma LongPathRejected(path: bytes, offset: u32)
    requires IsCString(path) && NL !in path && |path| + 1 >= MAXLINE
    ensures ParseMeta(MetaText(path, offset)) != Some((path, offset))
  {
    var text := MetaText(path, offset);
    assert text == path + [NL] + (Decimal(offset) + [NL]);
    FindSeparator(path, NL, Decimal(offset) + [NL]);
    var line := Fgets(text, MAXLINE);
    assert |line| == MAXLINE - 1;
    if |path| == MAXLINE - 1 {
      var rest := text[|line|..];
      assert rest == [] + [NL] + (Decimal(offset) + [NL]);
      FindSeparator([], NL, Decimal(offset) + [NL]);
      assert Fgets(rest, 64) == [NL];
      FindAbsent([NL], NUL);
      assert ScanNumber([NL]).end == 0;
    } else {
      assert |TrimEol(CString(line))| < |path|;
    }
  }

  // ----------------------------------------------------------- UPDATE payload

  /** `snprintf("%d\n%s")`, as built for an UPDATE request. */
  function UpdatePayload(kind: u32, path: bytes): bytes {
    Decimal(kind) + [NL] + path
  }

  /** The type is cast to a 32-bit enumeration after `strtol`. */
  function ParseUpdate(data: bytes): (r: Option<(u32, bytes)>)
  {
    var sep := Find(data, NL);
    if sep == |data| then None
    else
      var number := data[..sep];
      var (value, end) := Strtol(number);
      if end == 0 || end != |number| then None
      else Some((value % U32_LIMIT, data[sep + 1..]))
  }

  /** The UPDATE payload is inverted for every type and every path. */
  lemma UpdateRoundTrip(kind: u32, path: bytes)
    ensures ParseUpdate(UpdatePayload(kind, path)) == Some((kind, path))
  {
    assert NL !in Decimal(kind);
    FindSeparator(Decimal(kind), NL, path);
    ScanPrinted(kind, []);
    assert Decimal(kind) + [] == Decimal(kind);
  }
}
