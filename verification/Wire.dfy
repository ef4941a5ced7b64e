/**
 The structures exchanged on a connection and their images in memory, which
 is what is written to a socket: requests, responses, transfer headers and
 data blocks. A host stores integers in its own byte order and tags each
 structure with it.
 */
module Wire {
  import opened Bytes

  const BLOCK_SIZE: nat := 512
  const HEADER_BYTES: nat := 8
  const BLOCK_BYTES: nat := 516
  /** 4 bytes of type, one of order, the path, and 3 of padding. */
  const REQUEST_BYTES: nat := 8200
  const RESPONSE_BYTES: nat := 8194

  // Request types
  const GET: u32 := 0
  const PUT: u32 := 1
  const LS: u32 := 2
  const RM: u32 := 3
  const BYE: u32 := 4
  const RESUME: u32 := 5
  const UPDATE: u32 := 6

  // Error codes
  const NO_ERROR_R: byte := 0
  const PATH_ERROR_R: byte := 1
  const TYPE_ERROR_R: byte := 2
  const CLIENT_DISCONNECTED_R: byte := 4
  const OFFSET_ERROR_R: byte := 5

  // ------------------------------------------------------ integers in memory

  datatype Order = Little | Big

  /** `get_endianess`. */
  function Tag(o: Order): byte {
    if o.Big? then 1 else 0
  }

  /** Byte `i` of a 32-bit number, counted from the least significant. */
  function Lane(x: u32, i: nat): byte
    requires i < 4
  {
    (if i == 0 then x else if i == 1 then x / 0x100 else if i == 2 then x / 0x1_0000 else x / 0x100_0000) % 0x100
  }

  function FromLanes(a: byte, b: byte, c: byte, d: byte): u32 {
    a as int + 0x100 * b as int + 0x1_0000 * c as int + 0x100_0000 * d as int
  }

  lemma LanesOf(a: byte, b: byte, c: byte, d: byte)
    ensures var x := FromLanes(a, b, c, d);
            Lane(x, 0) == a && Lane(x, 1) == b && Lane(x, 2) == c && Lane(x, 3) == d
  {
    var x: int := FromLanes(a, b, c, d);
    DivMod(x, 0x100, b as int + 0x100 * c as int + 0x1_0000 * d as int, a);
    DivMod(x, 0x1_0000, c as int + 0x100 * d as int, a as int + 0x100 * b as int);
    DivMod(x, 0x100_0000, d, a as int + 0x100 * b as int + 0x1_0000 * c as int);
    DivMod(x / 0x100, 0x100, c as int + 0x100 * d as int, b);
    DivMod(x / 0x1_0000, 0x100, d, c);
  }

  lemma DivMod(x: int, m: int, q: int, r: int)
    requires m > 0 && x == m * q + r && 0 <= r < m
    ensures x / m == q && x % m == r
  {
    var q' := x / m;
    var r' := x % m;
    assert x == m * q' + r';
    assert m * (q - q') == r' - r;
    assert q - q' >= 1 ==> m * (q - q') >= m;
    assert q - q' <= -1 ==> m * (q - q') <= -m;
  }

  function U32Bytes(o: Order, x: u32): (s: bytes)
    ensures |s| == 4
  {
    if o.Little? then [Lane(x, 0), Lane(x, 1), Lane(x, 2), Lane(x, 3)]
    else [Lane(x, 3), Lane(x, 2), Lane(x, 1), Lane(x, 0)]
  }

  function ReadU32(o: Order, s: bytes): u32
    requires |s| == 4
  {
    if o.Little? then FromLanes(s[0], s[1], s[2], s[3]) else FromLanes(s[3], s[2], s[1], s[0])
  }

  function U16Bytes(o: Order, x: u16): (s: bytes)
    ensures |s| == 2
  {
    if o.Little? then [x % 0x100, x / 0x100] else [x / 0x100, x % 0x100]
  }

  function ReadU16(o: Order, s: bytes): u16
    requires |s| == 2
  {
    if o.Little? then s[0] as int + 0x100 * s[1] as int else s[1] as int + 0x100 * s[0] as int
  }

  lemma Quotients(x: u32)
    ensures x / 0x1_0000 == x / 0x100 / 0x100
    ensures x / 0x100_0000 == x / 0x100 / 0x100 / 0x100 < 0x100
  {
    var q1 := x / 0x100;
    var q2 := q1 / 0x100;
    var q3 := q2 / 0x100;
    assert 0x1_0000 * q2 <= x < 0x1_0000 * (q2 + 1);
    assert 0x100_0000 * q3 <= x < 0x100_0000 * (q3 + 1);
  }

  lemma LanesRebuild(x: u32)
    ensures FromLanes(Lane(x, 0), Lane(x, 1), Lane(x, 2), Lane(x, 3)) == x
  {
    Quotients(x);
    var q1 := x / 0x100;
    var q2 := q1 / 0x100;
    var q3 := q2 / 0x100;
    assert x == 0x100 * q1 + Lane(x, 0);
    assert q1 == 0x100 * q2 + Lane(x, 1);
    assert q2 == 0x100 * q3 + Lane(x, 2);
    assert q3 == Lane(x, 3);
  }

  lemma ShiftLeft(x: u32)
    ensures (x as int * 0x100) % 0x1_0000_0000 == (x % 0x100_0000) * 0x100
    ensures (x as int * 0x100_0000) % 0x1_0000_0000 == (x % 0x100) * 0x100_0000
  {
    DivMod(x as int * 0x100, 0x1_0000_0000, x / 0x100_0000, (x % 0x100_0000) * 0x100);
    DivMod(x as int * 0x100_0000, 0x1_0000_0000, x / 0x100, (x % 0x100) * 0x100_0000);
  }

  /** The shifts and masks of `swap_endian_request`, on an unsigned 32-bit
      value: a mask keeps one byte lane, and the four lanes do not overlap. */
  function Swap32(x: u32): u32 {
    var right24 := x / 0x100_0000;
    var left8 := (x as int * 0x100) % 0x1_0000_0000;
    var right8 := x / 0x100;
    var left24 := (x as int * 0x100_0000) % 0x1_0000_0000;
    ShiftLeft(x);
    right24 + Lane(left8, 2) as int * 0x1_0000 + Lane(right8, 1) as int * 0x100 + left24
  }

  /** The swap reverses the bytes, and so undoes itself. */
  lemma SwapReverses(x: u32)
    ensures Swap32(x) == FromLanes(Lane(x, 3), Lane(x, 2), Lane(x, 1), Lane(x, 0))
    ensures Swap32(Swap32(x)) == x
    ensures ReadU32(Big, U32Bytes(Little, x)) == Swap32(x) == ReadU32(Little, U32Bytes(Big, x))
  {
    hide Lane, Swap32, FromLanes;
    var a, b, c, d := Lane(x, 0), Lane(x, 1), Lane(x, 2), Lane(x, 3);
    LanesRebuild(x);
    SwapLanes(a, b, c, d);
    SwapLanes(d, c, b, a);
  }

  lemma SwapLanes(a: byte, b: byte, c: byte, d: byte)
    ensures Swap32(FromLanes(a, b, c, d)) == FromLanes(d, c, b, a)
  {
    hide Lane;
    var x := FromLanes(a, b, c, d);
    ShiftLeft(x);
    DivMod(x, 0x100_0000, d, a as int + 0x100 * b as int + 0x1_0000 * c as int);
    DivMod(x, 0x100, b as int + 0x100 * c as int + 0x1_0000 * d as int, a);
    assert (x % 0x100_0000) * 0x100 == FromLanes(0, a, b, c);
    LanesOf(0, a, b, c);
    assert x / 0x100 == FromLanes(b, c, d, 0);
    LanesOf(b, c, d, 0);
  }

  lemma U32RoundTrip(o: Order, x: u32)
    ensures ReadU32(o, U32Bytes(o, x)) == x
  {
    LanesRebuild(x);
  }

  // ---------------------------------------------------------------- requests

  datatype Request = Request(typereq: u32, endian: byte, path: bytes)

  ghost predicate RequestOk(r: Request) {
    |r.path| == MAXLINE
  }

  /** `strncpy(dst, src, MAXLINE - 1)` into a zeroed buffer of MAXLINE bytes. */
  function PathField(path: bytes): (f: bytes)
    ensures |f| == MAXLINE
  {
    var n := Min(|path|, MAXLINE - 1);
    path[..n] + Zeros(MAXLINE - n)
  }

  function EncodeRequest(o: Order, kind: u32, path: bytes): (r: Request)
    ensures RequestOk(r)
  {
    Request(kind, Tag(o), PathField(path))
  }

  /** Memory image of a request on a host of order `o`. */
  function RequestImage(o: Order, r: Request): (s: bytes)
    requires RequestOk(r)
    ensures |s| == REQUEST_BYTES
  {
    U32Bytes(o, r.typereq) + [r.endian] + r.path + Zeros(3)
  }

  function RequestFromImage(o: Order, s: bytes): (r: Request)
    requires |s| == REQUEST_BYTES
    ensures RequestOk(r)
  {
    Request(ReadU32(o, s[..4]), s[4], s[5..5 + MAXLINE])
  }

  /** `decode_request` on a host of order `o`: the type and the path. */
  function DecodeRequest(o: Order, r: Request): (u32, bytes)
    requires RequestOk(r)
  {
    (if r.endian != Tag(o) then Swap32(r.typereq) else r.typereq,
     CString(r.path[..MAXLINE - 1] + [NUL]))
  }

  /** The caller's `request_t`, filled and swapped in place. */
  class RequestStruct {
    var typereq: u32
    var endian: byte
    var path: array<byte>

    ghost predicate Valid()
      reads this
    {
      path.Length == MAXLINE
    }

    ghost function Contents(): (r: Request)
      requires Valid()
      reads this, path
      ensures RequestOk(r)
    {
      Request(typereq, endian, path[..])
    }

    constructor ()
      ensures Valid() && fresh(path)
    {
      typereq, endian := 0, 0;
      path := new byte[MAXLINE];
    }

    /** The structure as `read_request` fills it from the bytes received. */
    method Load(o: Order, image: bytes)
      requires Valid() && |image| == REQUEST_BYTES
      modifies this`typereq, this`endian, path
      ensures Valid() && Contents() == RequestFromImage(o, image)
    {
      typereq, endian := ReadU32(o, image[..4]), image[4];
      forall i | 0 <= i < MAXLINE {
        path[i] := image[5 + i];
      }
      assert path[..] == image[5..5 + MAXLINE];
    }

    /** `swap_endian_request`. */
    method SwapEndian()
      requires Valid()
      modifies this`typereq
      ensures Contents() == old(Contents()).(typereq := Swap32(old(typereq)))
    {
      var right24 := typereq / 0x100_0000;
      var left8 := (typereq as int * 0x100) % 0x1_0000_0000;
      var right8 := typereq / 0x100;
      var left24 := (typereq as int * 0x100_0000) % 0x1_0000_0000;
      ShiftLeft(typereq);
      typereq := right24 + Lane(left8, 2) as int * 0x1_0000 + Lane(right8, 1) as int * 0x100 + left24;
    }

    /** `encode_request`. */
    method Encode(o: Order, kind: u32, p: bytes)
      requires Valid()
      modifies this`typereq, this`endian, path
      ensures Valid() && Contents() == EncodeRequest(o, kind, p)
    {
      typereq, endian := kind, Tag(o);
      var n := Min(|p|, MAXLINE - 1);
      forall i | 0 <= i < MAXLINE {
        path[i] := if i < n then p[i] else NUL;
      }
      assert path[..] == PathField(p);
    }

    /** `decode_request`; it leaves the structure swapped. */
    method Decode(o: Order) returns (kind: u32, p: bytes)
      requires Valid()
      modifies this`typereq
      ensures Valid() && (kind, p) == DecodeRequest(o, old(Contents()))
      ensures kind == typereq
    {
      if endian != Tag(o) {
        SwapEndian();
      }
      return typereq, CString(path[..MAXLINE - 1] + [NUL]);
    }
  }

  lemma RequestImageRoundTrip(o: Order, r: Request)
    requires RequestOk(r)
    ensures RequestFromImage(o, RequestImage(o, r)) == r
  {
    var s := RequestImage(o, r);
    U32RoundTrip(o, r.typereq);
    assert s[..4] == U32Bytes(o, r.typereq);
    assert s[5..5 + MAXLINE] == r.path;
  }

  lemma PathFieldReadBack(path: bytes)
    requires IsCString(path)
    ensures CString(PathField(path)[..MAXLINE - 1] + [NUL]) == path[..Min(|path|, MAXLINE - 1)]
  {
    var n := Min(|path|, MAXLINE - 1);
    var f := PathField(path);
    assert f[..MAXLINE - 1] + [NUL] == path[..n] + Zeros(MAXLINE - n);
    CStringOfPadded(path[..n], MAXLINE - n);
  }

  /** Whatever the byte orders of the two hosts, the request decoded has the
      type that was encoded and its path, cut at MAXLINE - 1 characters. */
  lemma RequestRoundTrip(sender: Order, receiver: Order, kind: u32, path: bytes)
    requires IsCString(path)
    ensures var image := RequestImage(sender, EncodeRequest(sender, kind, path));
            DecodeRequest(receiver, RequestFromImage(receiver, image))
              == (kind, path[..Min(|path|, MAXLINE - 1)])
  {
    var r := EncodeRequest(sender, kind, path);
    var image := RequestImage(sender, r);
    RequestImageRoundTrip(sender, r);
    PathFieldReadBack(path);
    SwapReverses(kind);
    U32RoundTrip(sender, kind);
    assert image[..4] == U32Bytes(sender, kind);
    assert image[5..5 + MAXLINE] == r.path;
    assert RequestFromImage(receiver, image) == Request(ReadU32(receiver, U32Bytes(sender, kind)), Tag(sender), r.path);
  }

  // --------------------------------------------------------------- responses

  datatype Response = Response(endian: byte, content: bytes, error: byte)

  ghost predicate ResponseOk(r: Response) {
    |r.content| == MAXLINE
  }

  /** `encode_response`, with the error code the caller stores afterwards. */
  function EncodeResponse(o: Order, text: bytes, error: byte): (r: Response)
    ensures ResponseOk(r)
  {
    Response(Tag(o), PathField(text), error)
  }

  function ResponseImage(r: Response): (s: bytes)
    requires ResponseOk(r)
    ensures |s| == RESPONSE_BYTES
  {
    [r.endian] + r.content + [r.error]
  }

  /** `decode_response`: the text and the error code. */
  function DecodeResponse(s: bytes): (bytes, byte)
    requires |s| == RESPONSE_BYTES
  {
    (CString(s[1..MAXLINE] + [NUL]), s[RESPONSE_BYTES - 1])
  }

  lemma ResponseRoundTrip(o: Order, text: bytes, error: byte)
    requires IsCString(text) && |text| < MAXLINE
    ensures DecodeResponse(ResponseImage(EncodeResponse(o, text, error))) == (text, error)
  {
    var s := ResponseImage(EncodeResponse(o, text, error));
    assert s[1..MAXLINE] == PathField(text)[..MAXLINE - 1];
    PathFieldReadBack(text);
    assert text[..|text|] == text;
  }

  // ------------------------------------------------- headers and data blocks

  datatype Header = Header(total: u32, blockSize: u16, endian: byte, error: byte)

  function HeaderImage(o: Order, h: Header): (s: bytes)
    ensures |s| == HEADER_BYTES
  {
    U32Bytes(o, h.total) + U16Bytes(o, h.blockSize) + [h.endian, h.error]
  }

  /** The header `receive_transfer_header` makes of 8 bytes. A tag that is not
      the host's own makes `ntohl` and `ntohs` reverse the integers, which
      they do on a little-endian host only. */
  function HeaderFromImage(o: Order, s: bytes): Header
    requires |s| == HEADER_BYTES
  {
    var stored := if s[6] != Tag(o) && o.Little? then Big else o;
    Header(ReadU32(stored, s[..4]), ReadU16(stored, s[4..6]), s[6], s[7])
  }

  lemma HeaderRoundTrip(o: Order, h: Header)
    requires h.endian == Tag(o)
    ensures HeaderFromImage(o, HeaderImage(o, h)) == h
  {
    var s := HeaderImage(o, h);
    U32RoundTrip(o, h.total);
    assert s[..4] == U32Bytes(o, h.total);
    assert s[4..6] == U16Bytes(o, h.blockSize);
  }

  datatype Block = Block(num: u16, size: u16, data: bytes)

  /** `send_data_block`: the data is padded to BLOCK_SIZE with zeros. */
  function MakeBlock(num: u16, data: bytes): (b: Block)
    requires |data| <= BLOCK_SIZE
    ensures |b.data| == BLOCK_SIZE
  {
    Block(num, |data|, data + Zeros(BLOCK_SIZE - |data|))
  }

  function BlockImage(o: Order, b: Block): (s: bytes)
    requires |b.data| == BLOCK_SIZE
    ensures |s| == BLOCK_BYTES
  {
    U16Bytes(o, b.num) + U16Bytes(o, b.size) + b.data
  }

  function BlockFromImage(o: Order, s: bytes): (b: Block)
    requires |s| == BLOCK_BYTES
    ensures |b.data| == BLOCK_SIZE
  {
    Block(ReadU16(o, s[..2]), ReadU16(o, s[2..4]), s[4..])
  }

  lemma BlockRoundTrip(o: Order, b: Block)
    requires |b.data| == BLOCK_SIZE
    ensures BlockFromImage(o, BlockImage(o, b)) == b
  {
    var s := BlockImage(o, b);
    assert s[..2] == U16Bytes(o, b.num);
    assert s[2..4] == U16Bytes(o, b.size);
    assert s[4..] == b.data;
  }
}
