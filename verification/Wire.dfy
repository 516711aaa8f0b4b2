/** The packed structs that linux-file-server sends over its sockets, as bytes
    in little-endian order, and the C strings inside them. */
module Wire {

  type byte = x: int | 0 <= x < 256

  /** A C string; it ends at its first NUL. */
  type Name = seq<byte>

  predicate NulFree(s: seq<byte>) { 0 !in s }

  const U32_LIMIT := 0x1_0000_0000
  const U64_LIMIT := 0x1_0000_0000_0000_0000

  function U32(n: nat): (r: nat)
    ensures r < U32_LIMIT && r <= n
    ensures n < U32_LIMIT ==> r == n
  {
    n % U32_LIMIT
  }

  // ---- integers ----

  function Pow256(k: nat): (r: nat)
    ensures r > 0
  {
    if k == 0 then 1 else 256 * Pow256(k - 1)
  }

  function LittleEndian(n: nat, width: nat): (s: seq<byte>)
    ensures |s| == width
  {
    if width == 0 then [] else [n % 256] + LittleEndian(n / 256, width - 1)
  }

  function FromLittleEndian(s: seq<byte>): nat {
    if s == [] then 0 else s[0] + 256 * FromLittleEndian(s[1..])
  }

  lemma {:induction false} LittleEndianRoundTrip(n: nat, width: nat)
    requires n < Pow256(width)
    ensures FromLittleEndian(LittleEndian(n, width)) == n
  {
    if width == 0 {
    } else {
      LittleEndianRoundTrip(n / 256, width - 1);
      assert LittleEndian(n, width)[1..] == LittleEndian(n / 256, width - 1);
    }
  }

  lemma RoundTrip32(n: nat)
    requires n < U32_LIMIT
    ensures FromLittleEndian(LittleEndian(n, 4)) == n
  {
    assert Pow256(4) == 256 * (256 * (256 * Pow256(1)));
    LittleEndianRoundTrip(n, 4);
  }

  lemma RoundTrip64(n: nat)
    requires n < U64_LIMIT
    ensures FromLittleEndian(LittleEndian(n, 8)) == n
  {
    assert Pow256(4) == 256 * (256 * (256 * Pow256(1)));
    assert Pow256(8) == 256 * (256 * (256 * (256 * Pow256(4))));
    LittleEndianRoundTrip(n, 8);
  }

  // ---- fixed-size string fields ----

  const FIELD := 256

  function UpToNul(f: seq<byte>): (s: Name)
    ensures s <= f && NulFree(s) && (s == f || f[|s|] == 0)
    ensures NulFree(f) ==> s == f
  {
    if f == [] || f[0] == 0 then [] else [f[0]] + UpToNul(f[1..])
  }

  /** What strncpy(field, s, sizeof(field) - 1) into a zeroed field keeps. */
  function Cut(s: Name): (r: Name)
    ensures |r| < FIELD && NulFree(r) && r <= s
    ensures r == s || s[|r|] == 0 || |r| == FIELD - 1
    ensures |s| < FIELD && NulFree(s) ==> r == s
  {
    var c := UpToNul(s);
    if |c| < FIELD then c else c[..FIELD - 1]
  }

  function Field(s: Name): (f: seq<byte>)
    requires |s| < FIELD
    ensures |f| == FIELD
  {
    s + seq(FIELD - |s|, _ => 0)
  }

  lemma {:induction false} UpToNulPads(s: Name, rest: seq<byte>)
    requires NulFree(s) && rest != [] && rest[0] == 0
    ensures UpToNul(s + rest) == s
  {
    if s != [] {
      assert (s + rest)[1..] == s[1..] + rest;
      UpToNulPads(s[1..], rest);
    } else {
      assert s + rest == rest;
    }
  }

  lemma FieldRoundTrip(s: Name)
    requires |s| < FIELD && NulFree(s)
    ensures UpToNul(Field(s)) == s
  {
    UpToNulPads(s, seq(FIELD - |s|, _ => 0));
  }

  // ---- protocol_header_t and response_header_t ----

  datatype Request = Request(magic: nat, cmd: nat, dataLen: nat, checksum: nat, offset: nat, filename: Name)

  datatype Response = Response(status: nat, dataLen: nat, message: Name)

  const REQUEST_SIZE := 280
  const RESPONSE_SIZE := 264

  predicate ValidRequest(r: Request) {
    && r.magic < U32_LIMIT && r.cmd < U32_LIMIT && r.dataLen < U32_LIMIT && r.checksum < U32_LIMIT
    && r.offset < U64_LIMIT
    && |r.filename| < FIELD && NulFree(r.filename)
  }

  predicate ValidResponse(r: Response) {
    r.status < U32_LIMIT && r.dataLen < U32_LIMIT && |r.message| < FIELD && NulFree(r.message)
  }

  function EncodeRequest(r: Request): (s: seq<byte>)
    ensures |s| == REQUEST_SIZE
  {
    LittleEndian(r.magic, 4) + LittleEndian(r.cmd, 4) + LittleEndian(r.dataLen, 4)
    + LittleEndian(r.checksum, 4) + LittleEndian(r.offset, 8) + Field(Cut(r.filename))
  }

  function DecodeRequest(s: seq<byte>): Request
    requires |s| == REQUEST_SIZE
  {
    Request(FromLittleEndian(s[..4]), FromLittleEndian(s[4..8]), FromLittleEndian(s[8..12]),
            FromLittleEndian(s[12..16]), FromLittleEndian(s[16..24]), UpToNul(s[24..]))
  }

  function EncodeResponse(r: Response): (s: seq<byte>)
    ensures |s| == RESPONSE_SIZE
  {
    LittleEndian(r.status, 4) + LittleEndian(r.dataLen, 4) + Field(Cut(r.message))
  }

  function DecodeResponse(s: seq<byte>): Response
    requires |s| == RESPONSE_SIZE
  {
    Response(FromLittleEndian(s[..4]), FromLittleEndian(s[4..8]), UpToNul(s[8..]))
  }

  /** Where the fields of a protocol header lie. */
  lemma Layout(a: seq<byte>, b: seq<byte>, c: seq<byte>, d: seq<byte>, e: seq<byte>, f: seq<byte>)
    requires |a| == |b| == |c| == |d| == 4 && |e| == 8
    ensures var s := a + b + c + d + e + f;
            && s[..4] == a && s[4..8] == b && s[8..12] == c && s[12..16] == d
            && s[16..24] == e && s[24..] == f
  {
  }

  lemma {:induction false} LittleEndianBytes(n: nat, width: nat, i: nat)
    requires i < width
    ensures LittleEndian(n, width)[i] == n / Pow256(i) % 256
    decreases width
  {
    if i > 0 {
      LittleEndianBytes(n / 256, width - 1, i - 1);
      DivideTwice(n, 256, Pow256(i - 1));
    }
  }

  lemma DivideTwice(n: nat, a: nat, b: nat)
    requires a > 0 && b > 0 && a * b > 0
    ensures n / a / b == n / (a * b)
  {
    var q, r := n / a, n % a;
    var p, t := q / b, q % b;
    assert n == q * a + r && q == p * b + t;
    assert n == p * (a * b) + (t * a + r) by { Distribute(p, a, b, t); }
    assert 0 <= t * a + r < a * b by { Below(t, a, b, r); }
    Quotient(n, a * b, p, t * a + r);
  }

  lemma Distribute(p: nat, a: nat, b: nat, t: nat)
    ensures (p * b + t) * a == p * (a * b) + t * a
  {
  }

  lemma Below(t: nat, a: nat, b: nat, r: nat)
    requires t < b && r < a
    ensures t * a + r < a * b
  {
    assert (t + 1) * a <= b * a;
  }

  lemma Quotient(n: nat, m: nat, p: nat, r: nat)
    requires m > 0 && n == p * m + r && r < m
    ensures n / m == p
  {
    var d := n / m - p;
    assert d * m == n / m * m - p * m;
    SmallMultiple(d, m);
  }

  lemma SmallMultiple(d: int, m: nat)
    ensures d >= 1 ==> d * m >= m
    ensures d <= -1 ==> d * m <= 0 - m
  {
    if d >= 1 {
      assert (d - 1) * m >= 0;
    } else if d <= -1 {
      assert (-1 - d) * m >= 0;
    }
  }

  /** The header on the wire: four 32-bit fields, the offset in 64 bits, each with its
      lowest byte first, and the name in a field of 256 zeroed bytes. */
  lemma RequestBytes(r: Request, i: nat)
    requires ValidRequest(r)
    ensures var s := EncodeRequest(r);
            && |s| == 280
            && (i < 4 ==> s[i] == r.magic / Pow256(i) % 256 && s[4 + i] == r.cmd / Pow256(i) % 256
                          && s[8 + i] == r.dataLen / Pow256(i) % 256 && s[12 + i] == r.checksum / Pow256(i) % 256)
            && (i < 8 ==> s[16 + i] == r.offset / Pow256(i) % 256)
            && (i < 256 ==> s[24 + i] == if i < |r.filename| then r.filename[i] else 0)
  {
    var a, b, c, d := LittleEndian(r.magic, 4), LittleEndian(r.cmd, 4), LittleEndian(r.dataLen, 4), LittleEndian(r.checksum, 4);
    var e, f := LittleEndian(r.offset, 8), Field(r.filename);
    Layout(a, b, c, d, e, f);
    if i < 4 {
      LittleEndianBytes(r.magic, 4, i);
      LittleEndianBytes(r.cmd, 4, i);
      LittleEndianBytes(r.dataLen, 4, i);
      LittleEndianBytes(r.checksum, 4, i);
    }
    if i < 8 {
      LittleEndianBytes(r.offset, 8, i);
    }
    hide LittleEndian, Pow256;
    var s := a + b + c + d + e + f;
    assert s == EncodeRequest(r);
    if i < 4 {
      assert s[i] == s[..4][i] && s[4 + i] == s[4..8][i] && s[8 + i] == s[8..12][i] && s[12 + i] == s[12..16][i];
    }
    assert i < 8 ==> s[16 + i] == s[16..24][i];
    assert i < 256 ==> s[24 + i] == s[24..][i];
  }

  /** ... and the response: two 32-bit fields and the text. */
  lemma ResponseBytes(r: Response, i: nat)
    requires ValidResponse(r)
    ensures var s := EncodeResponse(r);
            && |s| == 264
            && (i < 4 ==> s[i] == r.status / Pow256(i) % 256 && s[4 + i] == r.dataLen / Pow256(i) % 256)
            && (i < 256 ==> s[8 + i] == if i < |r.message| then r.message[i] else 0)
  {
    if i < 4 {
      LittleEndianBytes(r.status, 4, i);
      LittleEndianBytes(r.dataLen, 4, i);
    }
    hide LittleEndian, Pow256;
  }

  lemma RequestRoundTrip(r: Request)
    requires ValidRequest(r)
    ensures DecodeRequest(EncodeRequest(r)) == r
  {
    RoundTrip32(r.magic);
    RoundTrip32(r.cmd);
    RoundTrip32(r.dataLen);
    RoundTrip32(r.checksum);
    RoundTrip64(r.offset);
    FieldRoundTrip(r.filename);
    Layout(LittleEndian(r.magic, 4), LittleEndian(r.cmd, 4), LittleEndian(r.dataLen, 4),
           LittleEndian(r.checksum, 4), LittleEndian(r.offset, 8), Field(r.filename));
  }

  lemma ResponseRoundTrip(r: Response)
    requires ValidResponse(r)
    ensures DecodeResponse(EncodeResponse(r)) == r
  {
    var s := EncodeResponse(r);
    RoundTrip32(r.status);
    RoundTrip32(r.dataLen);
    FieldRoundTrip(r.message);
    assert s[..4] == LittleEndian(r.status, 4);
    assert s[4..8] == LittleEndian(r.dataLen, 4);
    assert s[8..] == Field(r.message);
  }
}
