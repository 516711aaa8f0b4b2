/** The percent codec of web-server/src/http.c (sections 2.1 and 2.3 of RFC 3986).
    A C string is a sequence of bytes without NUL; a destination is an array. */
module UrlCodec {
  import opened Wire

  const PERCENT: byte := 0x25
  const PLUS: byte := 0x2B
  const MINUS: byte := 0x2D
  const SPACE: byte := 0x20

  predicate IsAlnum(c: byte) { 0x30 <= c <= 0x39 || 0x41 <= c <= 0x5A || 0x61 <= c <= 0x7A }

  predicate Unreserved(c: byte) { IsAlnum(c) || c == MINUS || c == 0x5F || c == 0x2E || c == 0x7E }

  function HexChar(d: nat): byte
    requires d < 16
  {
    if d < 10 then 0x30 + d else 0x41 + (d - 10)
  }

  /** The value of a hexadecimal digit, or 16. */
  function Digit(c: byte): (d: nat)
    ensures d <= 16
  {
    if 0x30 <= c <= 0x39 then c - 0x30
    else if 0x41 <= c <= 0x46 then c - 0x41 + 10
    else if 0x61 <= c <= 0x66 then c - 0x61 + 10
    else 16
  }

  /** strtol(hex, NULL, 16) on two characters, cut to a char: blanks and a sign may
      stand first, and reading ends at the first character that is no digit. */
  function Strtol(a: byte, b: byte): byte {
    if Digit(a) < 16 then
      if Digit(b) < 16 then 16 * Digit(a) + Digit(b) else Digit(a)
    else if Digit(b) == 16 then 0
    else if a == PLUS || a == SPACE || 9 <= a <= 13 then Digit(b)
    else if a == MINUS then (256 - Digit(b)) % 256
    else 0
  }

  // ---- without a size limit ----

  function Piece(c: byte): (s: seq<byte>)
    ensures 1 <= |s| <= 3
  {
    if Unreserved(c) then [c] else [PERCENT, HexChar(c / 16), HexChar(c % 16)]
  }

  function Encode(s: seq<byte>): seq<byte> {
    if s == [] then [] else Piece(s[0]) + Encode(s[1..])
  }

  /** How much of the input the next decoded byte takes. */
  function Width(s: seq<byte>): (n: nat)
    requires s != []
    ensures 1 <= n <= |s|
  {
    if s[0] == PERCENT && |s| > 2 then 3 else 1
  }

  function DecodeOne(s: seq<byte>): byte
    requires s != []
  {
    if Width(s) == 3 then Strtol(s[1], s[2]) else if s[0] == PLUS then SPACE else s[0]
  }

  function Decode(s: seq<byte>): seq<byte> {
    if s == [] then [] else [DecodeOne(s)] + Decode(s[Width(s)..])
  }

  lemma PieceDecodes(c: byte, rest: seq<byte>)
    ensures var s := Piece(c) + rest; DecodeOne(s) == c && s[Width(s)..] == rest
  {
  }

  /** Decoding undoes encoding, for every byte string. */
  lemma {:induction false} DecodeEncode(s: seq<byte>)
    ensures Decode(Encode(s)) == s
  {
    if s == [] {
    } else {
      PieceDecodes(s[0], Encode(s[1..]));
      DecodeEncode(s[1..]);
    }
  }

  /** The encoding of a C string is a C string, at most three times as long. */
  lemma {:induction false} EncodeShape(s: seq<byte>)
    ensures |s| <= |Encode(s)| <= 3 * |s|
    ensures NulFree(s) ==> NulFree(Encode(s))
  {
    if s == [] {
    } else {
      EncodeShape(s[1..]);
      assert NulFree(s) ==> NulFree(s[1..]);
      assert s[0] != 0 ==> 0 !in Piece(s[0]);
    }
  }

  // ---- the alphabet, by code points ----

  /** Sections 2.1 and 2.3 of RFC 3986: letters, digits and four marks stand for themselves;
      any other byte is a percent sign and two upper-case hexadecimal digits of its value. */
  ghost predicate Spells(out: seq<byte>, c: byte) {
    if 48 <= c <= 57 || 65 <= c <= 90 || 97 <= c <= 122 || c == 45 || c == 95 || c == 46 || c == 126 then
      out == [c]
    else
      && |out| == 3 && out[0] == 37 && UpperHex(out[1]) && UpperHex(out[2])
      && c == 16 * HexValue(out[1]) + HexValue(out[2])
  }

  predicate UpperHex(d: byte) { 48 <= d <= 57 || 65 <= d <= 70 }

  function HexValue(d: byte): int { if d <= 57 then d - 48 else d - 55 }

  /** out spells s byte by byte. */
  ghost predicate SpellsAll(out: seq<byte>, s: seq<byte>)
    decreases |s|
  {
    if s == [] then out == []
    else exists n :: 0 < n <= |out| && Spells(out[..n], s[0]) && SpellsAll(out[n..], s[1..])
  }

  lemma PieceSpells(c: byte)
    ensures Spells(Piece(c), c)
  {
  }

  lemma {:induction false} EncodeSpells(s: seq<byte>)
    ensures SpellsAll(Encode(s), s)
  {
    if s == [] {
    } else {
      var piece, rest := Piece(s[0]), Encode(s[1..]);
      EncodeSpells(s[1..]);
      PieceSpells(s[0]);
      hide Spells, Piece;
      assert (piece + rest)[..|piece|] == piece && (piece + rest)[|piece|..] == rest;
    }
  }

  /** There is only one spelling, so this says what the encoder writes. */
  lemma SpellingIsUnique(a: seq<byte>, b: seq<byte>, c: byte)
    requires Spells(a, c) && Spells(b, c)
    ensures a == b
  {
  }

  lemma {:induction false} AllSpellingsAreEqual(a: seq<byte>, b: seq<byte>, s: seq<byte>)
    requires SpellsAll(a, s) && SpellsAll(b, s)
    ensures a == b
    decreases |s|
  {
    hide Spells, SpellsAll;
    if s == [] {
      SpelledNothing(a);
      SpelledNothing(b);
    } else {
      var m := FirstSpelling(a, s);
      var n := FirstSpelling(b, s);
      SpellingIsUnique(a[..m], b[..n], s[0]);
      AllSpellingsAreEqual(a[m..], b[n..], s[1..]);
      assert a == a[..m] + a[m..] && b == b[..n] + b[n..];
    }
  }

  lemma SpelledNothing(a: seq<byte>)
    requires SpellsAll(a, [])
    ensures a == []
  {
  }

  lemma FirstSpelling(a: seq<byte>, s: seq<byte>) returns (n: nat)
    requires s != [] && SpellsAll(a, s)
    ensures 0 < n <= |a| && Spells(a[..n], s[0]) && SpellsAll(a[n..], s[1..])
  {
    hide Spells;
    n :| 0 < n <= |a| && Spells(a[..n], s[0]) && SpellsAll(a[n..], s[1..]);
  }

  /** A decoder reads plus as a blank, a percent sign and two digits of either case as their
      value, and anything else as itself. */
  lemma DecodeReads(s: seq<byte>)
    requires s != []
    ensures s[0] == 43 ==> Decode(s) == [32] + Decode(s[1..])
    ensures s[0] != 43 && s[0] != 37 ==> Decode(s) == [s[0]] + Decode(s[1..])
    ensures s[0] == 37 && |s| <= 2 ==> Decode(s) == [37] + Decode(s[1..])
    ensures s[0] == 37 && |s| > 2 && AnyHex(s[1]) && AnyHex(s[2]) ==>
              Decode(s) == [16 * AnyValue(s[1]) + AnyValue(s[2])] + Decode(s[3..])
    ensures s[0] == 37 && |s| > 2 && AnyHex(s[1]) && !AnyHex(s[2]) ==> Decode(s) == [AnyValue(s[1])] + Decode(s[3..])
    ensures s[0] == 37 && |s| > 2 && !AnyHex(s[1]) && !AnyHex(s[2]) ==> Decode(s) == [0] + Decode(s[3..])
  {
    hide Decode, Strtol, AnyHex, AnyValue;
    DecodeUnfolds(s);
    if |s| > 2 {
      StrtolReads(s[1], s[2]);
    }
  }

  lemma DecodeUnfolds(s: seq<byte>)
    requires s != []
    ensures Decode(s) == [DecodeOne(s)] + Decode(s[Width(s)..])
  {
  }

  lemma StrtolReads(a: byte, b: byte)
    ensures AnyHex(a) && AnyHex(b) ==> Strtol(a, b) == 16 * AnyValue(a) + AnyValue(b)
    ensures AnyHex(a) && !AnyHex(b) ==> Strtol(a, b) == AnyValue(a)
    ensures !AnyHex(a) && !AnyHex(b) ==> Strtol(a, b) == 0
    ensures (a == 32 || a == 43 || 9 <= a <= 13) && AnyHex(b) ==> Strtol(a, b) == AnyValue(b)
    ensures a == 45 && AnyHex(b) ==> Strtol(a, b) == (if AnyValue(b) == 0 then 0 else 256 - AnyValue(b))
  {
  }

  predicate AnyHex(d: byte) { 48 <= d <= 57 || 65 <= d <= 70 || 97 <= d <= 102 }

  function AnyValue(d: byte): (v: int)
    ensures AnyHex(d) ==> 0 <= v < 16
  {
    if d <= 57 then d - 48 else if d <= 70 then d - 55 else d - 87
  }

  // ---- with the destination's size ----

  /** What the encoder writes from position j on: a byte whose triple does not fit is
      passed over. */
  function EncodeWithin(s: seq<byte>, size: nat, j: nat): seq<byte> {
    if s == [] || j + 1 >= size then []
    else if Unreserved(s[0]) then [s[0]] + EncodeWithin(s[1..], size, j + 1)
    else if j + 3 < size then Piece(s[0]) + EncodeWithin(s[1..], size, j + 3)
    else EncodeWithin(s[1..], size, j)
  }

  /** The bytes that are not passed over. */
  function Surviving(s: seq<byte>, size: nat, j: nat): seq<byte> {
    if s == [] || j + 1 >= size then []
    else if j + |Piece(s[0])| < size then [s[0]] + Surviving(s[1..], size, j + |Piece(s[0])|)
    else Surviving(s[1..], size, j)
  }

  predicate Subsequence(a: seq<byte>, b: seq<byte>) {
    if a == [] then true
    else if b == [] then false
    else Subsequence(a, b[1..]) || (a[0] == b[0] && Subsequence(a[1..], b[1..]))
  }

  /** No triple is split: the output is the whole encoding of the surviving bytes,
      which are a subsequence of the input, and it stays inside the destination. */
  lemma {:induction false} WholePieces(s: seq<byte>, size: nat, j: nat)
    requires j < size
    ensures EncodeWithin(s, size, j) == Encode(Surviving(s, size, j))
    ensures Subsequence(Surviving(s, size, j), s)
    ensures j + |EncodeWithin(s, size, j)| < size
  {
    if s == [] || j + 1 == size {
    } else {
      hide EncodeWithin, Encode, Surviving, Subsequence;
      var n := |Piece(s[0])|;
      if j + n < size {
        WholePieces(s[1..], size, j + n);
        OneSurvives(s, size, j);
      } else {
        WholePieces(s[1..], size, j);
        NoneSurvives(s, size, j);
      }
    }
  }

  lemma OneSurvives(s: seq<byte>, size: nat, j: nat)
    requires s != [] && j + |Piece(s[0])| < size
    ensures var n, rest := |Piece(s[0])|, s[1..];
            && Surviving(s, size, j) == [s[0]] + Surviving(rest, size, j + n)
            && EncodeWithin(s, size, j) == Piece(s[0]) + EncodeWithin(rest, size, j + n)
            && Encode(Surviving(s, size, j)) == Piece(s[0]) + Encode(Surviving(rest, size, j + n))
            && (Subsequence(Surviving(rest, size, j + n), rest) ==> Subsequence(Surviving(s, size, j), s))
  {
    var kept := Surviving(s[1..], size, j + |Piece(s[0])|);
    assert ([s[0]] + kept)[1..] == kept;
    hide Surviving;
  }

  lemma NoneSurvives(s: seq<byte>, size: nat, j: nat)
    requires s != [] && j + 1 < size <= j + |Piece(s[0])|
    ensures Surviving(s, size, j) == Surviving(s[1..], size, j) && EncodeWithin(s, size, j) == EncodeWithin(s[1..], size, j)
    ensures Subsequence(Surviving(s[1..], size, j), s[1..]) ==> Subsequence(Surviving(s, size, j), s)
  {
  }

  /** The bytes survive one by one: the next one does exactly when its spelling fits behind
      what is written. */
  lemma {:induction false} SurvivesIfItFits(s: seq<byte>, c: byte, size: nat, j: nat)
    requires j < size
    ensures var used := j + |EncodeWithin(s, size, j)|;
            Surviving(s + [c], size, j) == Surviving(s, size, j) + if used + |Piece(c)| < size then [c] else []
    decreases |s|
  {
    hide EncodeWithin, Surviving, Piece;
    if s == [] || j + 1 == size {
      LastByte(s, c, size, j);
    } else {
      assert (s + [c])[1..] == s[1..] + [c];
      var n := |Piece(s[0])|;
      if j + n < size {
        SurvivesIfItFits(s[1..], c, size, j + n);
        OneSurvives(s, size, j);
        OneSurvives(s + [c], size, j);
      } else {
        SurvivesIfItFits(s[1..], c, size, j);
        NoneSurvives(s, size, j);
        NoneSurvives(s + [c], size, j);
      }
    }
  }

  lemma LastByte(s: seq<byte>, c: byte, size: nat, j: nat)
    requires j < size && (s == [] || j + 1 == size)
    ensures Surviving(s, size, j) == [] && EncodeWithin(s, size, j) == []
    ensures Surviving(s + [c], size, j) == if j + |Piece(c)| < size then [c] else []
  {
    if s == [] {
      assert (s + [c])[1..] == [];
    }
  }

  /** Nothing is passed over exactly when the whole encoding and its NUL fit. */
  lemma {:induction false} AllSurvive(s: seq<byte>, size: nat, j: nat)
    requires j < size
    ensures Surviving(s, size, j) == s <==> j + |Encode(s)| < size
  {
    if j + |Encode(s)| < size {
      if s != [] {
        AllSurvive(s[1..], size, j + |Piece(s[0])|);
      }
    } else {
      WholePieces(s, size, j);
    }
  }

  function DecodeWithin(s: seq<byte>, size: nat, j: nat): seq<byte>
    decreases |s|
  {
    if s == [] || j + 1 >= size then [] else [DecodeOne(s)] + DecodeWithin(s[Width(s)..], size, j + 1)
  }

  /** A short destination receives the first bytes of the decoding. */
  lemma {:induction false} DecodesPrefix(s: seq<byte>, size: nat, j: nat)
    requires j < size
    ensures DecodeWithin(s, size, j) <= Decode(s)
    ensures |DecodeWithin(s, size, j)| == if |Decode(s)| < size - j then |Decode(s)| else size - j - 1
    decreases |s|
  {
    if s == [] || j + 1 == size {
    } else {
      DecodesPrefix(s[Width(s)..], size, j + 1);
    }
  }

  /** Decoding what the encoder wrote gives the surviving bytes back, whatever the size
      of the encoder's destination. */
  lemma ShortBuffer(s: seq<byte>, encodeSize: nat, decodeSize: nat)
    requires encodeSize > 0 && decodeSize > |s|
    ensures var t := DecodeWithin(EncodeWithin(s, encodeSize, 0), decodeSize, 0);
            && t == Surviving(s, encodeSize, 0) && Subsequence(t, s)
            && (t == s <==> |Encode(s)| < encodeSize)
    ensures NulFree(s) ==> NulFree(EncodeWithin(s, encodeSize, 0))
  {
    var kept := Surviving(s, encodeSize, 0);
    WholePieces(s, encodeSize, 0);
    AllSurvive(s, encodeSize, 0);
    DecodeEncode(kept);
    SubsequenceKeeps(kept, s);
    DecodesPrefix(Encode(kept), decodeSize, 0);
    EncodeShape(kept);
  }

  /** A short destination can lose a byte in the middle: the surviving bytes need not be
      a prefix. */
  lemma DropsFromTheMiddle()
    ensures Surviving([PERCENT, 0x61], 3, 0) == [0x61] && !([0x61] <= [PERCENT, 0x61])
  {
    var s: seq<byte> := [PERCENT, 0x61];
    assert s[1..] == [0x61];
    assert Surviving(s, 3, 0) == Surviving(s[1..], 3, 0);
    assert Surviving(s[1..], 3, 0) == [0x61] + Surviving(s[1..][1..], 3, 1);
  }

  lemma {:induction false} SubsequenceKeeps(a: seq<byte>, b: seq<byte>)
    requires Subsequence(a, b)
    ensures |a| <= |b| && (NulFree(b) ==> NulFree(a))
  {
    if a == [] {
    } else {
      assert NulFree(b) ==> NulFree(b[1..]);
      if Subsequence(a, b[1..]) {
        SubsequenceKeeps(a, b[1..]);
      } else {
        SubsequenceKeeps(a[1..], b[1..]);
      }
    }
  }

  /** The round trip of the two functions on destinations of the documented size. */
  lemma RoundTrip(s: seq<byte>, encodeSize: nat, decodeSize: nat)
    requires encodeSize >= 3 * |s| + 1 && decodeSize >= |s| + 1
    ensures DecodeWithin(EncodeWithin(s, encodeSize, 0), decodeSize, 0) == s
  {
    EncodeShape(s);
    ShortBuffer(s, encodeSize, decodeSize);
  }

  // ---- the loops ----

  lemma EncodeStep(s: seq<byte>, size: nat, j: nat, before: seq<byte>)
    requires s != [] && j + 1 < size
    ensures var n := Advance(s[0], size, j);
            before + EncodeWithin(s, size, j) == before + Piece(s[0])[..n] + EncodeWithin(s[1..], size, j + n)
  {
    assert Piece(s[0])[..|Piece(s[0])|] == Piece(s[0]);
  }

  lemma EncodeEnd(s: seq<byte>, size: nat, j: nat, before: seq<byte>)
    requires s == [] || j + 1 >= size
    ensures before + EncodeWithin(s, size, j) == before
  {
  }

  lemma DecodeEnd(s: seq<byte>, size: nat, j: nat, before: seq<byte>)
    requires s == [] || j + 1 >= size
    ensures before + DecodeWithin(s, size, j) == before
  {
  }

  lemma DecodeStep(s: seq<byte>, size: nat, j: nat, before: seq<byte>)
    requires s != [] && j + 1 < size
    ensures before + DecodeWithin(s, size, j) == before + [DecodeOne(s)] + DecodeWithin(s[Width(s)..], size, j + 1)
  {
  }

  /** How many bytes one input byte adds at position j. */
  function Advance(c: byte, size: nat, j: nat): (n: nat)
    ensures n <= |Piece(c)|
  {
    if j + |Piece(c)| < size then |Piece(c)| else 0
  }

  /** The body of the encoder's loop. */
  method PutPiece(dst: array<byte>, j: nat, c: byte) returns (k: nat)
    requires j + 1 < dst.Length
    modifies dst
    ensures k == j + Advance(c, dst.Length, j) < dst.Length
    ensures dst[..k] == old(dst[..j]) + Piece(c)[..k - j]
    ensures forall i :: k <= i < dst.Length ==> dst[i] == old(dst[i])
  {
    k := j;
    if Unreserved(c) {
      dst[k] := c;
      k := k + 1;
    } else if j + 3 < dst.Length {
      dst[k], dst[k + 1], dst[k + 2] := PERCENT, HexChar(c / 16), HexChar(c % 16);
      k := k + 3;
    }
  }

  /** http_url_encode */
  method UrlEncode(src: seq<byte>, dst: array<byte>) returns (j: nat)
    requires NulFree(src) && dst.Length > 0
    modifies dst
    ensures j < dst.Length && dst[..j] == EncodeWithin(src, dst.Length, 0) && dst[j] == 0
    ensures SpellsAll(dst[..j], Surviving(src, dst.Length, 0)) && Subsequence(Surviving(src, dst.Length, 0), src)
    ensures forall k :: j < k < dst.Length ==> dst[k] == old(dst[k])
  {
    hide EncodeWithin, Piece, Advance;
    var i := 0;
    j := 0;
    ghost var out := EncodeWithin(src, dst.Length, 0);
    assert src[0..] == src && dst[..0] + out == out;
    while i < |src| && j < dst.Length - 1
      invariant i <= |src| && j < dst.Length
      invariant dst[..j] + EncodeWithin(src[i..], dst.Length, j) == out
      invariant forall k :: j <= k < dst.Length ==> dst[k] == old(dst[k])
    {
      EncodeStep(src[i..], dst.Length, j, dst[..j]);
      assert src[i..][1..] == src[i + 1..];
      j := PutPiece(dst, j, src[i]);
      i := i + 1;
    }
    EncodeEnd(src[i..], dst.Length, j, dst[..j]);
    WholePieces(src, dst.Length, 0);
    EncodeSpells(Surviving(src, dst.Length, 0));
    hide SpellsAll, Surviving, Subsequence, Encode;
    dst[j] := 0;
  }

  /** http_url_decode */
  method UrlDecode(src: seq<byte>, dst: array<byte>) returns (j: nat)
    requires NulFree(src) && dst.Length > 0
    modifies dst
    ensures j < dst.Length && dst[..j] == DecodeWithin(src, dst.Length, 0) && dst[j] == 0
    ensures forall k :: j < k < dst.Length ==> dst[k] == old(dst[k])
  {
    hide DecodeWithin;
    var i := 0;
    j := 0;
    ghost var out := DecodeWithin(src, dst.Length, 0);
    assert src[0..] == src && dst[..0] + out == out;
    while i < |src| && j < dst.Length - 1
      invariant i <= |src| && j < dst.Length
      invariant dst[..j] + DecodeWithin(src[i..], dst.Length, j) == out
      invariant forall k :: j <= k < dst.Length ==> dst[k] == old(dst[k])
    {
      ghost var s, before := src[i..], dst[..j];
      DecodeStep(s, dst.Length, j, before);
      ghost var one, width := DecodeOne(s), Width(s);
      if src[i] == PERCENT && i + 1 < |src| && i + 2 < |src| {
        dst[j] := Strtol(src[i + 1], src[i + 2]);
        i := i + 3;
      } else if src[i] == PLUS {
        dst[j] := SPACE;
        i := i + 1;
      } else {
        dst[j] := src[i];
        i := i + 1;
      }
      assert dst[j] == one;
      assert s[width..] == src[i..];
      hide DecodeOne, Width;
      j := j + 1;
      assert dst[..j] == before + [one];
    }
    DecodeEnd(src[i..], dst.Length, j, dst[..j]);
    dst[j] := 0;
  }
}
