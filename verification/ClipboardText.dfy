/** The clipboard text validator and chunk header of plank_clipboard_wire.h. */
module ClipboardText {
  import opened Bytes
  import opened Wrappers

  const TEXT_LIMIT: nat := 512 * 1024

  // --------------------------------------------------- UTF-8, section 3 of RFC 3629

  /** A Unicode scalar value other than NUL. */
  predicate Scalar(c: nat) {
    1 <= c <= 0x10ffff && !(0xd800 <= c <= 0xdfff)
  }

  function Encode(c: nat): (r: seq<byte>)
    requires Scalar(c)
    ensures 1 <= |r| <= 4
  {
    if c < 0x80 then [c]
    else if c < 0x800 then [0xc0 + c / 64, 0x80 + c % 64]
    else if c < 0x10000 then [0xe0 + c / 4096, 0x80 + c / 64 % 64, 0x80 + c % 64]
    else [0xf0 + c / 262144, 0x80 + c / 4096 % 64, 0x80 + c / 64 % 64, 0x80 + c % 64]
  }

  ghost predicate Scalars(text: seq<nat>) {
    forall k | 0 <= k < |text| :: Scalar(text[k])
  }

  ghost function EncodeAll(text: seq<nat>): seq<byte>
    requires Scalars(text)
  {
    if text == [] then [] else Encode(text[0]) + EncodeAll(text[1..])
  }

  /** The wire format's promise: scalar-valid UTF-8 without NUL, within the limit. */
  ghost predicate WellFormed(p: seq<byte>) {
    1 <= |p| <= TEXT_LIMIT && exists text: seq<nat> :: Scalars(text) && EncodeAll(text) == p
  }

  // ------------------------------------------------------------------- the validator

  function Extra(c: byte): nat {
    if 0xc2 <= c <= 0xdf then 1 else if 0xe0 <= c <= 0xef then 2 else if 0xf0 <= c <= 0xf4 then 3 else 0
  }

  /** The second byte is out of the range its first byte leaves open. */
  predicate BadSecond(c: byte, second: byte) {
    || (c == 0xe0 && second < 0xa0) || (c == 0xed && second > 0x9f)
    || (c == 0xf0 && second < 0x90) || (c == 0xf4 && second > 0x8f)
  }

  /** The top two bits are 10. */
  predicate Continuation(b: byte) {
    b / 64 == 2
  }

  predicate Continuations(p: seq<byte>, i: nat, n: nat)
    requires i + n <= |p|
  {
    forall k | i <= k < i + n :: Continuation(p[k])
  }

  /** Where the validator is after the character at i; i itself when it gives up. */
  function Step(p: seq<byte>, i: nat): (next: nat)
    requires i < |p|
    ensures i <= next <= |p|
  {
    var c := p[i];
    if c == 0 then i
    else if c < 0x80 then i + 1
    else
      var extra := Extra(c);
      if extra == 0 || extra > |p| - (i + 1) || BadSecond(c, p[i + 1]) then i
      else if Continuations(p, i + 1, extra) then i + 1 + extra
      else i
  }

  function Accepts(p: seq<byte>, i: nat): bool
    requires i <= |p|
    decreases |p| - i
  {
    i == |p| || (Step(p, i) > i && Accepts(p, Step(p, i)))
  }

  /** The scalar value of one accepted character. */
  function Decode(b: seq<byte>): nat
    requires 1 <= |b| <= 4
  {
    if |b| == 1 then b[0]
    else if |b| == 2 then (b[0] as int % 32) * 64 + b[1] as int % 64
    else if |b| == 3 then (b[0] as int % 16) * 4096 + (b[1] as int % 64) * 64 + b[2] as int % 64
    else (b[0] as int % 8) * 262144 + (b[1] as int % 64) * 4096 + (b[2] as int % 64) * 64 + b[3] as int % 64
  }

  /** Two, three and four bytes as numbers: what they decode to, and back. */
  lemma {:induction false} TwoBytes(a: int, b: int)
    requires 0xc2 <= a <= 0xdf && b / 64 == 2
    ensures var v := a % 32 * 64 + b % 64;
            0x80 <= v < 0x800 && 0xc0 + v / 64 == a && 0x80 + v % 64 == b
  {
  }

  lemma {:induction false} ThreeBytes(a: int, b: int, c: int)
    requires 0xe0 <= a <= 0xef && b / 64 == 2 && c / 64 == 2
    requires !(a == 0xe0 && b < 0xa0) && !(a == 0xed && b > 0x9f)
    ensures var v := a % 16 * 4096 + b % 64 * 64 + c % 64;
            && 0x800 <= v < 0x10000 && !(0xd800 <= v <= 0xdfff)
            && 0xe0 + v / 4096 == a && 0x80 + v / 64 % 64 == b && 0x80 + v % 64 == c
  {
    var v := (a - 0xe0) * 4096 + (b - 0x80) * 64 + (c - 0x80);
    assert v / 64 == (a - 0xe0) * 64 + (b - 0x80);
  }

  lemma {:induction false} FourBytes(a: int, b: int, c: int, d: int)
    requires 0xf0 <= a <= 0xf4 && b / 64 == 2 && c / 64 == 2 && d / 64 == 2
    requires !(a == 0xf0 && b < 0x90) && !(a == 0xf4 && b > 0x8f)
    ensures var v := a % 8 * 262144 + b % 64 * 4096 + c % 64 * 64 + d % 64;
            && 0x10000 <= v <= 0x10ffff
            && 0xf0 + v / 262144 == a && 0x80 + v / 4096 % 64 == b && 0x80 + v / 64 % 64 == c && 0x80 + v % 64 == d
  {
    var a', b', c', d' := a - 0xf0, b - 0x80, c - 0x80, d - 0x80;
    assert a % 8 == a';
    Remainder(b);
    Remainder(c);
    Remainder(d);
    FourDigits(a', b', c', d');
  }

  lemma {:induction false} Remainder(b: int)
    requires b / 64 == 2
    ensures b % 64 == b - 0x80 && 0x80 <= b < 0xc0
  {
  }

  lemma {:induction false} FourDigits(a: nat, b: nat, c: nat, d: nat)
    requires b < 64 && c < 64 && d < 64
    ensures var v := a * 262144 + b * 4096 + c * 64 + d;
            v / 262144 == a && v / 4096 % 64 == b && v / 64 % 64 == c && v % 64 == d
  {
    var v := a * 262144 + b * 4096 + c * 64 + d;
    assert v / 64 == a * 4096 + b * 64 + c;
    assert v / 4096 == a * 64 + b;
  }

  lemma {:induction false} CharacterIsScalar(b: seq<byte>)
    requires 1 <= |b| <= 4 && (if |b| == 1 then 0 < b[0] < 0x80 else |b| == 1 + Extra(b[0]) && !BadSecond(b[0], b[1]))
    requires Continuations(b, 1, |b| - 1)
    ensures Scalar(Decode(b)) && Encode(Decode(b)) == b
  {
    if |b| == 2 {
      assert Continuation(b[1]);
      TwoBytes(b[0], b[1]);
    } else if |b| == 3 {
      assert Continuation(b[1]) && Continuation(b[2]);
      ThreeBytes(b[0], b[1], b[2]);
    } else if |b| == 4 {
      assert Continuation(b[1]) && Continuation(b[2]) && Continuation(b[3]);
      FourBytes(b[0], b[1], b[2], b[3]);
    }
  }

  lemma {:induction false} StepIsOneCharacter(p: seq<byte>, i: nat)
    requires i < |p| && Step(p, i) > i
    ensures 1 <= Step(p, i) - i <= 4
    ensures Scalar(Decode(p[i..Step(p, i)])) && Encode(Decode(p[i..Step(p, i)])) == p[i..Step(p, i)]
  {
    CharacterIsScalar(p[i..Step(p, i)]);
  }

  /** And the other way round. */
  lemma {:induction false} TwoParts(c: nat)
    requires 0x80 <= c < 0x800
    ensures (0xc0 + c / 64) % 32 * 64 + (0x80 + c % 64) % 64 == c && 0xc2 <= 0xc0 + c / 64 <= 0xdf
  {
  }

  lemma {:induction false} ThreeParts(c: nat)
    requires 0x800 <= c < 0x10000 && Scalar(c)
    ensures (0xe0 + c / 4096) % 16 * 4096 + (0x80 + c / 64 % 64) % 64 * 64 + (0x80 + c % 64) % 64 == c
    ensures 0xe0 <= 0xe0 + c / 4096 <= 0xef
    ensures !(c / 4096 == 0 && c / 64 % 64 < 0x20) && !(c / 4096 == 0xd && c / 64 % 64 > 0x1f)
  {
    var x := c / 64;
    assert c / 4096 == x / 64;
  }

  lemma {:induction false} FourParts(c: nat)
    requires 0x10000 <= c <= 0x10ffff
    ensures (0xf0 + c / 262144) % 8 * 262144 + (0x80 + c / 4096 % 64) % 64 * 4096
            + (0x80 + c / 64 % 64) % 64 * 64 + (0x80 + c % 64) % 64 == c
    ensures 0xf0 <= 0xf0 + c / 262144 <= 0xf4
    ensures !(c / 262144 == 0 && c / 4096 % 64 < 0x10) && !(c / 262144 == 4 && c / 4096 % 64 > 0xf)
  {
    var x, y := c / 64, c / 4096;
    assert y == x / 64 && c / 262144 == y / 64;
  }

  lemma {:induction false} EncodedCharacter(c: nat)
    requires Scalar(c)
    ensures var b := Encode(c);
            && Decode(b) == c && Continuations(b, 1, |b| - 1)
            && (if |b| == 1 then 0 < b[0] < 0x80 else |b| == 1 + Extra(b[0]) && !BadSecond(b[0], b[1]))
  {
    if c < 0x80 {
    } else if c < 0x800 {
      TwoParts(c);
    } else if c < 0x10000 {
      ThreeParts(c);
    } else {
      FourByteCharacter(c);
    }
  }

  lemma {:induction false} FourByteCharacter(c: nat)
    requires Scalar(c) && c >= 0x10000
    ensures var b := Encode(c);
            Decode(b) == c && Continuations(b, 1, 3) && |b| == 4 == 1 + Extra(b[0]) && !BadSecond(b[0], b[1])
  {
    FourParts(c);
  }

  lemma {:induction false} CharacterIsAccepted(p: seq<byte>, i: nat, c: nat)
    requires Scalar(c) && i + |Encode(c)| <= |p| && p[i..i + |Encode(c)|] == Encode(c)
    ensures Step(p, i) == i + |Encode(c)| && Decode(Encode(c)) == c
  {
    EncodedCharacter(c);
    hide Encode, Decode;
    var b := Encode(c);
    assert p[i] == p[i..i + |b|][0] && (|b| > 1 ==> p[i + 1] == p[i..i + |b|][1]);
    forall k | i + 1 <= k < i + |b| ensures Continuation(p[k]) {
      assert p[k] == b[k - i];
    }
  }

  lemma {:induction false} AcceptedIsText(p: seq<byte>, i: nat) returns (text: seq<nat>)
    requires i <= |p| && Accepts(p, i)
    ensures Scalars(text) && EncodeAll(text) == p[i..]
    decreases |p| - i
  {
    if i == |p| {
      text := [];
    } else {
      var next := Step(p, i);
      StepIsOneCharacter(p, i);
      var rest := AcceptedIsText(p, next);
      var c := Decode(p[i..next]);
      text := [c] + rest;
      assert text[1..] == rest;
      assert p[i..] == p[i..next] + p[next..];
    }
  }

  lemma {:induction false} NonEmpty(c: nat)
    requires Scalar(c)
    ensures Encode(c) != []
  {
  }

  lemma {:induction false} TextIsAccepted(p: seq<byte>, i: nat, text: seq<nat>)
    requires Scalars(text) && i <= |p| && p[i..] == EncodeAll(text)
    ensures Accepts(p, i)
    decreases |text|
  {
    if text != [] {
      var b := Encode(text[0]);
      NonEmpty(text[0]);
      assert p[i..] == b + EncodeAll(text[1..]);
      hide Encode, EncodeAll, Step, Scalar;
      PartAt(p, i, b, EncodeAll(text[1..]));
      CharacterIsAccepted(p, i, text[0]);
      TextIsAccepted(p, i + |b|, text[1..]);
    }
  }

  /** The text is determined by its bytes: no two scalar sequences share an encoding. */
  lemma {:induction false} EncodingIsUnique(a: seq<nat>, b: seq<nat>)
    requires Scalars(a) && Scalars(b) && EncodeAll(a) == EncodeAll(b)
    ensures a == b
    decreases |a|
  {
    if a != [] && b != [] {
      var p := EncodeAll(a);
      assert p[0..|Encode(a[0])|] == Encode(a[0]) && p[0..|Encode(b[0])|] == Encode(b[0]);
      CharacterIsAccepted(p, 0, a[0]);
      CharacterIsAccepted(p, 0, b[0]);
      assert p[|Encode(a[0])|..] == EncodeAll(a[1..]) == EncodeAll(b[1..]);
      EncodingIsUnique(a[1..], b[1..]);
    }
  }

  /** The validator decides exactly the promised language. */
  lemma {:induction false} AcceptsExactly(p: seq<byte>)
    ensures WellFormed(p) <==> 1 <= |p| <= TEXT_LIMIT && Accepts(p, 0)
  {
    assert p[0..] == p;
    if 1 <= |p| <= TEXT_LIMIT && Accepts(p, 0) {
      var text := AcceptedIsText(p, 0);
    }
    if WellFormed(p) {
      var text: seq<nat> :| Scalars(text) && EncodeAll(text) == p;
      TextIsAccepted(p, 0, text);
    }
  }

  /** plank_clipboard_valid_text, on a non-null buffer. */
  method ValidText(p: seq<byte>) returns (valid: bool)
    ensures valid <==> WellFormed(p)
  {
    AcceptsExactly(p);
    if |p| == 0 || |p| > TEXT_LIMIT {
      return false;
    }
    var i := 0;
    while i < |p|
      invariant i <= |p| && Accepts(p, 0) == Accepts(p, i)
      decreases |p| - i
    {
      ghost var start := i;
      var c := p[i];
      i := i + 1;
      if c == 0 {
        return false;
      }
      if c < 0x80 {
        continue;
      }
      var extra := if 0xc2 <= c <= 0xdf then 1 else if 0xe0 <= c <= 0xef then 2 else if 0xf0 <= c <= 0xf4 then 3 else 0;
      if extra == 0 || extra > |p| - i {
        return false;
      }
      if (c == 0xe0 && p[i] < 0xa0) || (c == 0xed && p[i] > 0x9f) || (c == 0xf0 && p[i] < 0x90)
          || (c == 0xf4 && p[i] > 0x8f) {
        return false;
      }
      for n := 0 to extra
        invariant i == start + 1 + n
        invariant Continuations(p, start + 1, n)
      {
        if p[i] / 64 != 2 {
          assert !Continuation(p[i]);
          return false;
        }
        i := i + 1;
      }
    }
    return true;
  }

  // ------------------------------------------------------------------ chunk headers

  const HEADER_BYTES: nat := 32
  const MAGIC: nat := 0x504c4342
  const FIRST: nat := 1
  const LAST: nat := 2

  datatype Chunk = Chunk(generation: nat, total: nat, offset: nat, flags: nat, bytes: seq<byte>)

  /** The width of the C fields. */
  predicate Fits(generation: nat, total: nat, offset: nat, size: nat) {
    generation < 0x1_0000_0000_0000_0000 && total < 0x1_0000_0000 && offset < 0x1_0000_0000 && size < 0x1_0000_0000
  }

  function Flags(total: nat, offset: nat, size: nat): (f: nat)
    ensures f <= 3
  {
    (if offset == 0 then FIRST else 0) + (if (offset + size) % 0x1_0000_0000 == total then LAST else 0)
  }

  function Layout(flags: nat, generation: nat, total: nat, offset: nat, size: nat): (h: seq<byte>)
    ensures |h| == HEADER_BYTES
  {
    ToLittleEndian(MAGIC, 4) + ToLittleEndian(1, 2) + ToLittleEndian(0, 2) + ToLittleEndian(flags, 4)
    + ToLittleEndian(generation, 8) + ToLittleEndian(total, 4) + ToLittleEndian(offset, 4) + ToLittleEndian(size, 4)
  }

  function Header(generation: nat, total: nat, offset: nat, size: nat): (h: seq<byte>)
    ensures |h| == HEADER_BYTES
  {
    Layout(Flags(total, offset, size), generation, total, offset, size)
  }

  predicate Acceptable(c: Chunk, size: nat, limit: nat) {
    && c.generation != 0 && c.flags <= 3 && 0 < c.total <= TEXT_LIMIT
    && 0 < size <= limit && c.offset <= c.total && size <= c.total - c.offset
    && (c.flags % 2 == 1 ==> c.offset == 0)
    && (c.flags / 2 == 1 <==> c.offset + size == c.total)
  }

  /** plank_clipboard_decode; the 32-bit sum of offset and size cannot wrap here. */
  function DecodeChunk(p: seq<byte>, limit: nat): Option<Chunk> {
    if |p| < HEADER_BYTES then None
    else
      var size := LittleEndian(p[28..32]);
      var c := Chunk(LittleEndian(p[12..20]), LittleEndian(p[20..24]), LittleEndian(p[24..28]),
                     LittleEndian(p[8..12]), p[HEADER_BYTES..]);
      if && LittleEndian(p[0..4]) == MAGIC && LittleEndian(p[4..6]) == 1 && LittleEndian(p[6..8]) == 0
         && Acceptable(c, size, limit) && |p| == HEADER_BYTES + size
      then Some(c) else None
  }

  /** The eight fields of a header, read back. */
  lemma {:induction false} HeaderFields(flags: nat, generation: nat, total: nat, offset: nat, size: nat,
                                        rest: seq<byte>)
    requires Fits(generation, total, offset, size) && flags < 0x1_0000_0000
    ensures var p := Layout(flags, generation, total, offset, size) + rest;
            && LittleEndian(p[0..4]) == MAGIC && LittleEndian(p[4..6]) == 1 && LittleEndian(p[6..8]) == 0
            && LittleEndian(p[8..12]) == flags && LittleEndian(p[12..20]) == generation
            && LittleEndian(p[20..24]) == total && LittleEndian(p[24..28]) == offset && LittleEndian(p[28..32]) == size
            && p[32..] == rest
  {
    Powers();
    LittleEndianWrites(MAGIC, 4);
    LittleEndianWrites(1, 2);
    LittleEndianWrites(0, 2);
    LittleEndianWrites(flags, 4);
    LittleEndianWrites(generation, 8);
    LittleEndianWrites(total, 4);
    LittleEndianWrites(offset, 4);
    LittleEndianWrites(size, 4);
    hide LittleEndian, ToLittleEndian, Pow256;
    var f1, f2, f3, f4 := ToLittleEndian(MAGIC, 4), ToLittleEndian(1, 2), ToLittleEndian(0, 2),
      ToLittleEndian(flags, 4);
    var f5, f6, f7, f8 := ToLittleEndian(generation, 8), ToLittleEndian(total, 4), ToLittleEndian(offset, 4),
      ToLittleEndian(size, 4);
    var p := Layout(flags, generation, total, offset, size) + rest;
    hide Layout;
    ShapeOfEight(f1, f2, f3, f4, f5, f6, f7, f8, rest);
    PartAt(p, 0, f1, f2 + (f3 + (f4 + (f5 + (f6 + (f7 + (f8 + rest)))))));
    PartAt(p, 4, f2, f3 + (f4 + (f5 + (f6 + (f7 + (f8 + rest))))));
    PartAt(p, 6, f3, f4 + (f5 + (f6 + (f7 + (f8 + rest)))));
    PartAt(p, 8, f4, f5 + (f6 + (f7 + (f8 + rest))));
    PartAt(p, 12, f5, f6 + (f7 + (f8 + rest)));
    PartAt(p, 20, f6, f7 + (f8 + rest));
    PartAt(p, 24, f7, f8 + rest);
    PartAt(p, 28, f8, rest);
  }

  /** What is written is accepted exactly when it describes a part of a text within
      the limits, and then it comes back unchanged. */
  lemma {:induction false} WrittenChunkDecodes(generation: nat, total: nat, offset: nat, bytes: seq<byte>, limit: nat)
    requires Fits(generation, total, offset, |bytes|)
    ensures var r := DecodeChunk(Header(generation, total, offset, |bytes|) + bytes, limit);
            && (r.Some? <==>
                  && generation != 0
                  && 0 < total <= TEXT_LIMIT
                  && 0 < |bytes| <= limit
                  && offset + |bytes| <= total)
            && (r.Some? ==> r.value == Chunk(generation, total, offset, Flags(total, offset, |bytes|), bytes))
  {
    HeaderFields(Flags(total, offset, |bytes|), generation, total, offset, |bytes|, bytes);
    AcceptableAsWritten(generation, total, offset, bytes, limit);
    hide Layout, LittleEndian, Fits, Acceptable, Flags;
  }

  lemma {:induction false} AcceptableAsWritten(generation: nat, total: nat, offset: nat, bytes: seq<byte>, limit: nat)
    requires Fits(generation, total, offset, |bytes|)
    ensures Acceptable(Chunk(generation, total, offset, Flags(total, offset, |bytes|), bytes), |bytes|, limit)
       <==> generation != 0 && 0 < total <= TEXT_LIMIT && 0 < |bytes| <= limit && offset + |bytes| <= total
  {
  }

  lemma {:induction false} FieldsDetermine(p: seq<byte>, i: nat, j: nat)
    requires i <= j <= |p|
    ensures LittleEndian(p[i..j]) < Pow256(j - i) && p[i..j] == ToLittleEndian(LittleEndian(p[i..j]), j - i)
  {
    LittleEndianReads(p[i..j]);
  }

  function Piece(p: seq<byte>, i: nat, j: nat): seq<byte>
    requires i <= j <= |p|
  {
    ToLittleEndian(LittleEndian(p[i..j]), j - i)
  }

  lemma {:induction false} PieceNext(p: seq<byte>, i: nat, j: nat)
    requires i <= j <= |p|
    ensures p[..j] == p[..i] + Piece(p, i, j)
  {
    FieldsDetermine(p, i, j);
    Adjacent(p, i, j);
  }

  lemma {:induction false} HeaderIsFields(p: seq<byte>)
    requires |p| >= HEADER_BYTES
    ensures p[..32] == Piece(p, 0, 4) + Piece(p, 4, 6) + Piece(p, 6, 8) + Piece(p, 8, 12)
                       + Piece(p, 12, 20) + Piece(p, 20, 24) + Piece(p, 24, 28) + Piece(p, 28, 32)
  {
    hide Piece;
    PieceNext(p, 0, 4);
    assert p[..0] + Piece(p, 0, 4) == Piece(p, 0, 4);
    PieceNext(p, 4, 6);
    PieceNext(p, 6, 8);
    PieceNext(p, 8, 12);
    PieceNext(p, 12, 20);
    PieceNext(p, 20, 24);
    PieceNext(p, 24, 28);
    PieceNext(p, 28, 32);
  }

  lemma {:induction false} FieldsFit(p: seq<byte>, limit: nat)
    requires DecodeChunk(p, limit).Some?
    ensures var c := DecodeChunk(p, limit).value;
            Fits(c.generation, c.total, c.offset, |c.bytes|) && c.flags < 0x1_0000_0000
  {
    Powers();
    FieldsDetermine(p, 8, 12);
    FieldsDetermine(p, 12, 20);
    FieldsDetermine(p, 20, 24);
    FieldsDetermine(p, 24, 28);
    FieldsDetermine(p, 28, 32);
    hide LittleEndian, ToLittleEndian, Pow256, Acceptable;
  }

  lemma {:induction false} RecordIsLayout(p: seq<byte>, limit: nat)
    requires DecodeChunk(p, limit).Some?
    ensures var c := DecodeChunk(p, limit).value;
            && Fits(c.generation, c.total, c.offset, |c.bytes|) && c.flags < 0x1_0000_0000
            && p == Layout(c.flags, c.generation, c.total, c.offset, |c.bytes|) + c.bytes
  {
    FieldsFit(p, limit);
    HeaderIsFields(p);
    hide LittleEndian, ToLittleEndian, Acceptable, Fits;
    assert p == p[..32] + p[32..];
  }

  /** The decoder is almost canonical: an accepted record is the encoder's own
      rendering of its chunk unless it starts a text without saying so. */
  lemma {:induction false} AcceptedChunkIsCanonical(p: seq<byte>, limit: nat)
    requires DecodeChunk(p, limit).Some?
    ensures var c := DecodeChunk(p, limit).value;
            p == Header(c.generation, c.total, c.offset, |c.bytes|) + c.bytes <==> (c.offset == 0 ==> c.flags % 2 == 1)
  {
    var c := DecodeChunk(p, limit).value;
    RecordIsLayout(p, limit);
    assert Acceptable(c, |c.bytes|, limit);
    FlagsAsSent(c, limit);
    var sent := Flags(c.total, c.offset, |c.bytes|);
    HeaderFields(sent, c.generation, c.total, c.offset, |c.bytes|, c.bytes);
    HeaderFields(c.flags, c.generation, c.total, c.offset, |c.bytes|, c.bytes);
    hide Layout, LittleEndian, Acceptable, Flags, DecodeChunk;
  }

  lemma {:induction false} FlagsAsSent(c: Chunk, limit: nat)
    requires Acceptable(c, |c.bytes|, limit)
    ensures c.flags == Flags(c.total, c.offset, |c.bytes|) <==> (c.offset == 0 ==> c.flags % 2 == 1)
  {
  }

  /** Such records exist: any text sent in one chunk without the first flag. */
  lemma {:induction false} UnflaggedFirstChunk(generation: nat, text: seq<byte>) returns (p: seq<byte>)
    requires 0 < generation < 0x1_0000_0000_0000_0000 && 1 <= |text| <= TEXT_LIMIT
    ensures DecodeChunk(p, |text|) == Some(Chunk(generation, |text|, 0, LAST, text))
    ensures p != Header(generation, |text|, 0, |text|) + text
  {
    var size := |text|;
    p := Layout(LAST, generation, size, 0, size) + text;
    HeaderFields(LAST, generation, size, 0, size, text);
    HeaderFields(Flags(size, 0, size), generation, size, 0, size, text);
    hide Layout, LittleEndian;
  }

  // ------------------------------------------------------------- the buffer writes

  lemma {:induction false} LittleEndianSnoc(p: seq<byte>, b: byte)
    ensures LittleEndian(p + [b]) == LittleEndian(p) + Pow256(|p|) * b
  {
    if p != [] {
      LittleEndianSnoc(p[1..], b);
      assert (p + [b])[1..] == p[1..] + [b];
    }
  }

  /** plank_clipboard_read_le: the shifted bytes do not overlap, so "or" is a sum. */
  method ReadLittleEndian(p: array<byte>, at: nat, n: nat) returns (value: nat)
    requires at + n <= p.Length
    ensures value == LittleEndian(p[at..at + n])
  {
    value := 0;
    for i := 0 to n
      invariant value == LittleEndian(p[at..at + i])
    {
      LittleEndianSnoc(p[at..at + i], p[at + i]);
      assert p[at..at + i + 1] == p[at..at + i] + [p[at + i]];
      value := value + Pow256(i) * p[at + i] as int;
    }
  }

  lemma {:induction false} ToLittleEndianAt(v: nat, n: nat, i: nat)
    requires i < n
    ensures ToLittleEndian(v, n)[i] == v / Pow256(i) % 256
  {
    if i > 0 {
      ToLittleEndianAt(v / 256, n - 1, i - 1);
      DivideTwice(v, 256, Pow256(i - 1));
    }
  }

  /** plank_clipboard_write_le. */
  method WriteLittleEndian(p: array<byte>, at: nat, value: nat, n: nat)
    requires at + n <= p.Length
    modifies p
    ensures p[..] == Splice(old(p[..]), at, ToLittleEndian(value, n))
  {
    for i := 0 to n
      invariant forall k | 0 <= k < p.Length ::
                  p[k] == if at <= k < at + i then ToLittleEndian(value, n)[k - at] else old(p[k])
    {
      ToLittleEndianAt(value, n, i);
      p[at + i] := value / Pow256(i) % 256;
    }
  }

  lemma {:induction false} SpliceAppends(whole: seq<byte>, at: nat, part: seq<byte>, done: seq<byte>)
    requires at + |part| <= |whole| && whole[..at] == done
    ensures Splice(whole, at, part)[..at + |part|] == done + part
    ensures Splice(whole, at, part)[at + |part|..] == whole[at + |part|..]
  {
  }

  /** plank_clipboard_header: 32 bytes of the caller's buffer, and no others. */
  method WriteHeader(p: array<byte>, generation: nat, total: nat, offset: nat, size: nat)
    requires p.Length >= HEADER_BYTES && Fits(generation, total, offset, size)
    modifies p
    ensures p[..] == Header(generation, total, offset, size) + old(p[HEADER_BYTES..])
  {
    hide ToLittleEndian;
    var flags := Flags(total, offset, size);
    ghost var done: seq<byte> := [];
    ghost var tail := p[HEADER_BYTES..];
    done := WriteField(p, 0, MAGIC, 4, done);
    done := WriteField(p, 4, 1, 2, done);
    done := WriteField(p, 6, 0, 2, done);
    done := WriteField(p, 8, flags, 4, done);
    done := WriteField(p, 12, generation, 8, done);
    done := WriteField(p, 20, total, 4, done);
    done := WriteField(p, 24, offset, 4, done);
    done := WriteField(p, 28, size, 4, done);
    assert p[..] == p[..32] + p[32..];
  }

  /** One field, behind the fields written before it. */
  method WriteField(p: array<byte>, at: nat, value: nat, n: nat, ghost done: seq<byte>)
    returns (ghost written: seq<byte>)
    requires at + n <= p.Length && p[..at] == done
    modifies p
    ensures written == done + ToLittleEndian(value, n) && p[..at + n] == written
    ensures p[at + n..] == old(p[at + n..])
    ensures p.Length >= HEADER_BYTES && at + n <= HEADER_BYTES ==> p[HEADER_BYTES..] == old(p[HEADER_BYTES..])
  {
    ghost var whole := p[..];
    assert whole[..at] == done;
    WriteLittleEndian(p, at, value, n);
    SpliceAppends(whole, at, ToLittleEndian(value, n), done);
    written := done + ToLittleEndian(value, n);
    assert p[..at + n] == p[..][..at + n];
    assert p[at + n..] == p[..][at + n..] == whole[at + n..];
    if p.Length >= HEADER_BYTES && at + n <= HEADER_BYTES {
      assert p[HEADER_BYTES..] == p[at + n..][HEADER_BYTES - at - n..];
      assert whole[HEADER_BYTES..] == whole[at + n..][HEADER_BYTES - at - n..];
    }
  }
}
