/** The C side of the camera records: headers read from and written into byte arrays. */
module Words {
  import opened Bytes
  import opened Layouts

  function ReadU16(p: seq<byte>, at: nat): u16
    requires at + 2 <= |p|
  {
    p[at] as int * 0x100 + p[at + 1] as int
  }

  function ReadU32(p: seq<byte>, at: nat): u32
    requires at + 4 <= |p|
  {
    p[at] as int * 0x100_0000 + p[at + 1] as int * 0x1_0000 + p[at + 2] as int * 0x100 + p[at + 3] as int
  }

  function ReadU64(p: seq<byte>, at: nat): u64
    requires at + 8 <= |p|
  {
    ReadU32(p, at) * 0x1_0000_0000 + ReadU32(p, at + 4)
  }

  lemma {:induction false} BigEndianSnoc(p: seq<byte>, b: byte)
    ensures BigEndian(p + [b]) == 256 * BigEndian(p) + b
  {
    assert (p + [b])[..|p|] == p;
  }

  lemma {:induction false} BigEndianAppend(p: seq<byte>, q: seq<byte>)
    ensures BigEndian(p + q) == BigEndian(p) * Pow256(|q|) + BigEndian(q)
    decreases |q|
  {
    if q == [] {
      assert p + q == p;
    } else {
      var n := |q| - 1;
      var b := q[n];
      BigEndianAppend(p, q[..n]);
      assert q == q[..n] + [b] && p + q == (p + q[..n]) + [b];
      BigEndianSnoc(p + q[..n], b);
      BigEndianSnoc(q[..n], b);
      assert Pow256(|q|) == 256 * Pow256(n);
      hide BigEndian, Pow256;
      Horner(BigEndian(p), Pow256(n), BigEndian(q[..n]), b as int);
    }
  }

  lemma {:induction false} Horner(upper: nat, power: nat, lower: nat, b: nat)
    ensures 256 * (upper * power + lower) + b == upper * (256 * power) + (256 * lower + b)
  {
    assert upper * (256 * power) == 256 * (upper * power);
  }

  lemma {:induction false} U8(p: seq<byte>, at: nat)
    requires at < |p|
    ensures BigEndian(p[at..at + 1]) == p[at] as int
  {
    var q := p[at..at + 1];
    assert q == [] + [p[at]];
    BigEndianSnoc([], p[at]);
    assert BigEndian([]) == 0;
  }

  /** The shifted bytes are the big-endian number. */
  lemma {:induction false} U16(p: seq<byte>, at: nat)
    requires at + 2 <= |p|
    ensures BigEndian(p[at..at + 2]) == ReadU16(p, at)
  {
    U8(p, at);
    hide BigEndian;
    assert p[at..at + 2] == p[at..at + 1] + [p[at + 1]];
    BigEndianSnoc(p[at..at + 1], p[at + 1]);
  }

  lemma {:induction false} U32(p: seq<byte>, at: nat)
    requires at + 4 <= |p|
    ensures BigEndian(p[at..at + 4]) == ReadU32(p, at)
  {
    U16(p, at);
    hide BigEndian;
    assert p[at..at + 3] == p[at..at + 2] + [p[at + 2]];
    BigEndianSnoc(p[at..at + 2], p[at + 2]);
    assert p[at..at + 4] == p[at..at + 3] + [p[at + 3]];
    BigEndianSnoc(p[at..at + 3], p[at + 3]);
  }

  lemma {:induction false} U64(p: seq<byte>, at: nat)
    requires at + 8 <= |p|
    ensures BigEndian(p[at..at + 8]) == ReadU64(p, at)
  {
    U32(p, at);
    U32(p, at + 4);
    Powers();
    hide BigEndian, ReadU32, Pow256;
    assert p[at..at + 8] == p[at..at + 4] + p[at + 4..at + 8];
    BigEndianAppend(p[at..at + 4], p[at + 4..at + 8]);
  }

  lemma {:induction false} LastByte(v: nat, upper: nat, power: nat, lower: nat)
    requires v == upper * (256 * power) + lower && lower < 256 * power
    ensures v / 256 == upper * power + lower / 256 && v % 256 == lower % 256 && lower / 256 < power
  {
    ByteOf(v, upper * power, lower);
  }

  lemma {:induction false} ByteOf(v: nat, p: nat, lower: nat)
    requires v == 256 * p + lower
    ensures v / 256 == p + lower / 256 && v % 256 == lower % 256
  {
  }

  lemma {:induction false} ToBigEndianAppend(v: nat, upper: nat, lower: nat, m: nat, n: nat)
    requires lower < Pow256(n) && v == upper * Pow256(n) + lower
    ensures ToBigEndian(v, m + n) == ToBigEndian(upper, m) + ToBigEndian(lower, n)
    decreases n
  {
    if n == 0 {
      assert v == upper;
    } else {
      var power := Pow256(n - 1);
      assert Pow256(n) == 256 * power;
      hide Pow256;
      LastByte(v, upper, power, lower);
      ToBigEndianAppend(v / 256, upper, lower / 256, m, n - 1);
      Regroup(ToBigEndian(upper, m), ToBigEndian(lower / 256, n - 1), [v % 256]);
    }
  }

  lemma {:induction false} TwoBytes(v: u16)
    ensures ToBigEndian(v, 2) == [v / 0x100, v % 0x100]
  {
    assert ToBigEndian(v / 256, 1) == [v / 256 % 256];
  }

  lemma {:induction false} FourBytes(v: u32)
    ensures ToBigEndian(v, 4) == [v / 0x100_0000, v / 0x1_0000 % 0x100, v / 0x100 % 0x100, v % 0x100]
  {
    assert ToBigEndian(v, 4) == ToBigEndian(v / 256, 3) + [v % 256];
    assert ToBigEndian(v / 256, 3) == ToBigEndian(v / 256 / 256, 2) + [v / 256 % 256];
    TwoBytes(v / 256 / 256);
  }

  method WriteU16(p: array<byte>, at: nat, value: u16)
    requires at + 2 <= p.Length
    modifies p
    ensures p[..] == Splice(old(p[..]), at, ToBigEndian(value, 2))
  {
    TwoBytes(value);
    p[at] := value / 0x100;
    p[at + 1] := value % 0x100;
  }

  method WriteU32(p: array<byte>, at: nat, value: u32)
    requires at + 4 <= p.Length
    modifies p
    ensures p[..] == Splice(old(p[..]), at, ToBigEndian(value, 4))
  {
    FourBytes(value);
    hide ToBigEndian;
    p[at] := value / 0x100_0000;
    p[at + 1] := value / 0x1_0000 % 0x100;
    p[at + 2] := value / 0x100 % 0x100;
    p[at + 3] := value % 0x100;
  }

  /** Two words, the upper one first. */
  method WriteU64(p: array<byte>, at: nat, value: u64)
    requires at + 8 <= p.Length
    modifies p
    ensures p[..] == Splice(old(p[..]), at, ToBigEndian(value, 8))
  {
    ghost var whole := p[..];
    var upper, lower := value / 0x1_0000_0000, value % 0x1_0000_0000;
    WriteU32(p, at, upper);
    WriteU32(p, at + 4, lower);
    EightBytes(value);
    hide ToBigEndian, Splice;
    SpliceTwice(whole, at, ToBigEndian(upper, 4), ToBigEndian(lower, 4));
  }

  lemma {:induction false} EightBytes(v: u64)
    ensures ToBigEndian(v, 8) == ToBigEndian(v / 0x1_0000_0000, 4) + ToBigEndian(v % 0x1_0000_0000, 4)
  {
    Powers();
    hide ToBigEndian, Pow256;
    ToBigEndianAppend(v, v / 0x1_0000_0000, v % 0x1_0000_0000, 4, 4);
  }
}

/** Filling a zeroed header of 64 bytes field by field. */
module Headers {
  import opened Bytes
  import opened Layouts
  import opened Words

  const SIZE: nat := 64

  /** The first k fields are written, the rest of the header is zero. */
  ghost predicate Filled(p: seq<byte>, layout: seq<Field>, v: seq<nat>, k: nat) {
    && |layout| == |v| && k <= |layout| && Contiguous(layout) && End(layout[..k]) <= SIZE <= |p|
    && p[..End(layout[..k])] == Write(layout[..k], v[..k])
    && forall i | End(layout[..k]) <= i < SIZE :: p[i] == 0
  }

  /** Field k of a header. */
  ghost predicate Slot(layout: seq<Field>, v: seq<nat>, k: nat, at: nat, value: nat, width: nat) {
    && |layout| == |v| && k < |layout| && Contiguous(layout)
    && layout[k] == Field(at, width) && v[k] == value && at + width <= SIZE
  }

  lemma {:induction false} EndAt(layout: seq<Field>, k: nat)
    requires Contiguous(layout) && k < |layout|
    ensures End(layout[..k]) == layout[k].at && End(layout[..k + 1]) == layout[k].at + layout[k].width
  {
    assert layout[..k + 1][k] == layout[k];
  }

  lemma {:induction false} FillMore(before: seq<byte>, layout: seq<Field>, v: seq<nat>, k: nat, at: nat, value: nat,
                                    width: nat)
    requires Slot(layout, v, k, at, value, width) && Filled(before, layout, v, k)
    ensures at + width <= |before| && Filled(Splice(before, at, ToBigEndian(value, width)), layout, v, k + 1)
    ensures Splice(before, at, ToBigEndian(value, width))[SIZE..] == before[SIZE..]
  {
    hide ToBigEndian, Contiguous, Write;
    EndAt(layout, k);
    WriteMore(layout, v, k);
    hide End;
    var after := Splice(before, at, ToBigEndian(value, width));
    assert after[..at + width] == before[..at] + ToBigEndian(value, width);
  }

  method Clear(p: array<byte>)
    requires p.Length >= SIZE
    modifies p
    ensures forall i | 0 <= i < SIZE :: p[i] == 0
    ensures p[SIZE..] == old(p[SIZE..])
  {
    for i := 0 to SIZE
      invariant forall j | 0 <= j < i :: p[j] == 0
      invariant forall j | SIZE <= j < p.Length :: p[j] == old(p[j])
    {
      p[i] := 0;
    }
  }

  method PutU8(p: array<byte>, ghost layout: seq<Field>, ghost v: seq<nat>, ghost k: nat, at: nat, value: u8)
    requires Slot(layout, v, k, at, value, 1) && Filled(p[..], layout, v, k)
    modifies p
    ensures Filled(p[..], layout, v, k + 1) && p[SIZE..] == old(p[SIZE..])
  {
    FillMore(p[..], layout, v, k, at, value, 1);
    assert ToBigEndian(value, 1) == [value];
    hide Filled;
    p[at] := value;
    assert p[..] == Splice(old(p[..]), at, [value]);
    assert p[SIZE..] == p[..][SIZE..];
  }

  method PutU16(p: array<byte>, ghost layout: seq<Field>, ghost v: seq<nat>, ghost k: nat, at: nat, value: u16)
    requires Slot(layout, v, k, at, value, 2) && Filled(p[..], layout, v, k)
    modifies p
    ensures Filled(p[..], layout, v, k + 1) && p[SIZE..] == old(p[SIZE..])
  {
    FillMore(p[..], layout, v, k, at, value, 2);
    hide Filled, Splice;
    WriteU16(p, at, value);
    assert p[SIZE..] == p[..][SIZE..];
  }

  method PutU32(p: array<byte>, ghost layout: seq<Field>, ghost v: seq<nat>, ghost k: nat, at: nat, value: u32)
    requires Slot(layout, v, k, at, value, 4) && Filled(p[..], layout, v, k)
    modifies p
    ensures Filled(p[..], layout, v, k + 1) && p[SIZE..] == old(p[SIZE..])
  {
    FillMore(p[..], layout, v, k, at, value, 4);
    hide Filled, Splice;
    WriteU32(p, at, value);
    assert p[SIZE..] == p[..][SIZE..];
  }

  method PutU64(p: array<byte>, ghost layout: seq<Field>, ghost v: seq<nat>, ghost k: nat, at: nat, value: u64)
    requires Slot(layout, v, k, at, value, 8) && Filled(p[..], layout, v, k)
    modifies p
    ensures Filled(p[..], layout, v, k + 1) && p[SIZE..] == old(p[SIZE..])
  {
    FillMore(p[..], layout, v, k, at, value, 8);
    hide Filled, Splice;
    WriteU64(p, at, value);
    assert p[SIZE..] == p[..][SIZE..];
  }

  /** A big-endian value below 256, whose upper byte the zeroing has written. */
  method PutLowByte(p: array<byte>, ghost layout: seq<Field>, ghost v: seq<nat>, ghost k: nat, at: nat, value: u8)
    requires Slot(layout, v, k, at, value, 2) && Filled(p[..], layout, v, k)
    modifies p
    ensures Filled(p[..], layout, v, k + 1) && p[SIZE..] == old(p[SIZE..])
  {
    FillMore(p[..], layout, v, k, at, value, 2);
    EndAt(layout, k);
    TwoBytes(value);
    assert p[at] == 0;
    hide Filled;
    p[at + 1] := value;
    assert p[..] == Splice(old(p[..]), at, [0, value]);
    assert p[SIZE..] == p[..][SIZE..];
  }

  lemma {:induction false} Zeroes(n: nat)
    ensures forall i | 0 <= i < n :: ToBigEndian(0, n)[i] == 0
  {
    if n > 0 {
      Zeroes(n - 1);
    }
  }

  /** A field of zeros needs no store. */
  lemma {:induction false} ZeroField(p: seq<byte>, layout: seq<Field>, v: seq<nat>, k: nat, at: nat, width: nat)
    requires Slot(layout, v, k, at, 0, width) && Filled(p, layout, v, k)
    ensures Filled(p, layout, v, k + 1)
  {
    FillMore(p, layout, v, k, at, 0, width);
    EndAt(layout, k);
    Zeroes(width);
    assert Splice(p, at, ToBigEndian(0, width)) == p;
  }

  lemma {:induction false} NothingFilled(p: seq<byte>, layout: seq<Field>, v: seq<nat>)
    requires |layout| == |v| && Contiguous(layout) && SIZE <= |p| && forall i | 0 <= i < SIZE :: p[i] == 0
    ensures Filled(p, layout, v, 0)
  {
  }

  lemma {:induction false} AllFilled(p: seq<byte>, layout: seq<Field>, v: seq<nat>)
    requires |layout| == |v| && Filled(p, layout, v, |layout|) && End(layout) == SIZE
    ensures p[..SIZE] == Write(layout, v)
  {
    assert layout[..|layout|] == layout && v[..|v|] == v;
  }
}

/** plank_transport_camera.h */
module CameraHeader {
  import opened Bytes
  import opened Layouts
  import opened Words
  import opened Wrappers
  import Headers
  import Camera

  datatype Header = Header(generation: u64, sequence: u64, captureTime: u64, codec: u32, colorspace: u32, transfer: u32,
                           ycbcr: u32, quantization: u32, driverSequence: u32, width: u16, height: u16, flags: u8)

  predicate HeaderValid(h: Header, payloadSize: nat) {
    && payloadSize != 0 && payloadSize <= 4 * 1024 * 1024
    && h.generation != 0 && h.sequence != U64_MAX
    && h.captureTime != 0 && h.captureTime <= I64_MAX / 1000
    && (h.codec == 0x48323634 || h.codec == 0x4d4a5047)
    && ((h.width == 1280 && h.height == 720) || (h.width == 1920 && h.height == 1080))
    && !(h.flags >= 4)
    && (h.codec != 0x4d4a5047 || h.flags % 2 != 0)
    && h.colorspace <= 12 && h.transfer <= 7 && h.ycbcr <= 8 && h.quantization <= 2
  }

  /** The Rust packet with the header's fields. */
  function WithPayload(h: Header, payload: seq<byte>): Camera.Packet {
    Camera.Packet(Camera.Format(h.codec, h.width, h.height, h.colorspace, h.transfer, h.ycbcr, h.quantization),
             h.flags, h.generation, h.sequence, h.captureTime, h.driverSequence, payload)
  }

  function HeaderDecode(record: seq<byte>): Option<Header> {
    if |record| <= 64 || |record| > 64 + 4 * 1024 * 1024 || record[..4] != [0x50, 0x43, 0x41, 0x4d]
       || record[4] != 1 || record[6] != 0 || record[7] != 64 || ReadU32(record, 60) != 0 then None
    else
      var value := Header(ReadU64(record, 8), ReadU64(record, 16), ReadU64(record, 24), ReadU32(record, 32),
                          ReadU32(record, 40), ReadU32(record, 44), ReadU32(record, 48), ReadU32(record, 52),
                          ReadU32(record, 56), ReadU16(record, 36), ReadU16(record, 38), record[5]);
      if HeaderValid(value, |record| - 64) then Some(value) else None
  }

  lemma {:induction false} SameValidity(h: Header, payload: seq<byte>)
    ensures HeaderValid(h, |payload|) <==> Camera.Valid(WithPayload(h, payload))
  {
  }

  /** The magic as a number. */
  lemma {:induction false} SameMagic(p: seq<byte>)
    requires |p| >= 4
    ensures BigEndian(p[0..4]) == Camera.PCAM <==> p[..4] == [0x50, 0x43, 0x41, 0x4d]
  {
    U32(p, 0);
    hide BigEndian;
    MagicDigits(p[0], p[1], p[2], p[3]);
    assert p[..4] == [p[0], p[1], p[2], p[3]];
  }

  lemma {:induction false} MagicDigits(a: byte, b: byte, c: byte, d: byte)
    ensures a as int * 0x100_0000 + b as int * 0x1_0000 + c as int * 0x100 + d as int == Camera.PCAM
       <==> a == 0x50 && b == 0x43 && c == 0x41 && d == 0x4d
  {
    var v := a as int * 0x100_0000 + b as int * 0x1_0000 + c as int * 0x100 + d as int;
    assert v / 0x100 == a as int * 0x1_0000 + b as int * 0x100 + c as int && v % 0x100 == d as int;
    assert v / 0x100 / 0x100 == a as int * 0x100 + b as int;
  }

  /** Rust's fields as C reads them. */
  lemma {:induction false} SameFields(p: seq<byte>)
    requires |p| >= 64
    ensures var v := Camera.Fields(p);
            && v[1] == p[4] && v[2] == p[5] && v[3] == ReadU16(p, 6)
            && v[4] == ReadU64(p, 8) && v[5] == ReadU64(p, 16) && v[6] == ReadU64(p, 24)
            && v[7] == ReadU32(p, 32) && v[8] == ReadU16(p, 36) && v[9] == ReadU16(p, 38)
            && v[10] == ReadU32(p, 40) && v[11] == ReadU32(p, 44) && v[12] == ReadU32(p, 48) && v[13] == ReadU32(p, 52)
            && v[14] == ReadU32(p, 56) && v[15] == ReadU32(p, 60)
            && v[0] == BigEndian(p[0..4])
  {
    hide BigEndian, ReadU16, ReadU32, ReadU64;
    U8(p, 4);
    U8(p, 5);
    U16(p, 6);
    U64(p, 8);
    U64(p, 16);
    U64(p, 24);
    U32(p, 32);
    U16(p, 36);
    U16(p, 38);
    U32(p, 40);
    U32(p, 44);
    U32(p, 48);
    U32(p, 52);
    U32(p, 56);
    U32(p, 60);
  }

  /** The C and the Rust decoder accept the same records, with the same fields. */
  lemma {:induction false} SameLanguage(record: seq<byte>)
    ensures HeaderDecode(record).Some? <==> Camera.Decode(record).Some?
    ensures HeaderDecode(record).Some?
        ==> Camera.Decode(record).value == WithPayload(HeaderDecode(record).value, record[64..])
  {
    if 64 < |record| <= 64 + 4 * 1024 * 1024 {
      SameFields(record);
      SameMagic(record);
      assert ReadU16(record, 6) == 64 <==> record[6] == 0 && record[7] == 64;
      hide BigEndian, ReadU16, ReadU32, ReadU64, Camera.Fields, Camera.Valid, HeaderValid;
      var h := Header(ReadU64(record, 8), ReadU64(record, 16), ReadU64(record, 24), ReadU32(record, 32),
                      ReadU32(record, 40), ReadU32(record, 44), ReadU32(record, 48), ReadU32(record, 52),
                      ReadU32(record, 56), ReadU16(record, 36), ReadU16(record, 38), record[5]);
      SameValidity(h, record[64..]);
    }
  }

  /** Where the fields go. */
  ghost predicate Slots(layout: seq<Field>, v: seq<nat>, h: Header) {
    && |layout| == 16
    && Headers.Slot(layout, v, 0, 0, Camera.PCAM, 4) && Headers.Slot(layout, v, 1, 4, 1, 1)
    && Headers.Slot(layout, v, 2, 5, h.flags, 1)
    && Headers.Slot(layout, v, 3, 6, 64, 2) && Headers.Slot(layout, v, 4, 8, h.generation, 8)
    && Headers.Slot(layout, v, 5, 16, h.sequence, 8)
    && Headers.Slot(layout, v, 6, 24, h.captureTime, 8) && Headers.Slot(layout, v, 7, 32, h.codec, 4)
    && Headers.Slot(layout, v, 8, 36, h.width, 2) && Headers.Slot(layout, v, 9, 38, h.height, 2)
    && Headers.Slot(layout, v, 10, 40, h.colorspace, 4) && Headers.Slot(layout, v, 11, 44, h.transfer, 4)
    && Headers.Slot(layout, v, 12, 48, h.ycbcr, 4) && Headers.Slot(layout, v, 13, 52, h.quantization, 4)
    && Headers.Slot(layout, v, 14, 56, h.driverSequence, 4) && Headers.Slot(layout, v, 15, 60, 0, 4)
  }

  lemma {:induction false} Table(h: Header, payload: seq<byte>)
    ensures Slots(Camera.LAYOUT, Camera.Values(WithPayload(h, payload)), h)
  {
    Camera.Shape();
    hide Contiguous, End;
  }

  /** Writes the header only; the caller appends the payload. */
  method HeaderEncode(h: Header, payloadSize: nat, output: array<byte>, ghost payload: seq<byte>) returns (ok: bool)
    requires |payload| == payloadSize
    modifies output
    ensures ok <==> output.Length >= 64 && HeaderValid(h, payloadSize)
    ensures ok ==> Camera.Encode(WithPayload(h, payload)) == Some(output[..64] + payload)
    ensures ok ==> output[64..] == old(output[64..])
    ensures !ok ==> output[..] == old(output[..])
  {
    if output.Length < 64 || !HeaderValid(h, payloadSize) {
      return false;
    }
    SameValidity(h, payload);
    ghost var layout, v := Camera.LAYOUT, Camera.Values(WithPayload(h, payload));
    Table(h, payload);
    Camera.Shape();
    hide Camera.LAYOUT, Camera.Values, Headers.Filled, Headers.Slot, Contiguous, End, Write;
    Headers.Clear(output);
    Headers.NothingFilled(output[..], layout, v);
    PutFirst(output, layout, v, h);
    PutRest(output, layout, v, h);
    Headers.AllFilled(output[..], layout, v);
    assert output[..64] == output[..][..64];
    return true;
  }

  method PutFirst(output: array<byte>, ghost layout: seq<Field>, ghost v: seq<nat>, h: Header)
    requires Slots(layout, v, h) && Headers.Filled(output[..], layout, v, 0)
    modifies output
    ensures Headers.Filled(output[..], layout, v, 8) && output[64..] == old(output[64..])
  {
    hide Headers.Filled, Headers.Slot, Contiguous;
    Headers.PutU32(output, layout, v, 0, 0, Camera.PCAM);
    Headers.PutU8(output, layout, v, 1, 4, 1);
    Headers.PutU8(output, layout, v, 2, 5, h.flags);
    Headers.PutLowByte(output, layout, v, 3, 6, 64);
    Headers.PutU64(output, layout, v, 4, 8, h.generation);
    Headers.PutU64(output, layout, v, 5, 16, h.sequence);
    Headers.PutU64(output, layout, v, 6, 24, h.captureTime);
    Headers.PutU32(output, layout, v, 7, 32, h.codec);
  }

  method PutRest(output: array<byte>, ghost layout: seq<Field>, ghost v: seq<nat>, h: Header)
    requires Slots(layout, v, h) && Headers.Filled(output[..], layout, v, 8)
    modifies output
    ensures Headers.Filled(output[..], layout, v, 16) && output[64..] == old(output[64..])
  {
    hide Headers.Filled, Headers.Slot, Contiguous;
    Headers.PutU16(output, layout, v, 8, 36, h.width);
    Headers.PutU16(output, layout, v, 9, 38, h.height);
    Headers.PutU32(output, layout, v, 10, 40, h.colorspace);
    Headers.PutU32(output, layout, v, 11, 44, h.transfer);
    Headers.PutU32(output, layout, v, 12, 48, h.ycbcr);
    Headers.PutU32(output, layout, v, 13, 52, h.quantization);
    Headers.PutU32(output, layout, v, 14, 56, h.driverSequence);
    Headers.ZeroField(output[..], layout, v, 15, 60, 4);
  }
}

/** plank_transport_camera_encoded.h */
module EncodedCameraHeader {
  import opened Bytes
  import opened Layouts
  import opened Words
  import opened Wrappers
  import Headers
  import Camera
  import CameraHeader
  import EncodedCamera

  datatype Header = Header(generation: u64, sequence: u64, captureTime: u64, codec: u32, platform: u32, encoder: u32,
                           sourcePixelFormat: u32, width: u16, height: u16, nominalFps: u16, flags: u8, primaries: u8,
                           transfer: u8, matrix: u8, range: u8)

  predicate HeaderValid(h: Header, payloadSize: nat) {
    && payloadSize != 0 && payloadSize <= 4 * 1024 * 1024
    && h.generation != 0 && h.sequence != U64_MAX
    && h.captureTime != 0 && h.captureTime <= I64_MAX / 1000
    && h.codec == 0x48323634 && h.width == 1280 && h.height == 720
    && !(h.flags >= 4)
    && h.platform == 1 && h.encoder == 1 && h.sourcePixelFormat == 1
    && h.primaries == 1 && h.transfer == 1 && h.matrix == 1 && h.range == 1
    && h.nominalFps == 30
  }

  function WithPayload(h: Header, payload: seq<byte>): EncodedCamera.Packet {
    EncodedCamera.Packet(EncodedCamera.Format(h.codec, h.width, h.height, h.platform, h.encoder, h.sourcePixelFormat,
                      h.primaries, h.transfer, h.matrix, h.range, h.nominalFps),
             h.flags, h.generation, h.sequence, h.captureTime, payload)
  }

  function HeaderDecode(record: seq<byte>): Option<Header> {
    if |record| <= 64 || |record| > 64 + 4 * 1024 * 1024 || record[..4] != [0x50, 0x43, 0x41, 0x4d]
       || record[4] != 2 || record[6] != 0 || record[7] != 64 || ReadU16(record, 58) != 0
       || ReadU32(record, 60) != 0 then None
    else
      var h := Header(ReadU64(record, 8), ReadU64(record, 16), ReadU64(record, 24), ReadU32(record, 32),
                      ReadU32(record, 40), ReadU32(record, 44), ReadU32(record, 48),
                      ReadU16(record, 36), ReadU16(record, 38),
                      ReadU16(record, 56), record[5], record[52], record[53], record[54], record[55]);
      if HeaderValid(h, |record| - 64) then Some(h) else None
  }

  lemma {:induction false} SameValidity(h: Header, payload: seq<byte>)
    ensures HeaderValid(h, |payload|) <==> EncodedCamera.Valid(WithPayload(h, payload))
  {
  }

  lemma {:induction false} SameFields(p: seq<byte>)
    requires |p| >= 64
    ensures var v := EncodedCamera.Fields(p);
            && v[1] == p[4] && v[2] == p[5] && v[3] == ReadU16(p, 6)
            && v[4] == ReadU64(p, 8) && v[5] == ReadU64(p, 16) && v[6] == ReadU64(p, 24)
            && v[7] == ReadU32(p, 32) && v[8] == ReadU16(p, 36) && v[9] == ReadU16(p, 38)
            && v[10] == ReadU32(p, 40) && v[11] == ReadU32(p, 44) && v[12] == ReadU32(p, 48)
            && v[13] == p[52] && v[14] == p[53] && v[15] == p[54] && v[16] == p[55]
            && v[17] == ReadU16(p, 56) && v[18] == ReadU16(p, 58) && v[19] == ReadU32(p, 60)
            && v[0] == BigEndian(p[0..4])
  {
    hide BigEndian, ReadU16, ReadU32, ReadU64;
    U8(p, 4);
    U8(p, 5);
    U16(p, 6);
    U64(p, 8);
    U64(p, 16);
    U64(p, 24);
    U32(p, 32);
    U16(p, 36);
    U16(p, 38);
    U32(p, 40);
    U32(p, 44);
    U32(p, 48);
    U8(p, 52);
    U8(p, 53);
    U8(p, 54);
    U8(p, 55);
    U16(p, 56);
    U16(p, 58);
    U32(p, 60);
  }

  /** The C and the Rust decoder accept the same records, with the same fields. */
  lemma {:induction false} SameLanguage(record: seq<byte>)
    ensures HeaderDecode(record).Some? <==> EncodedCamera.Decode(record).Some?
    ensures HeaderDecode(record).Some?
        ==> EncodedCamera.Decode(record).value == WithPayload(HeaderDecode(record).value, record[64..])
  {
    if 64 < |record| <= 64 + 4 * 1024 * 1024 {
      SameFields(record);
      CameraHeader.SameMagic(record);
      assert ReadU16(record, 6) == 64 <==> record[6] == 0 && record[7] == 64;
      hide BigEndian, ReadU16, ReadU32, ReadU64, EncodedCamera.Fields, EncodedCamera.Valid, HeaderValid;
      var h := Header(ReadU64(record, 8), ReadU64(record, 16), ReadU64(record, 24), ReadU32(record, 32),
                      ReadU32(record, 40), ReadU32(record, 44), ReadU32(record, 48),
                      ReadU16(record, 36), ReadU16(record, 38),
                      ReadU16(record, 56), record[5], record[52], record[53], record[54], record[55]);
      SameValidity(h, record[64..]);
    }
  }

  ghost predicate Slots(layout: seq<Field>, v: seq<nat>, h: Header) {
    && |layout| == 20
    && Headers.Slot(layout, v, 0, 0, Camera.PCAM, 4) && Headers.Slot(layout, v, 1, 4, 2, 1)
    && Headers.Slot(layout, v, 2, 5, h.flags, 1)
    && Headers.Slot(layout, v, 3, 6, 64, 2) && Headers.Slot(layout, v, 4, 8, h.generation, 8)
    && Headers.Slot(layout, v, 5, 16, h.sequence, 8)
    && Headers.Slot(layout, v, 6, 24, h.captureTime, 8) && Headers.Slot(layout, v, 7, 32, h.codec, 4)
    && Headers.Slot(layout, v, 8, 36, h.width, 2) && Headers.Slot(layout, v, 9, 38, h.height, 2)
    && Headers.Slot(layout, v, 10, 40, h.platform, 4) && Headers.Slot(layout, v, 11, 44, h.encoder, 4)
    && Headers.Slot(layout, v, 12, 48, h.sourcePixelFormat, 4) && Headers.Slot(layout, v, 13, 52, h.primaries, 1)
    && Headers.Slot(layout, v, 14, 53, h.transfer, 1) && Headers.Slot(layout, v, 15, 54, h.matrix, 1)
    && Headers.Slot(layout, v, 16, 55, h.range, 1) && Headers.Slot(layout, v, 17, 56, h.nominalFps, 2)
    && Headers.Slot(layout, v, 18, 58, 0, 2) && Headers.Slot(layout, v, 19, 60, 0, 4)
  }

  lemma {:induction false} Table(h: Header, payload: seq<byte>)
    ensures Slots(EncodedCamera.LAYOUT, EncodedCamera.Values(WithPayload(h, payload)), h)
  {
    EncodedCamera.Shape();
    hide Contiguous, End;
  }

  /** Writes the header only; the caller appends the payload. */
  method HeaderEncode(h: Header, payloadSize: nat, output: array<byte>, ghost payload: seq<byte>) returns (ok: bool)
    requires |payload| == payloadSize
    modifies output
    ensures ok <==> output.Length >= 64 && HeaderValid(h, payloadSize)
    ensures ok ==> EncodedCamera.Encode(WithPayload(h, payload)) == Some(output[..64] + payload)
    ensures ok ==> output[64..] == old(output[64..])
    ensures !ok ==> output[..] == old(output[..])
  {
    if output.Length < 64 || !HeaderValid(h, payloadSize) {
      return false;
    }
    SameValidity(h, payload);
    ghost var layout, v := EncodedCamera.LAYOUT, EncodedCamera.Values(WithPayload(h, payload));
    Table(h, payload);
    EncodedCamera.Shape();
    hide EncodedCamera.LAYOUT, EncodedCamera.Values, Headers.Filled, Headers.Slot, Contiguous, End, Write;
    Headers.Clear(output);
    Headers.NothingFilled(output[..], layout, v);
    PutFirst(output, layout, v, h);
    PutRest(output, layout, v, h);
    Headers.AllFilled(output[..], layout, v);
    assert output[..64] == output[..][..64];
    return true;
  }

  method PutFirst(output: array<byte>, ghost layout: seq<Field>, ghost v: seq<nat>, h: Header)
    requires Slots(layout, v, h) && Headers.Filled(output[..], layout, v, 0)
    modifies output
    ensures Headers.Filled(output[..], layout, v, 10) && output[64..] == old(output[64..])
  {
    hide Headers.Filled, Headers.Slot, Contiguous;
    Headers.PutU32(output, layout, v, 0, 0, Camera.PCAM);
    Headers.PutU8(output, layout, v, 1, 4, 2);
    Headers.PutU8(output, layout, v, 2, 5, h.flags);
    Headers.PutLowByte(output, layout, v, 3, 6, 64);
    Headers.PutU64(output, layout, v, 4, 8, h.generation);
    Headers.PutU64(output, layout, v, 5, 16, h.sequence);
    Headers.PutU64(output, layout, v, 6, 24, h.captureTime);
    Headers.PutU32(output, layout, v, 7, 32, h.codec);
    Headers.PutU16(output, layout, v, 8, 36, h.width);
    Headers.PutU16(output, layout, v, 9, 38, h.height);
  }

  method PutRest(output: array<byte>, ghost layout: seq<Field>, ghost v: seq<nat>, h: Header)
    requires Slots(layout, v, h) && Headers.Filled(output[..], layout, v, 10)
    modifies output
    ensures Headers.Filled(output[..], layout, v, 20) && output[64..] == old(output[64..])
  {
    hide Headers.Filled, Headers.Slot, Contiguous;
    Headers.PutU32(output, layout, v, 10, 40, h.platform);
    Headers.PutU32(output, layout, v, 11, 44, h.encoder);
    Headers.PutU32(output, layout, v, 12, 48, h.sourcePixelFormat);
    Headers.PutU8(output, layout, v, 13, 52, h.primaries);
    Headers.PutU8(output, layout, v, 14, 53, h.transfer);
    Headers.PutU8(output, layout, v, 15, 54, h.matrix);
    Headers.PutU8(output, layout, v, 16, 55, h.range);
    Headers.PutU16(output, layout, v, 17, 56, h.nominalFps);
    Headers.ZeroField(output[..], layout, v, 18, 58, 2);
    Headers.ZeroField(output[..], layout, v, 19, 60, 4);
  }
}
