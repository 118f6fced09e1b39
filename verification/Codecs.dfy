/** Fixed layouts of big-endian fields, as all record headers here have them. */
module Layouts {
  import opened Bytes

  type u8 = n: int | 0 <= n < 0x100
  type u16 = n: int | 0 <= n < 0x1_0000
  type u32 = n: int | 0 <= n < 0x1_0000_0000
  type u64 = n: int | 0 <= n < 0x1_0000_0000_0000_0000

  const U64_MAX: u64 := 0xffff_ffff_ffff_ffff
  const I64_MAX: u64 := 0x7fff_ffff_ffff_ffff

  datatype Field = Field(at: nat, width: nat)

  function End(layout: seq<Field>): nat {
    if layout == [] then 0 else layout[|layout| - 1].at + layout[|layout| - 1].width
  }

  /** The fields follow one another from offset 0 on. */
  ghost predicate Contiguous(layout: seq<Field>) {
    forall k | 0 <= k < |layout| :: layout[k].at == End(layout[..k])
  }

  ghost predicate Fit(layout: seq<Field>, values: seq<nat>) {
    |values| == |layout| && forall k | 0 <= k < |layout| :: values[k] < Pow256(layout[k].width)
  }

  predicate Covers(layout: seq<Field>, p: seq<byte>) {
    forall k | 0 <= k < |layout| :: layout[k].at + layout[k].width <= |p|
  }

  function Write(layout: seq<Field>, values: seq<nat>): seq<byte>
    requires |layout| == |values|
  {
    if layout == [] then []
    else
      var n := |layout| - 1;
      Write(layout[..n], values[..n]) + ToBigEndian(values[n], layout[n].width)
  }

  function Read(layout: seq<Field>, p: seq<byte>): (values: seq<nat>)
    requires Covers(layout, p)
    ensures |values| == |layout|
    ensures forall k | 0 <= k < |layout| :: values[k] == BigEndian(p[layout[k].at..layout[k].at + layout[k].width])
  {
    seq(|layout|, k requires 0 <= k < |layout| => BigEndian(p[layout[k].at..layout[k].at + layout[k].width]))
  }

  lemma {:induction false} Shorter(layout: seq<Field>)
    requires Contiguous(layout) && layout != []
    ensures Contiguous(layout[..|layout| - 1]) && layout[|layout| - 1].at == End(layout[..|layout| - 1])
  {
    hide End;
    var shorter := layout[..|layout| - 1];
    forall k | 0 <= k < |shorter| ensures shorter[k].at == End(shorter[..k]) {
      assert shorter[..k] == layout[..k];
      assert layout[k].at == End(layout[..k]);
    }
  }

  lemma {:induction false} WriteLength(layout: seq<Field>, values: seq<nat>)
    requires |layout| == |values| && Contiguous(layout)
    ensures |Write(layout, values)| == End(layout)
  {
    if layout != [] {
      var n := |layout| - 1;
      Shorter(layout);
      WriteLength(layout[..n], values[..n]);
    }
  }

  lemma {:induction false} CoversPrefix(layout: seq<Field>, k: nat)
    requires Contiguous(layout) && k < |layout|
    ensures layout[k].at + layout[k].width <= End(layout)
  {
    if k < |layout| - 1 {
      Shorter(layout);
      CoversPrefix(layout[..|layout| - 1], k);
    }
  }

  lemma {:induction false} LastPart(head: seq<byte>, last: seq<byte>, rest: seq<byte>)
    ensures (head + last + rest)[|head|..|head| + |last|] == last
  {
  }

  /** Field k of what was written. */
  lemma {:induction false} Written(layout: seq<Field>, values: seq<nat>, rest: seq<byte>, k: nat)
    requires |layout| == |values| && Contiguous(layout) && k < |layout|
    ensures layout[k].at + layout[k].width <= |Write(layout, values) + rest|
    ensures (Write(layout, values) + rest)[layout[k].at..layout[k].at + layout[k].width]
        == ToBigEndian(values[k], layout[k].width)
  {
    hide ToBigEndian, Contiguous;
    var n := |layout| - 1;
    var head, last := Write(layout[..n], values[..n]), ToBigEndian(values[n], layout[n].width);
    Shorter(layout);
    WriteLength(layout[..n], values[..n]);
    WriteLength(layout, values);
    CoversPrefix(layout, k);
    assert Write(layout, values) == head + last;
    hide Write, End, ToBigEndian;
    if k < n {
      assert layout[..n][k] == layout[k] && values[..n][k] == values[k];
      Regroup(head, last, rest);
      Written(layout[..n], values[..n], last + rest, k);
    } else {
      LastPart(head, last, rest);
    }
  }

  lemma {:induction false} ReadInvertsWrite(layout: seq<Field>, values: seq<nat>, rest: seq<byte>)
    requires Contiguous(layout) && Fit(layout, values)
    ensures Covers(layout, Write(layout, values) + rest)
    ensures Read(layout, Write(layout, values) + rest) == values
    ensures (Write(layout, values) + rest)[End(layout)..] == rest
  {
    hide ToBigEndian, BigEndian, Pow256, Contiguous, Write;
    var p := Write(layout, values) + rest;
    WriteLength(layout, values);
    forall k | 0 <= k < |layout|
      ensures layout[k].at + layout[k].width <= |p|
          && BigEndian(p[layout[k].at..layout[k].at + layout[k].width]) == values[k]
    {
      Written(layout, values, rest, k);
      BigEndianWrites(values[k], layout[k].width);
    }
  }

  lemma {:induction false} ReadPrefix(layout: seq<Field>, p: seq<byte>, n: nat)
    requires Covers(layout, p) && n <= |layout|
    ensures Covers(layout[..n], p) && Read(layout[..n], p) == Read(layout, p)[..n]
  {
    hide BigEndian;
  }

  lemma {:induction false} WriteInvertsRead(layout: seq<Field>, p: seq<byte>)
    requires Contiguous(layout) && Covers(layout, p) && End(layout) <= |p|
    ensures Write(layout, Read(layout, p)) == p[..End(layout)]
  {
    hide ToBigEndian, BigEndian;
    if layout != [] {
      var n := |layout| - 1;
      var f := layout[n];
      Shorter(layout);
      ReadPrefix(layout, p, n);
      BigEndianReads(p[f.at..f.at + f.width]);
      Adjacent(p, f.at, f.at + f.width);
      assert End(layout) == f.at + f.width;
      hide End, Contiguous, Covers;
      WriteInvertsRead(layout[..n], p);
    }
  }

  lemma {:induction false} ReadFits(layout: seq<Field>, p: seq<byte>)
    requires Covers(layout, p)
    ensures Fit(layout, Read(layout, p))
  {
    hide BigEndian, Pow256;
    forall k | 0 <= k < |layout| ensures Read(layout, p)[k] < Pow256(layout[k].width) {
      BigEndianReads(p[layout[k].at..layout[k].at + layout[k].width]);
    }
  }

  lemma {:induction false} NothingWritten(layout: seq<Field>, values: seq<nat>)
    requires |layout| == |values|
    ensures Write(layout[..0], values[..0]) == []
  {
  }

  /** Writing one more field. */
  lemma {:induction false} WriteMore(layout: seq<Field>, values: seq<nat>, k: nat)
    requires |layout| == |values| && k < |layout|
    ensures Write(layout[..k + 1], values[..k + 1])
        == Write(layout[..k], values[..k]) + ToBigEndian(values[k], layout[k].width)
  {
    assert layout[..k + 1][..k] == layout[..k] && values[..k + 1][..k] == values[..k];
  }

  /** The growing output buffer of the encoders. */
  class Buffer {
    var contents: seq<byte>

    constructor ()
      ensures contents == []
    {
      contents := [];
    }

    /** put_u8, put_u16, put_u32 and put_u64: field k of a layout. */
    method Put(ghost layout: seq<Field>, ghost values: seq<nat>, ghost k: nat, value: nat, width: nat)
      requires |layout| == |values| && k < |layout| && value == values[k] && width == layout[k].width
      requires contents == Write(layout[..k], values[..k])
      modifies this
      ensures contents == Write(layout[..k + 1], values[..k + 1])
    {
      WriteMore(layout, values, k);
      contents := contents + ToBigEndian(value, width);
    }

    method Append(payload: seq<byte>)
      modifies this
      ensures contents == old(contents) + payload
    {
      contents := contents + payload;
    }
  }
}

/** Microphone records: one stereo Opus packet behind one of two headers. */
module Microphone {
  import opened Bytes
  import opened Words
  import opened Layouts
  import opened Wrappers

  const FRAME_SAMPLES: nat := 480
  const MAX_OPUS_BYTES: nat := 1275
  const HEADER_BYTES: nat := 24
  const TIMED_HEADER_BYTES: nat := 32
  const PMIC: nat := 0x504d4943

  datatype Packet = Packet(generation: u64, sampleTime: u64, captureTime: u64, opus: seq<byte>)

  predicate Valid(p: Packet) {
    && p.captureTime <= I64_MAX - 10_000_000
    && p.generation != 0
    && p.sampleTime % FRAME_SAMPLES == 0 && p.sampleTime + FRAME_SAMPLES <= U64_MAX
    && 1 <= |p.opus| <= MAX_OPUS_BYTES
  }

  /** Magic, version, channels, frame samples, generation, sample time. */
  const LEGACY := [Field(0, 4), Field(4, 1), Field(5, 1), Field(6, 2), Field(8, 8), Field(16, 8)]

  /** ... and the capture time. */
  const TIMED := LEGACY + [Field(24, 8)]

  function Values(p: Packet): seq<nat> {
    [PMIC, if p.captureTime == 0 then 2 else 3, 2, FRAME_SAMPLES, p.generation, p.sampleTime]
  }

  function Encode(p: Packet): Option<seq<byte>> {
    if !Valid(p) then None
    else if p.captureTime == 0 then Some(Write(LEGACY, Values(p)) + p.opus)
    else Some(Write(TIMED, Values(p) + [p.captureTime]) + p.opus)
  }

  function Decode(bytes: seq<byte>): Option<Packet> {
    if !(HEADER_BYTES + 1 <= |bytes| <= TIMED_HEADER_BYTES + MAX_OPUS_BYTES) then None
    else
      var v := Read(LEGACY, bytes);
      if !(v[0] == PMIC && (v[1] == 2 || v[1] == 3) && v[2] == 2 && v[3] == FRAME_SAMPLES) then None
      else
        var header := if v[1] == 3 then TIMED_HEADER_BYTES else HEADER_BYTES;
        if !(header + 1 <= |bytes| <= header + MAX_OPUS_BYTES) then None
        else
          var captureTime := if v[1] == 3 then Wide(bytes, 24) else 0;
          if v[1] == 3 && captureTime == 0 then None
          else
            var packet := Packet(Wide(bytes, 8), Wide(bytes, 16), captureTime, bytes[header..]);
            if Valid(packet) then Some(packet) else None
  }

  /** u64::from_be_bytes of eight bytes. */
  function Wide(p: seq<byte>, at: nat): u64
    requires at + 8 <= |p|
  {
    BigEndianReads(p[at..at + 8]);
    Powers();
    BigEndian(p[at..at + 8])
  }

  lemma Shape()
    ensures Contiguous(LEGACY) && End(LEGACY) == HEADER_BYTES
    ensures Contiguous(TIMED) && End(TIMED) == TIMED_HEADER_BYTES
  {
    ContiguousLegacy();
    var n := |LEGACY|;
    assert TIMED[..n] == LEGACY;
    forall k | 0 <= k < |TIMED| ensures TIMED[k].at == End(TIMED[..k]) {
      if k < n {
        assert TIMED[..k] == LEGACY[..k] && LEGACY[k].at == End(LEGACY[..k]);
      }
    }
  }

  lemma ContiguousLegacy()
    ensures Contiguous(LEGACY)
  {
    forall k | 0 <= k < |LEGACY| ensures LEGACY[k].at == End(LEGACY[..k]) {
    }
  }

  lemma {:induction false} ValuesFit(p: Packet)
    ensures Fit(LEGACY, Values(p)) && Fit(TIMED, Values(p) + [p.captureTime])
  {
    Powers();
    hide Pow256;
  }

  lemma {:induction false} TimedRead(bytes: seq<byte>)
    requires |bytes| >= TIMED_HEADER_BYTES
    ensures Covers(TIMED, bytes) && Read(TIMED, bytes) == Read(LEGACY, bytes) + [Wide(bytes, 24)]
  {
    hide BigEndian;
  }

  lemma {:induction false} LegacyRead(bytes: seq<byte>)
    requires |bytes| >= HEADER_BYTES
    ensures Covers(LEGACY, bytes)
    ensures Wide(bytes, 8) == Read(LEGACY, bytes)[4] && Wide(bytes, 16) == Read(LEGACY, bytes)[5]
  {
    hide BigEndian;
  }

  /** Encoding loses nothing. */
  lemma {:induction false} DecodeInvertsEncode(p: Packet)
    requires Valid(p)
    ensures Encode(p).Some? && Decode(Encode(p).value) == Some(p)
  {
    hide Write, Contiguous, End, BigEndian, Wide;
    Shape();
    ValuesFit(p);
    var bytes := Encode(p).value;
    if p.captureTime == 0 {
      ReadInvertsWrite(LEGACY, Values(p), p.opus);
      WriteLength(LEGACY, Values(p));
    } else {
      ReadInvertsWrite(TIMED, Values(p) + [p.captureTime], p.opus);
      WriteLength(TIMED, Values(p) + [p.captureTime]);
      TimedRead(bytes);
      assert Read(LEGACY, bytes) == Read(TIMED, bytes)[..6];
      assert Wide(bytes, 24) == Read(TIMED, bytes)[6];
    }
    LegacyRead(bytes);
  }

  /** Every accepted record is the encoding of what it decodes to: there is exactly one
      record for each packet. */
  lemma {:induction false} EncodeInvertsDecode(bytes: seq<byte>)
    requires Decode(bytes).Some?
    ensures Encode(Decode(bytes).value) == Some(bytes)
  {
    hide Write, Contiguous, End, BigEndian, Wide;
    Shape();
    var p := Decode(bytes).value;
    LegacyRead(bytes);
    assert Read(LEGACY, bytes) == Values(p);
    if p.captureTime == 0 {
      WriteInvertsRead(LEGACY, bytes);
      assert bytes == bytes[..HEADER_BYTES] + bytes[HEADER_BYTES..];
    } else {
      TimedRead(bytes);
      WriteInvertsRead(TIMED, bytes);
      assert bytes == bytes[..TIMED_HEADER_BYTES] + bytes[TIMED_HEADER_BYTES..];
    }
  }

  /** A record byte by byte: "PMIC", version, two channels, 480 samples, a non-zero
      generation, a sample time on the grid of 480 with room for one more frame, in
      version 3 a non-zero capture time that leaves ten milliseconds, and 1 to 1275 bytes
      of Opus. */
  ghost predicate OnWire(b: seq<byte>) {
    && |b| > 24 && b[..4] == [0x50, 0x4d, 0x49, 0x43]
    && (b[4] == 2 || b[4] == 3) && b[5] == 2 && b[6] == 1 && b[7] == 0xe0
    && (if b[4] == 2 then |b| <= 24 + 1275 else 32 < |b| <= 32 + 1275)
    && BigEndian(b[8..16]) != 0
    && BigEndian(b[16..24]) % 480 == 0 && BigEndian(b[16..24]) + 480 <= 0xffff_ffff_ffff_ffff
    && (b[4] == 3 ==> 0 < BigEndian(b[24..32]) <= 0x7fff_ffff_ffff_ffff - 10_000_000)
  }

  ghost predicate Says(b: seq<byte>, p: Packet)
    requires OnWire(b)
  {
    && p.generation == BigEndian(b[8..16]) && p.sampleTime == BigEndian(b[16..24])
    && (if b[4] == 2 then p.captureTime == 0 && p.opus == b[24..]
        else p.captureTime == BigEndian(b[24..32]) && p.opus == b[32..])
  }

  lemma {:induction false} Tags(b: seq<byte>)
    requires |b| > 24
    ensures var v := Read(LEGACY, b);
            && (v[0] == PMIC <==> b[..4] == [0x50, 0x4d, 0x49, 0x43])
            && v[1] == b[4] && v[2] == b[5] && (v[3] == FRAME_SAMPLES <==> b[6] == 1 && b[7] == 0xe0)
  {
    U32(b, 0);
    U8(b, 4);
    U8(b, 5);
    U16(b, 6);
    hide BigEndian;
    Digits(b[0], b[1], b[2], b[3]);
    assert b[..4] == [b[0], b[1], b[2], b[3]];
  }

  lemma {:induction false} Digits(a: byte, b: byte, c: byte, d: byte)
    ensures a as int * 0x100_0000 + b as int * 0x1_0000 + c as int * 0x100 + d as int == PMIC
       <==> a == 0x50 && b == 0x4d && c == 0x49 && d == 0x43
  {
  }

  /** The decoder accepts exactly these records, and with these contents. */
  lemma {:induction false} AcceptsExactly(b: seq<byte>)
    ensures Decode(b).Some? <==> OnWire(b)
    ensures OnWire(b) ==> Says(b, Decode(b).value)
  {
    if |b| > 24 {
      Tags(b);
      hide BigEndian;
    }
  }

  /** And the encoder writes them: the record of a valid packet is one, and says what is
      in the packet. */
  lemma {:induction false} WritesExactly(p: Packet)
    requires Valid(p)
    ensures Encode(p).Some? && OnWire(Encode(p).value) && Says(Encode(p).value, p)
  {
    DecodeInvertsEncode(p);
    AcceptsExactly(Encode(p).value);
    hide Encode, Decode, OnWire;
  }

  /** The version byte says whether there is a capture time, and nothing else: a record
      of version 2 never carries one, a record of version 3 always does. */
  lemma {:induction false} VersionSaysTimed(bytes: seq<byte>)
    requires Decode(bytes).Some?
    ensures BigEndian(bytes[4..5]) == (if Decode(bytes).value.captureTime == 0 then 2 else 3)
    ensures |bytes| == |Decode(bytes).value.opus|
        + (if Decode(bytes).value.captureTime == 0 then HEADER_BYTES else TIMED_HEADER_BYTES)
  {
    hide Wide, BigEndian;
    assert Read(LEGACY, bytes)[1] == BigEndian(bytes[4..5]);
  }

  method EncodePacket(p: Packet) returns (r: Option<seq<byte>>)
    ensures r == Encode(p)
  {
    if !Valid(p) {
      return None;
    }
    hide Write, ToBigEndian;
    ghost var layout := if p.captureTime == 0 then LEGACY else TIMED;
    ghost var values := if p.captureTime == 0 then Values(p) else Values(p) + [p.captureTime];
    var out := new Buffer();
    NothingWritten(layout, values);
    out.Put(layout, values, 0, PMIC, 4);
    out.Put(layout, values, 1, if p.captureTime == 0 then 2 else 3, 1);
    out.Put(layout, values, 2, 2, 1);
    out.Put(layout, values, 3, FRAME_SAMPLES, 2);
    out.Put(layout, values, 4, p.generation, 8);
    out.Put(layout, values, 5, p.sampleTime, 8);
    if p.captureTime != 0 {
      out.Put(layout, values, 6, p.captureTime, 8);
    }
    assert layout[..|layout|] == layout && values[..|values|] == values;
    out.Append(p.opus);
    return Some(out.contents);
  }
}

/** PCAM v1: camera records as the device delivers them. */
module Camera {
  import opened Bytes
  import opened Layouts
  import opened Wrappers

  const H264: nat := 0x48323634
  const MJPEG: nat := 0x4d4a5047
  const PCAM: nat := 0x5043414d
  const HEADER_BYTES: nat := 64
  const MAX_FRAME_BYTES: nat := 4 * 1024 * 1024

  datatype Format = Format(codec: u32, width: u16, height: u16, colorspace: u32, transfer: u32, ycbcr: u32,
                           quantization: u32)

  datatype Packet = Packet(format: Format, flags: u8, generation: u64, sequence: u64, captureTime: u64,
                           driverSequence: u32, payload: seq<byte>)

  predicate ValidFormat(f: Format) {
    && (f.codec == H264 || f.codec == MJPEG)
    && ((f.width, f.height) == (1280, 720) || (f.width, f.height) == (1920, 1080))
    && f.colorspace <= 12 && f.transfer <= 7 && f.ycbcr <= 8 && f.quantization <= 2
  }

  /** Only the two lowest flags may be set; the lowest one marks a key frame. */
  predicate Valid(p: Packet) {
    && ValidFormat(p.format)
    && p.generation != 0 && p.sequence != U64_MAX
    && 0 < p.captureTime <= I64_MAX / 1000
    && p.flags / 4 == 0 && (p.format.codec != MJPEG || p.flags % 2 == 1)
    && 1 <= |p.payload| <= MAX_FRAME_BYTES
  }

  /** Magic, version, flags, header size, generation, sequence, capture time, codec,
      width, height, four words of colour metadata, driver sequence, zero. */
  const LAYOUT := [Field(0, 4), Field(4, 1), Field(5, 1), Field(6, 2), Field(8, 8), Field(16, 8), Field(24, 8),
                   Field(32, 4), Field(36, 2), Field(38, 2), Field(40, 4), Field(44, 4), Field(48, 4), Field(52, 4),
                   Field(56, 4), Field(60, 4)]

  function Values(p: Packet): (v: seq<nat>)
    ensures |v| == |LAYOUT|
  {
    var f := p.format;
    [PCAM, 1, p.flags, HEADER_BYTES, p.generation, p.sequence, p.captureTime,
     f.codec, f.width, f.height, f.colorspace, f.transfer, f.ycbcr, f.quantization, p.driverSequence, 0]
  }

  function Encode(p: Packet): Option<seq<byte>> {
    if Valid(p) then Some(Write(LAYOUT, Values(p)) + p.payload) else None
  }

  function Decode(bytes: seq<byte>): Option<Packet> {
    if !(HEADER_BYTES + 1 <= |bytes| <= HEADER_BYTES + MAX_FRAME_BYTES) then None
    else
      var v := Fields(bytes);
      if !(v[0] == PCAM && v[1] == 1 && v[3] == HEADER_BYTES && v[15] == 0) then None
      else
        var packet := Packet(Format(v[7], v[8], v[9], v[10], v[11], v[12], v[13]),
                             v[2], v[4], v[5], v[6], v[14], bytes[HEADER_BYTES..]);
        if Valid(packet) then Some(packet) else None
  }

  ghost predicate Typed(v: seq<nat>) {
    && |v| == 16
    && v[2] < 0x100 && v[8] < 0x1_0000 && v[9] < 0x1_0000
    && v[4] <= U64_MAX && v[5] <= U64_MAX && v[6] <= U64_MAX
    && v[7] < 0x1_0000_0000 && v[10] < 0x1_0000_0000 && v[11] < 0x1_0000_0000 && v[12] < 0x1_0000_0000
    && v[13] < 0x1_0000_0000 && v[14] < 0x1_0000_0000
  }

  function Fields(bytes: seq<byte>): (v: seq<nat>)
    requires |bytes| >= HEADER_BYTES
    ensures Typed(v)
  {
    ReadFits(LAYOUT, bytes);
    FitIsTyped(Read(LAYOUT, bytes));
    Read(LAYOUT, bytes)
  }

  lemma {:induction false} FitIsTyped(v: seq<nat>)
    requires Fit(LAYOUT, v)
    ensures Typed(v)
  {
    Powers();
    hide Pow256;
    assert forall k | 0 <= k < 16 :: v[k] < Pow256(LAYOUT[k].width);
  }

  lemma {:induction false} ValuesFit(p: Packet)
    ensures Fit(LAYOUT, Values(p))
  {
    Powers();
    hide Pow256;
  }

  lemma Shape()
    ensures Contiguous(LAYOUT) && End(LAYOUT) == HEADER_BYTES
  {
    forall k | 0 <= k < |LAYOUT| ensures LAYOUT[k].at == End(LAYOUT[..k]) {
    }
  }

  lemma {:induction false} DecodeInvertsEncode(p: Packet)
    requires Valid(p)
    ensures Encode(p).Some? && Decode(Encode(p).value) == Some(p)
  {
    hide Write, Contiguous, End, BigEndian;
    Shape();
    ValuesFit(p);
    ReadInvertsWrite(LAYOUT, Values(p), p.payload);
    WriteLength(LAYOUT, Values(p));
  }

  lemma {:induction false} EncodeInvertsDecode(bytes: seq<byte>)
    requires Decode(bytes).Some?
    ensures Encode(Decode(bytes).value) == Some(bytes)
  {
    hide Write, Contiguous, End, BigEndian;
    Shape();
    assert Fields(bytes) == Values(Decode(bytes).value);
    WriteInvertsRead(LAYOUT, bytes);
    assert bytes == bytes[..HEADER_BYTES] + bytes[HEADER_BYTES..];
  }

  /** The part of the header that both versions share. */
  ghost predicate Head(layout: seq<Field>, v: seq<nat>, version: u8, flags: u8, generation: u64, sequence: u64,
                       captureTime: u64,
                       codec: u32, width: u16, height: u16)
  {
    && |layout| == |v| && |layout| >= 10
    && layout[0].width == 4 && layout[1].width == 1 && layout[2].width == 1 && layout[3].width == 2
    && layout[4].width == layout[5].width == layout[6].width == 8
    && layout[7].width == 4 && layout[8].width == layout[9].width == 2
    && v[0] == PCAM && v[1] == version && v[2] == flags && v[3] == HEADER_BYTES
    && v[4] == generation && v[5] == sequence && v[6] == captureTime
    && v[7] == codec && v[8] == width && v[9] == height
  }

  method PutHead(out: Buffer, ghost layout: seq<Field>, ghost v: seq<nat>, version: u8, flags: u8,
                 generation: u64, sequence: u64, captureTime: u64, codec: u32, width: u16, height: u16)
    requires Head(layout, v, version, flags, generation, sequence, captureTime, codec, width, height)
    requires out.contents == []
    modifies out
    ensures out.contents == Write(layout[..10], v[..10])
  {
    hide Write, ToBigEndian;
    NothingWritten(layout, v);
    out.Put(layout, v, 0, PCAM, 4);
    out.Put(layout, v, 1, version, 1);
    out.Put(layout, v, 2, flags, 1);
    out.Put(layout, v, 3, HEADER_BYTES, 2);
    out.Put(layout, v, 4, generation, 8);
    out.Put(layout, v, 5, sequence, 8);
    out.Put(layout, v, 6, captureTime, 8);
    out.Put(layout, v, 7, codec, 4);
    out.Put(layout, v, 8, width, 2);
    out.Put(layout, v, 9, height, 2);
  }

  ghost predicate Tail(layout: seq<Field>, v: seq<nat>, p: Packet) {
    && |layout| == |v| == 16
    && layout[10].width == layout[11].width == layout[12].width == layout[13].width == 4
    && layout[14].width == layout[15].width == 4
    && v[10] == p.format.colorspace && v[11] == p.format.transfer && v[12] == p.format.ycbcr
    && v[13] == p.format.quantization && v[14] == p.driverSequence && v[15] == 0
  }

  lemma {:induction false} Table(p: Packet)
    ensures Head(LAYOUT, Values(p), 1, p.flags, p.generation, p.sequence, p.captureTime,
                 p.format.codec, p.format.width, p.format.height)
    ensures Tail(LAYOUT, Values(p), p)
  {
  }

  method PutTail(out: Buffer, ghost layout: seq<Field>, ghost v: seq<nat>, p: Packet)
    requires Tail(layout, v, p) && out.contents == Write(layout[..10], v[..10])
    modifies out
    ensures out.contents == Write(layout, v)
  {
    hide Write, ToBigEndian;
    out.Put(layout, v, 10, p.format.colorspace, 4);
    out.Put(layout, v, 11, p.format.transfer, 4);
    out.Put(layout, v, 12, p.format.ycbcr, 4);
    out.Put(layout, v, 13, p.format.quantization, 4);
    out.Put(layout, v, 14, p.driverSequence, 4);
    out.Put(layout, v, 15, 0, 4);
    assert layout[..16] == layout && v[..16] == v;
  }

  method EncodePacket(p: Packet) returns (r: Option<seq<byte>>)
    ensures r == Encode(p)
  {
    if !Valid(p) {
      return None;
    }
    hide Write, Head, Tail, LAYOUT, Values;
    Table(p);
    var out := new Buffer();
    PutHead(out, LAYOUT, Values(p), 1, p.flags, p.generation, p.sequence, p.captureTime,
            p.format.codec, p.format.width, p.format.height);
    PutTail(out, LAYOUT, Values(p), p);
    out.Append(p.payload);
    return Some(out.contents);
  }
}

/** PCAM v2: camera records encoded in hardware on a Mac. */
module EncodedCamera {
  import opened Bytes
  import opened Layouts
  import opened Wrappers
  import Camera

  const MACOS: nat := 1
  const VIDEOTOOLBOX_HARDWARE: nat := 1
  const NV12: nat := 1
  const BT709: nat := 1
  const LIMITED_RANGE: nat := 1

  datatype Format = Format(codec: u32, width: u16, height: u16, platform: u32, encoder: u32, sourcePixelFormat: u32,
                           primaries: u8, transfer: u8, matrix: u8, range: u8, nominalFps: u16)

  datatype Packet = Packet(format: Format, flags: u8, generation: u64, sequence: u64, captureTime: u64,
                           payload: seq<byte>)

  predicate ValidFormat(f: Format) {
    && f.codec == Camera.H264 && (f.width, f.height) == (1280, 720)
    && f.platform == MACOS && f.encoder == VIDEOTOOLBOX_HARDWARE && f.sourcePixelFormat == NV12
    && f.primaries == BT709 && f.transfer == BT709 && f.matrix == BT709 && f.range == LIMITED_RANGE
    && f.nominalFps == 30
  }

  predicate Valid(p: Packet) {
    && ValidFormat(p.format)
    && p.generation != 0 && p.sequence != U64_MAX
    && 0 < p.captureTime <= I64_MAX / 1000
    && p.flags / 4 == 0
    && 1 <= |p.payload| <= Camera.MAX_FRAME_BYTES
  }

  /** As in v1 up to the height; then platform, encoder, pixel format, four bytes of
      colour, frame rate and six zero bytes. */
  const LAYOUT := [Field(0, 4), Field(4, 1), Field(5, 1), Field(6, 2), Field(8, 8), Field(16, 8), Field(24, 8),
                   Field(32, 4), Field(36, 2), Field(38, 2), Field(40, 4), Field(44, 4), Field(48, 4), Field(52, 1),
                   Field(53, 1), Field(54, 1), Field(55, 1), Field(56, 2), Field(58, 2), Field(60, 4)]

  function Values(p: Packet): (v: seq<nat>)
    ensures |v| == |LAYOUT|
  {
    var f := p.format;
    [Camera.PCAM, 2, p.flags, Camera.HEADER_BYTES, p.generation, p.sequence, p.captureTime,
     f.codec, f.width, f.height, f.platform, f.encoder, f.sourcePixelFormat, f.primaries, f.transfer, f.matrix, f.range,
     f.nominalFps, 0, 0]
  }

  function Encode(p: Packet): Option<seq<byte>> {
    if Valid(p) then Some(Write(LAYOUT, Values(p)) + p.payload) else None
  }

  function Decode(bytes: seq<byte>): Option<Packet> {
    if !(Camera.HEADER_BYTES + 1 <= |bytes| <= Camera.HEADER_BYTES + Camera.MAX_FRAME_BYTES) then None
    else
      var v := Fields(bytes);
      if !(v[0] == Camera.PCAM && v[1] == 2 && v[3] == Camera.HEADER_BYTES && v[18] == 0 && v[19] == 0) then None
      else
        var packet := Packet(Format(v[7], v[8], v[9], v[10], v[11], v[12], v[13], v[14], v[15], v[16], v[17]),
                             v[2], v[4], v[5], v[6], bytes[Camera.HEADER_BYTES..]);
        if Valid(packet) then Some(packet) else None
  }

  ghost predicate Typed(v: seq<nat>) {
    && |v| == 20
    && v[2] < 0x100 && v[8] < 0x1_0000 && v[9] < 0x1_0000
    && v[4] <= U64_MAX && v[5] <= U64_MAX && v[6] <= U64_MAX
    && v[7] < 0x1_0000_0000 && v[10] < 0x1_0000_0000 && v[11] < 0x1_0000_0000 && v[12] < 0x1_0000_0000
    && v[13] < 0x100 && v[14] < 0x100 && v[15] < 0x100 && v[16] < 0x100 && v[17] < 0x1_0000
  }

  function Fields(bytes: seq<byte>): (v: seq<nat>)
    requires |bytes| >= Camera.HEADER_BYTES
    ensures Typed(v)
  {
    ReadFits(LAYOUT, bytes);
    FitIsTyped(Read(LAYOUT, bytes));
    Read(LAYOUT, bytes)
  }

  lemma {:induction false} FitIsTyped(v: seq<nat>)
    requires Fit(LAYOUT, v)
    ensures Typed(v)
  {
    Powers();
    hide Pow256;
    assert forall k | 0 <= k < 20 :: v[k] < Pow256(LAYOUT[k].width);
  }

  lemma {:induction false} ValuesFit(p: Packet)
    ensures Fit(LAYOUT, Values(p))
  {
    Powers();
    hide Pow256;
  }

  lemma Shape()
    ensures Contiguous(LAYOUT) && End(LAYOUT) == Camera.HEADER_BYTES
  {
    forall k | 0 <= k < |LAYOUT| ensures LAYOUT[k].at == End(LAYOUT[..k]) {
    }
  }

  lemma {:induction false} DecodeInvertsEncode(p: Packet)
    requires Valid(p)
    ensures Encode(p).Some? && Decode(Encode(p).value) == Some(p)
  {
    hide Write, Contiguous, End, BigEndian;
    Shape();
    ValuesFit(p);
    ReadInvertsWrite(LAYOUT, Values(p), p.payload);
    WriteLength(LAYOUT, Values(p));
  }

  lemma {:induction false} EncodeInvertsDecode(bytes: seq<byte>)
    requires Decode(bytes).Some?
    ensures Encode(Decode(bytes).value) == Some(bytes)
  {
    hide Write, Contiguous, End, BigEndian;
    Shape();
    assert Fields(bytes) == Values(Decode(bytes).value);
    WriteInvertsRead(LAYOUT, bytes);
    assert bytes == bytes[..Camera.HEADER_BYTES] + bytes[Camera.HEADER_BYTES..];
  }

  /** No record is accepted by both versions. */
  lemma {:induction false} VersionsAreDisjoint(bytes: seq<byte>)
    ensures Decode(bytes).None? || Camera.Decode(bytes).None?
  {
    hide BigEndian;
    if Decode(bytes).Some? {
      assert Fields(bytes)[1] == BigEndian(bytes[4..5]) == Camera.Fields(bytes)[1];
    }
  }

  ghost predicate Tail(layout: seq<Field>, v: seq<nat>, p: Packet) {
    && |layout| == |v| == 20
    && layout[10].width == layout[11].width == layout[12].width == 4
    && layout[13].width == layout[14].width == layout[15].width == layout[16].width == 1
    && layout[17].width == layout[18].width == 2 && layout[19].width == 4
    && v[10] == p.format.platform && v[11] == p.format.encoder && v[12] == p.format.sourcePixelFormat
    && v[13] == p.format.primaries && v[14] == p.format.transfer && v[15] == p.format.matrix && v[16] == p.format.range
    && v[17] == p.format.nominalFps && v[18] == 0 && v[19] == 0
  }

  lemma {:induction false} Table(p: Packet)
    ensures Camera.Head(LAYOUT, Values(p), 2, p.flags, p.generation, p.sequence, p.captureTime,
                   p.format.codec, p.format.width, p.format.height)
    ensures Tail(LAYOUT, Values(p), p)
  {
  }

  method PutTail(out: Buffer, ghost layout: seq<Field>, ghost v: seq<nat>, p: Packet)
    requires Tail(layout, v, p) && out.contents == Write(layout[..10], v[..10])
    modifies out
    ensures out.contents == Write(layout, v)
  {
    hide Write, ToBigEndian;
    out.Put(layout, v, 10, p.format.platform, 4);
    out.Put(layout, v, 11, p.format.encoder, 4);
    out.Put(layout, v, 12, p.format.sourcePixelFormat, 4);
    out.Put(layout, v, 13, p.format.primaries, 1);
    out.Put(layout, v, 14, p.format.transfer, 1);
    out.Put(layout, v, 15, p.format.matrix, 1);
    out.Put(layout, v, 16, p.format.range, 1);
    out.Put(layout, v, 17, p.format.nominalFps, 2);
    out.Put(layout, v, 18, 0, 2);
    out.Put(layout, v, 19, 0, 4);
    assert layout[..20] == layout && v[..20] == v;
  }

  method EncodePacket(p: Packet) returns (r: Option<seq<byte>>)
    ensures r == Encode(p)
  {
    if !Valid(p) {
      return None;
    }
    hide Write, Camera.Head, Tail, LAYOUT, Values;
    Table(p);
    var out := new Buffer();
    Camera.PutHead(out, LAYOUT, Values(p), 2, p.flags, p.generation, p.sequence, p.captureTime,
              p.format.codec, p.format.width, p.format.height);
    PutTail(out, LAYOUT, Values(p), p);
    out.Append(p.payload);
    return Some(out.contents);
  }
}

/** The queue record common to both versions. */
module CameraRecord {
  import opened Bytes
  import opened Layouts
  import opened Wrappers
  import Camera
  import EncodedCamera

  datatype Format = Native(native: Camera.Format) | Encoded(encoded: EncodedCamera.Format)

  datatype Record = Record(format: Format, flags: u8, generation: u64, sequence: u64, captureTime: u64,
                           driverSequence: Option<u32>, payload: seq<byte>)

  function Version(f: Format): u32 {
    match f
    case Native(_) => 1
    case Encoded(_) => 2
  }

  function FromNative(p: Camera.Packet): Record {
    Record(Native(p.format), p.flags, p.generation, p.sequence, p.captureTime, Some(p.driverSequence), p.payload)
  }

  function FromEncoded(p: EncodedCamera.Packet): Record {
    Record(Encoded(p.format), p.flags, p.generation, p.sequence, p.captureTime, None, p.payload)
  }

  function Decode(bytes: seq<byte>, version: u32): Option<Record> {
    if version == 1 then
      var p := Camera.Decode(bytes);
      if p.Some? then Some(FromNative(p.value)) else None
    else if version == 2 then
      var p := EncodedCamera.Decode(bytes);
      if p.Some? then Some(FromEncoded(p.value)) else None
    else None
  }

  function Encode(r: Record): Option<seq<byte>> {
    match r.format
    case Native(format) =>
      if r.driverSequence.None? then None
      else Camera.Encode(Camera.Packet(format, r.flags, r.generation, r.sequence, r.captureTime,
                                       r.driverSequence.value, r.payload))
    case Encoded(format) => EncodedCamera.Encode(EncodedCamera.Packet(format, r.flags, r.generation, r.sequence,
                                                                      r.captureTime, r.payload))
  }

  /** A record re-encodes to the bytes it was decoded from, under the version it was
      decoded with, and no bytes decode under two versions. */
  lemma {:induction false} ReEncodes(bytes: seq<byte>, version: u32)
    requires Decode(bytes, version).Some?
    ensures Encode(Decode(bytes, version).value) == Some(bytes)
    ensures Version(Decode(bytes, version).value.format) == version
    ensures forall other: u32 | Decode(bytes, other).Some? :: other == version
  {
    hide Camera.Decode, Camera.Encode, EncodedCamera.Decode, EncodedCamera.Encode;
    EncodedCamera.VersionsAreDisjoint(bytes);
    if version == 1 {
      Camera.EncodeInvertsDecode(bytes);
    } else {
      EncodedCamera.EncodeInvertsDecode(bytes);
    }
  }

  /** An encodable record survives the wire exactly when it does not combine a v2 format
      with a device sequence, which v2 has no field for. */
  lemma {:induction false} SurvivesTheWire(r: Record)
    requires Encode(r).Some?
    ensures Decode(Encode(r).value, Version(r.format)) == Some(r) <==> !(r.format.Encoded? && r.driverSequence.Some?)
  {
    hide Camera.Decode, EncodedCamera.Decode, Write;
    match r.format {
      case Native(format) =>
        Camera.DecodeInvertsEncode(Camera.Packet(format, r.flags, r.generation, r.sequence, r.captureTime,
                                                 r.driverSequence.value, r.payload));
      case Encoded(format) =>
        EncodedCamera.DecodeInvertsEncode(EncodedCamera.Packet(format, r.flags, r.generation, r.sequence,
                                                               r.captureTime, r.payload));
    }
  }

  /** The program makes records only from packets. Such a record always survives. */
  lemma {:induction false} NativeSurvives(p: Camera.Packet)
    requires Camera.Valid(p)
    ensures var r := FromNative(p); Encode(r).Some? && Decode(Encode(r).value, 1) == Some(r) && Version(r.format) == 1
  {
    hide Camera.Decode, Camera.Encode;
    Camera.DecodeInvertsEncode(p);
  }

  lemma {:induction false} EncodedSurvives(p: EncodedCamera.Packet)
    requires EncodedCamera.Valid(p)
    ensures var r := FromEncoded(p); Encode(r).Some? && Decode(Encode(r).value, 2) == Some(r) && Version(r.format) == 2
  {
    hide EncodedCamera.Decode, EncodedCamera.Encode;
    EncodedCamera.DecodeInvertsEncode(p);
  }
}
