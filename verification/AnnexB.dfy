/** Annex B byte streams (Annex B and clause 7.4.2 of ITU-T H.265): the writer of
    annexb-sample.h and the access-unit splitter of plank-probe-vaapi-decode. */
module AnnexB {
  import opened Bytes
  import opened Wrappers

  const MAX_UNITS: nat := 1000000
  const MAX_SAMPLE: nat := 64 * 1024 * 1024
  const AUD_TYPE: nat := 35

  /** A unit is an offset and a length. */
  datatype Unit = Unit(offset: nat, length: nat)

  // ---------------------------------------------------------------- the splitter

  /** Length of the start code at i, 0 if there is none. */
  function Prefix(bytes: seq<byte>, i: nat): (n: nat)
    requires i + 4 < |bytes|
    ensures n == 0 || n == 3 || n == 4
  {
    if bytes[i] == 0 && bytes[i + 1] == 0 then
      if bytes[i + 2] == 1 then 3
      else if bytes[i + 2] == 0 && bytes[i + 3] == 1 then 4
      else 0
    else 0
  }

  function NalType(header: byte): nat {
    header / 2 % 64
  }

  /** The scan of accessUnits from position i on: where the AUD start codes are. */
  function Scan(bytes: seq<byte>, i: nat): seq<nat>
    decreases |bytes| - i
  {
    if i + 4 >= |bytes| then []
    else
      var prefix := Prefix(bytes, i);
      if prefix != 0 && i + prefix + 1 < |bytes| then
        (if NalType(bytes[i + prefix]) == AUD_TYPE then [i] else []) + Scan(bytes, i + prefix + 2)
      else Scan(bytes, i + 1)
  }

  /** Cuts the clip at every start but the first, which moves to the front. */
  function Cut(starts: seq<nat>, end: nat): seq<nat>
    requires starts != []
  {
    [0] + starts[1..] + [end]
  }

  function Units(starts: seq<nat>, end: nat): Result<seq<Unit>> {
    if starts == [] || |starts| > MAX_UNITS then Err
    else
      var cuts := Cut(starts, end);
      Ok(seq(|starts|, k requires 0 <= k < |starts| =>
        Unit(cuts[k], if cuts[k] <= cuts[k + 1] then cuts[k + 1] - cuts[k] else 0)))
  }

  function Split(bytes: seq<byte>): Result<seq<Unit>> {
    Units(Scan(bytes, 0), |bytes|)
  }

  ghost predicate Ascending(starts: seq<nat>, from: nat, end: nat) {
    && (forall k | 0 <= k < |starts| :: from <= starts[k] < end)
    && (forall j, k | 0 <= j < k < |starts| :: starts[j] < starts[k])
  }

  lemma {:induction false} ScanAscends(bytes: seq<byte>, i: nat)
    ensures Ascending(Scan(bytes, i), i, |bytes|)
    decreases |bytes| - i
  {
    if i + 4 < |bytes| {
      var prefix := Prefix(bytes, i);
      if prefix != 0 && i + prefix + 1 < |bytes| {
        ScanAscends(bytes, i + prefix + 2);
      } else {
        ScanAscends(bytes, i + 1);
      }
    }
  }

  /** The units are non-empty, contiguous and cover the whole clip. */
  ghost predicate Tiles(units: seq<Unit>, end: nat) {
    && units != [] && units[0].offset == 0
    && (forall k | 0 <= k < |units| :: units[k].length > 0)
    && (forall j, k | 0 <= j < k < |units| && k == j + 1 :: units[j].offset + units[j].length == units[k].offset)
    && units[|units| - 1].offset + units[|units| - 1].length == end
  }

  lemma {:induction false} UnitsTile(starts: seq<nat>, end: nat)
    requires Ascending(starts, 0, end)
    ensures Units(starts, end).Ok? ==>
              var units := Units(starts, end).value;
              Tiles(units, end) && |units| == |starts| && forall k | 0 < k < |units| :: units[k].offset == starts[k]
  {
  }

  lemma {:induction false} SplitTiles(bytes: seq<byte>)
    ensures Split(bytes).Ok? ==>
              var units := Split(bytes).value;
              && Tiles(units, |bytes|) && |units| == |Scan(bytes, 0)|
              && forall k | 0 < k < |units| :: units[k].offset == Scan(bytes, 0)[k]
    ensures Split(bytes).Err? <==> Scan(bytes, 0) == [] || |Scan(bytes, 0)| > MAX_UNITS
  {
    hide Scan, Ascending, Tiles;
    ScanAscends(bytes, 0);
    UnitsTile(Scan(bytes, 0), |bytes|);
  }

  lemma {:induction false} ScanPasses(bytes: seq<byte>, i: nat)
    requires i + 4 < |bytes| ==> Prefix(bytes, i) == 0 || i + Prefix(bytes, i) + 1 >= |bytes|
    ensures Scan(bytes, i) == if i + 4 < |bytes| then Scan(bytes, i + 1) else []
  {
    hide Prefix;
  }

  lemma {:induction false} ScanFinds(bytes: seq<byte>, i: nat)
    requires i + 4 < |bytes| && Prefix(bytes, i) != 0 && i + Prefix(bytes, i) + 1 < |bytes|
    ensures var prefix := Prefix(bytes, i);
            Scan(bytes, i) == (if NalType(bytes[i + prefix]) == AUD_TYPE then [i] else []) + Scan(bytes, i + prefix + 2)
  {
    hide Prefix, NalType;
  }

  /** The scanning loop of accessUnits; None when there are too many access units. */
  method FindStarts(bytes: seq<byte>) returns (r: Result<seq<nat>>)
    ensures r.Ok? ==> r.value == Scan(bytes, 0)
    ensures r.Err? <==> |Scan(bytes, 0)| > MAX_UNITS
  {
    var starts: seq<nat> := [];
    var i: nat := 0;
    hide Scan, NalType;
    while i + 4 < |bytes|
      invariant |starts| <= MAX_UNITS && Scan(bytes, 0) == starts + Scan(bytes, i)
      decreases |bytes| - i
    {
      var prefix := 0;
      if bytes[i] == 0 && bytes[i + 1] == 0 {
        if bytes[i + 2] == 1 {
          prefix := 3;
        } else if bytes[i + 2] == 0 && bytes[i + 3] == 1 {
          prefix := 4;
        }
      }
      assert prefix == Prefix(bytes, i);
      hide Prefix;
      if prefix != 0 && i + prefix + 1 < |bytes| {
        ScanFinds(bytes, i);
        if NalType(bytes[i + prefix]) == AUD_TYPE {
          Regroup(starts, [i], Scan(bytes, i + prefix + 2));
          if |starts| >= MAX_UNITS {
            return Err;
          }
          starts := starts + [i];
        }
        i := i + prefix + 2;
      } else {
        ScanPasses(bytes, i);
        i := i + 1;
      }
    }
    ScanPasses(bytes, i);
    r := Ok(starts);
  }

  /** accessUnits. */
  method AccessUnits(bytes: seq<byte>) returns (r: Result<seq<Unit>>)
    ensures r == Split(bytes)
    ensures r.Ok? ==> Tiles(r.value, |bytes|)
  {
    SplitTiles(bytes);
    ScanAscends(bytes, 0);
    var found := FindStarts(bytes);
    if found.Err? || found.value == [] {
      return Err;
    }
    var starts := [0] + found.value[1..] + [|bytes|];
    ghost var all := Split(bytes).value;
    var units: seq<Unit> := [];
    var k := 1;
    while k < |starts|
      invariant 1 <= k <= |starts| && units == all[..k - 1]
    {
      assert starts[k - 1] <= starts[k] && all[k - 1] == Unit(starts[k - 1], starts[k] - starts[k - 1]);
      units := units + [Unit(starts[k - 1], starts[k] - starts[k - 1])];
      k := k + 1;
    }
    assert all[..|all|] == all;
    r := Ok(units);
  }

  // ------------------------------------------------------------- well-formed NALs

  /** A NAL unit as an encoder emits it: a two-byte header, no start-code emulation
      and no trailing zero byte. */
  predicate NalUnit(nal: seq<byte>) {
    && |nal| >= 2
    && nal[|nal| - 1] != 0
    && (forall k: nat | k + 2 < |nal| :: !(nal[k] == 0 && nal[k + 1] == 0 && nal[k + 2] <= 2))
  }

  const START_CODE: seq<byte> := [0, 0, 0, 1]

  function Render(nals: seq<seq<byte>>): seq<byte> {
    if nals == [] then [] else START_CODE + nals[0] + Render(nals[1..])
  }

  predicate IsAud(nal: seq<byte>) {
    |nal| > 0 && NalType(nal[0]) == AUD_TYPE
  }

  /** Where the AUDs of a rendering that starts at `from` are. */
  function AudOffsets(nals: seq<seq<byte>>, from: nat): seq<nat> {
    if nals == [] then []
    else (if IsAud(nals[0]) then [from] else []) + AudOffsets(nals[1..], from + 4 + |nals[0]|)
  }

  ghost predicate NalUnits(nals: seq<seq<byte>>) {
    forall k | 0 <= k < |nals| :: NalUnit(nals[k])
  }

  /** Nothing starts inside a NAL unit once the scan is past its header. */
  lemma {:induction false} ScanSkipsNal(bytes: seq<byte>, from: nat, nal: seq<byte>, i: nat)
    requires NalUnit(nal) && 2 <= i <= |nal| && from + |nal| <= |bytes|
    requires bytes[from..from + |nal|] == nal
    ensures Scan(bytes, from + i) == Scan(bytes, from + |nal|)
    decreases |nal| - i
  {
    hide Scan, NalUnit, Prefix;
    if i < |nal| {
      if from + i + 4 < |bytes| {
        NoPrefixInside(bytes, from, nal, i);
        ScanSkipsNal(bytes, from, nal, i + 1);
      }
      ScanPasses(bytes, from + i);
      if from + i + 4 >= |bytes| {
        ScanPasses(bytes, from + |nal|);
      }
    }
  }

  lemma {:induction false} NoPrefixInside(bytes: seq<byte>, from: nat, nal: seq<byte>, i: nat)
    requires NalUnit(nal) && i < |nal| && from + |nal| <= |bytes| && bytes[from..from + |nal|] == nal
    requires from + i + 4 < |bytes|
    ensures Prefix(bytes, from + i) == 0
  {
    var at, body := from + i, bytes[from..from + |nal|];
    assert bytes[at] == body[i];
    if bytes[at] == 0 && bytes[at + 1] == 0 {
      assert i + 1 < |nal| && bytes[at + 1] == body[i + 1];
      assert i + 2 < |nal| && bytes[at + 2] == body[i + 2];
    }
  }

  /** A NAL unit behind its start code 00 00 01 and any number of zero bytes. */
  datatype Coded = Coded(zeros: nat, nal: seq<byte>)

  ghost function Zeros(n: nat): seq<byte> {
    seq(n, _ => 0)
  }

  /** A byte stream in the general form of Annex B. */
  ghost function RenderCoded(units: seq<Coded>): seq<byte> {
    if units == [] then []
    else Zeros(units[0].zeros) + [0, 0, 1] + units[0].nal + RenderCoded(units[1..])
  }

  /** Where its AUDs are: one zero byte before the code counts as part of it. */
  ghost function CodedOffsets(units: seq<Coded>, from: nat): seq<nat> {
    if units == [] then []
    else
      var u := units[0];
      (if IsAud(u.nal) then [from + (if u.zeros == 0 then 0 else u.zeros - 1)] else [])
      + CodedOffsets(units[1..], from + u.zeros + 3 + |u.nal|)
  }

  /** Where a rendering puts its first zero bytes, start code, NAL unit and the rest. */
  lemma {:induction false} CodedAt(bytes: seq<byte>, at: nat, u: Coded, rest: seq<byte>)
    requires at <= |bytes| && bytes[at..] == Zeros(u.zeros) + [0, 0, 1] + u.nal + rest
    ensures var code := at + u.zeros;
            var next := code + 3 + |u.nal|;
            && next <= |bytes|
            && (forall i | at <= i < code :: bytes[i] == 0)
            && bytes[code] == 0 && bytes[code + 1] == 0 && bytes[code + 2] == 1
            && bytes[code + 3..next] == u.nal && bytes[next..] == rest
  {
    var zeros, tag, whole := Zeros(u.zeros), [0, 0, 1], bytes[at..];
    Regroup(zeros + tag, u.nal, rest);
    Regroup(zeros, tag, u.nal + rest);
    PartAt(bytes, at, zeros, tag + (u.nal + rest));
    PartAt(bytes, at + u.zeros, tag, u.nal + rest);
    PartAt(bytes, at + u.zeros + 3, u.nal, rest);
    var part, code := bytes[at..at + u.zeros], bytes[at + u.zeros..at + u.zeros + 3];
    forall i | at <= i < at + u.zeros ensures bytes[i] == 0 {
      assert bytes[i] == part[i - at];
    }
    assert bytes[at + u.zeros] == code[0] && bytes[at + u.zeros + 1] == code[1] && bytes[at + u.zeros + 2] == code[2];
  }

  /** Zero bytes before a start code are passed over, but for one. */
  lemma {:induction false} ScanPassesZeros(bytes: seq<byte>, at: nat, zeros: nat)
    requires at + zeros + 4 < |bytes| && forall i | at <= i < at + zeros :: bytes[i] == 0
    requires bytes[at + zeros] == 0 && bytes[at + zeros + 1] == 0
    ensures Scan(bytes, at) == Scan(bytes, at + if zeros == 0 then 0 else zeros - 1)
    decreases zeros
  {
    hide Scan;
    if zeros > 1 {
      assert bytes[at + 2] == 0 && bytes[at + 3] == 0;
      ScanPasses(bytes, at);
      ScanPassesZeros(bytes, at + 1, zeros - 1);
    }
  }

  lemma {:induction false} ScanAtCode(bytes: seq<byte>, at: nat, u: Coded)
    requires at + u.zeros + 4 < |bytes| && forall i | at <= i < at + u.zeros :: bytes[i] == 0
    requires var code := at + u.zeros; bytes[code] == 0 && bytes[code + 1] == 0 && bytes[code + 2] == 1
    ensures Scan(bytes, at) == (if NalType(bytes[at + u.zeros + 3]) == AUD_TYPE
                                then [at + (if u.zeros == 0 then 0 else u.zeros - 1)] else [])
                               + Scan(bytes, at + u.zeros + 5)
  {
    hide Scan, NalType;
    ScanPassesZeros(bytes, at, u.zeros);
    var found := at + if u.zeros == 0 then 0 else u.zeros - 1;
    assert Prefix(bytes, found) == if u.zeros == 0 then 3 else 4;
    ScanFinds(bytes, found);
  }

  lemma {:induction false} ScanFirstNal(bytes: seq<byte>, at: nat, u: Coded, rest: seq<byte>)
    requires NalUnit(u.nal) && at <= |bytes| && bytes[at..] == Zeros(u.zeros) + [0, 0, 1] + u.nal + rest
    ensures var next := at + u.zeros + 3 + |u.nal|;
            && next <= |bytes| && bytes[next..] == rest
            && Scan(bytes, at) == (if IsAud(u.nal) then [at + (if u.zeros == 0 then 0 else u.zeros - 1)] else [])
                                  + Scan(bytes, next)
  {
    CodedAt(bytes, at, u, rest);
    hide *;
    ScanCodedNal(bytes, at, u);
  }

  lemma {:induction false} ScanCodedNal(bytes: seq<byte>, at: nat, u: Coded)
    requires NalUnit(u.nal) && at + u.zeros + 3 + |u.nal| <= |bytes|
    requires forall i | at <= i < at + u.zeros :: bytes[i] == 0
    requires var code := at + u.zeros; bytes[code] == 0 && bytes[code + 1] == 0 && bytes[code + 2] == 1
    requires bytes[at + u.zeros + 3..at + u.zeros + 3 + |u.nal|] == u.nal
    ensures Scan(bytes, at) == (if IsAud(u.nal) then [at + (if u.zeros == 0 then 0 else u.zeros - 1)] else [])
                               + Scan(bytes, at + u.zeros + 3 + |u.nal|)
  {
    var from := at + u.zeros + 3;
    assert |u.nal| >= 2;
    hide NalUnit, Scan, NalType;
    assert bytes[from] == bytes[from..from + |u.nal|][0];
    ScanAtCode(bytes, at, u);
    ScanSkipsNal(bytes, from, u.nal, 2);
  }

  lemma {:induction false} NothingInZeros(bytes: seq<byte>, at: nat)
    requires at <= |bytes| && forall i | at <= i < |bytes| :: bytes[i] == 0
    ensures Scan(bytes, at) == []
    decreases |bytes| - at
  {
    hide Scan;
    ScanPasses(bytes, at);
    if at + 4 < |bytes| {
      NothingInZeros(bytes, at + 1);
    }
  }

  /** Self-synchronisation: in a byte stream of well-formed NAL units, with start codes of
      three or four bytes and any zero bytes before and behind, the scan finds exactly
      the AUDs. */
  lemma {:induction false} ScanFindsCodedAuds(bytes: seq<byte>, at: nat, units: seq<Coded>, trailing: nat)
    requires (forall k | 0 <= k < |units| :: NalUnit(units[k].nal))
    requires at <= |bytes| && bytes[at..] == RenderCoded(units) + Zeros(trailing)
    ensures Scan(bytes, at) == CodedOffsets(units, at)
    decreases |units|
  {
    hide Scan, NalUnit, IsAud;
    if units == [] {
      forall i | at <= i < |bytes| ensures bytes[i] == 0 {
        assert bytes[i] == bytes[at..][i - at];
      }
      NothingInZeros(bytes, at);
    } else {
      var u, rest := units[0], RenderCoded(units[1..]);
      Regroup(Zeros(u.zeros) + [0, 0, 1] + u.nal, rest, Zeros(trailing));
      hide Zeros;
      ScanFirstNal(bytes, at, u, rest + Zeros(trailing));
      ScanFindsCodedAuds(bytes, at + u.zeros + 3 + |u.nal|, units[1..], trailing);
    }
  }

  ghost function LongCodes(nals: seq<seq<byte>>): (units: seq<Coded>)
    ensures |units| == |nals| && forall k | 0 <= k < |units| :: units[k] == Coded(1, nals[k])
  {
    seq(|nals|, k requires 0 <= k < |nals| => Coded(1, nals[k]))
  }

  lemma {:induction false} RenderedLong(nals: seq<seq<byte>>, from: nat)
    ensures RenderCoded(LongCodes(nals)) == Render(nals)
    ensures CodedOffsets(LongCodes(nals), from) == AudOffsets(nals, from)
    decreases |nals|
  {
    hide IsAud;
    if nals != [] {
      RenderedLong(nals[1..], from + 4 + |nals[0]|);
      assert LongCodes(nals)[1..] == LongCodes(nals[1..]);
      assert Zeros(1) + [0, 0, 1] == START_CODE;
    }
  }

  /** With the four-byte codes of the writer. */
  lemma {:induction false} ScanFindsAuds(bytes: seq<byte>, at: nat, nals: seq<seq<byte>>)
    requires NalUnits(nals) && at <= |bytes| && bytes[at..] == Render(nals)
    ensures Scan(bytes, at) == AudOffsets(nals, at)
  {
    hide Scan, NalUnit, Render;
    RenderedLong(nals, at);
    assert Render(nals) + Zeros(0) == Render(nals);
    ScanFindsCodedAuds(bytes, at, LongCodes(nals), 0);
  }

  /** An access-unit delimiter by its first byte: type 35 in bits 1 to 6. */
  lemma {:induction false} AudHeader(nal: seq<byte>)
    ensures IsAud(nal) <==> nal != [] && (nal[0] == 0x46 || nal[0] == 0x47 || nal[0] == 0xc6 || nal[0] == 0xc7)
  {
  }

  // --------------------------------------------------------------- access units

  /** A sample: an access-unit delimiter first, and no other one. */
  ghost predicate Sample(nals: seq<seq<byte>>) {
    && nals != [] && IsAud(nals[0])
    && NalUnits(nals)
    && (forall k | 1 <= k < |nals| :: !IsAud(nals[k]))
  }

  function Flatten(samples: seq<seq<seq<byte>>>): seq<seq<byte>> {
    if samples == [] then [] else samples[0] + Flatten(samples[1..])
  }

  /** Where the samples of a stream start, if the first one starts at `from`. */
  function SampleOffsets(samples: seq<seq<seq<byte>>>, from: nat): seq<nat> {
    if samples == [] then [] else [from] + SampleOffsets(samples[1..], from + |Render(samples[0])|)
  }

  lemma {:induction false} RenderConcat(a: seq<seq<byte>>, b: seq<seq<byte>>)
    ensures Render(a + b) == Render(a) + Render(b)
  {
    if a == [] {
      assert a + b == b;
    } else {
      assert (a + b)[1..] == a[1..] + b;
      RenderConcat(a[1..], b);
      Regroup(START_CODE + a[0], Render(a[1..]), Render(b));
    }
  }

  lemma {:induction false} AudOffsetsConcat(a: seq<seq<byte>>, b: seq<seq<byte>>, from: nat)
    ensures AudOffsets(a + b, from) == AudOffsets(a, from) + AudOffsets(b, from + |Render(a)|)
  {
    hide IsAud;
    if a == [] {
      assert a + b == b;
    } else {
      var next := from + 4 + |a[0]|;
      assert (a + b)[1..] == a[1..] + b;
      AudOffsetsConcat(a[1..], b, next);
      assert from + |Render(a)| == next + |Render(a[1..])|;
      var head := if IsAud(a[0]) then [from] else [];
      assert AudOffsets(a, from) == head + AudOffsets(a[1..], next);
      assert AudOffsets(a + b, from) == head + AudOffsets(a[1..] + b, next);
      Regroup(head, AudOffsets(a[1..], next), AudOffsets(b, from + |Render(a)|));
    }
  }

  ghost predicate NoAud(nals: seq<seq<byte>>) {
    forall k | 0 <= k < |nals| :: !IsAud(nals[k])
  }

  lemma {:induction false} NoAuds(nals: seq<seq<byte>>, from: nat)
    requires NoAud(nals)
    ensures AudOffsets(nals, from) == []
  {
    if nals != [] {
      assert !IsAud(nals[0]);
      NoAuds(nals[1..], from + 4 + |nals[0]|);
    }
  }

  ghost predicate Samples(samples: seq<seq<seq<byte>>>) {
    forall k | 0 <= k < |samples| :: Sample(samples[k])
  }

  lemma {:induction false} OneAud(nals: seq<seq<byte>>, from: nat)
    requires Sample(nals)
    ensures AudOffsets(nals, from) == [from]
  {
    hide NalUnits, NalType;
    assert NoAud(nals[1..]);
    NoAuds(nals[1..], from + 4 + |nals[0]|);
  }

  lemma {:induction false} AudPerSample(samples: seq<seq<seq<byte>>>, from: nat)
    requires Samples(samples)
    ensures AudOffsets(Flatten(samples), from) == SampleOffsets(samples, from)
  {
    if samples != [] {
      hide AudOffsets, Sample;
      var first, rest := samples[0], samples[1..];
      assert Sample(first) && Samples(rest);
      assert Flatten(samples) == first + Flatten(rest);
      assert SampleOffsets(samples, from) == [from] + SampleOffsets(rest, from + |Render(first)|);
      hide *;
      OneAud(first, from);
      AudOffsetsConcat(first, Flatten(rest), from);
      AudPerSample(rest, from + |Render(first)|);
    }
  }

  lemma {:induction false} FlattenedNals(samples: seq<seq<seq<byte>>>)
    requires Samples(samples)
    ensures NalUnits(Flatten(samples))
  {
    if samples != [] {
      hide NalUnit;
      assert Sample(samples[0]);
      FlattenedNals(samples[1..]);
    }
  }

  /** The stream the writer produces: parameter sets once, then the samples. */
  function Stream(parameters: seq<seq<byte>>, samples: seq<seq<seq<byte>>>): seq<byte> {
    Render(parameters) + Render(Flatten(samples))
  }

  /** What each unit holds: the leading parameter sets join the first sample. */
  function UnitBytes(parameters: seq<seq<byte>>, samples: seq<seq<seq<byte>>>, k: nat): seq<byte>
    requires k < |samples|
  {
    (if k == 0 then Render(parameters) else []) + Render(samples[k])
  }

  /** Where sample k ends. */
  function EndOf(samples: seq<seq<seq<byte>>>, from: nat, k: nat): nat
    requires k < |samples|
  {
    if k == 0 then from + |Render(samples[0])| else EndOf(samples[1..], from + |Render(samples[0])|, k - 1)
  }

  lemma {:induction false} SampleBytes(bytes: seq<byte>, at: nat, samples: seq<seq<seq<byte>>>, k: nat)
    requires k < |samples| && at <= |bytes| && bytes[at..] == Render(Flatten(samples))
    ensures |SampleOffsets(samples, at)| == |samples|
    ensures SampleOffsets(samples, at)[k] <= EndOf(samples, at, k) <= |bytes|
    ensures bytes[SampleOffsets(samples, at)[k]..EndOf(samples, at, k)] == Render(samples[k])
    ensures EndOf(samples, at, k) == if k + 1 < |samples| then SampleOffsets(samples, at)[k + 1] else |bytes|
    decreases |samples|
  {
    var first, rest := samples[0], samples[1..];
    RenderConcat(first, Flatten(rest));
    NothingToRender();
    hide Render, Flatten;
    PartAt(bytes, at, Render(first), Render(Flatten(rest)));
    assert SampleOffsets(samples, at) == [at] + SampleOffsets(rest, at + |Render(first)|);
    if rest != [] {
      SampleBytes(bytes, at + |Render(first)|, rest, if k == 0 then 0 else k - 1);
    }
  }

  lemma NothingToRender()
    ensures Render([]) == [] && Render(Flatten([])) == []
  {
  }

  lemma {:induction false} ScanOfStream(parameters: seq<seq<byte>>, samples: seq<seq<seq<byte>>>)
    requires NalUnits(parameters) && NoAud(parameters) && Samples(samples)
    ensures Scan(Stream(parameters, samples), 0) == SampleOffsets(samples, |Render(parameters)|)
  {
    var nals := parameters + Flatten(samples);
    AudPerSample(samples, |Render(parameters)|);
    FlattenedNals(samples);
    RenderConcat(parameters, Flatten(samples));
    assert NalUnits(nals);
    assert Stream(parameters, samples)[0..] == Render(nals);
    ScanFindsAuds(Stream(parameters, samples), 0, nals);
    AudOffsetsConcat(parameters, Flatten(samples), 0);
    NoAuds(parameters, 0);
  }

  /** The bytes of unit k of a split stream. */
  function UnitOf(bytes: seq<byte>, unit: Unit): seq<byte> {
    if unit.offset + unit.length <= |bytes| then bytes[unit.offset..unit.offset + unit.length] else []
  }

  /** Access-unit recovery. Splitting the stream gives back one unit per sample, with
      the parameter sets in the first, whatever the samples and their number. */
  lemma {:induction false} SplitRecoversSamples(parameters: seq<seq<byte>>, samples: seq<seq<seq<byte>>>)
    requires NalUnits(parameters) && NoAud(parameters) && Samples(samples)
    ensures Split(Stream(parameters, samples)).Ok? <==> 1 <= |samples| <= MAX_UNITS
    ensures Split(Stream(parameters, samples)).Ok? ==>
              var units := Split(Stream(parameters, samples)).value;
              && |units| == |samples|
              && forall k | 0 <= k < |units| ::
                   UnitOf(Stream(parameters, samples), units[k]) == UnitBytes(parameters, samples, k)
  {
    var all, lead := Stream(parameters, samples), |Render(parameters)|;
    ScanOfStream(parameters, samples);
    hide Scan, Stream, Render, Samples, NalUnits, NoAud, Flatten;
    if samples != [] {
      UnitOfStream(parameters, samples, 0);
    }
    if 1 <= |samples| <= MAX_UNITS {
      var units := Split(all).value;
      forall k | 0 <= k < |units|
        ensures UnitOf(all, units[k]) == UnitBytes(parameters, samples, k)
      {
        UnitOfStream(parameters, samples, k);
      }
    }
  }

  lemma {:induction false} UnitOfStream(parameters: seq<seq<byte>>, samples: seq<seq<seq<byte>>>, k: nat)
    requires k < |samples|
    ensures |SampleOffsets(samples, |Render(parameters)|)| == |samples|
    ensures var all := Stream(parameters, samples);
            var cuts := Cut(SampleOffsets(samples, |Render(parameters)|), |all|);
            && cuts[k] <= cuts[k + 1] <= |all|
            && all[cuts[k]..cuts[k + 1]] == UnitBytes(parameters, samples, k)
  {
    var all, lead := Stream(parameters, samples), |Render(parameters)|;
    var offsets, end := SampleOffsets(samples, lead), EndOf(samples, lead, k);
    assert offsets[0] == lead;
    hide Flatten, Render, SampleOffsets, EndOf;
    assert all[..lead] == Render(parameters) && all[lead..] == Render(Flatten(samples));
    SampleBytes(all, lead, samples, k);
    hide Stream;
    assert Cut(offsets, |all|)[k + 1] == end;
    if k == 0 {
      Adjacent(all, lead, end);
      assert all[0..end] == all[..end];
    } else {
      assert Cut(offsets, |all|)[k] == offsets[k];
      assert [] + Render(samples[k]) == Render(samples[k]);
    }
  }

  // ------------------------------------------------------------------ the writer

  /** The length-prefixed form of a sample, as the encoder delivers it. */
  function Prefixed(nals: seq<seq<byte>>): seq<byte> {
    if nals == [] then [] else ToBigEndian(|nals[0]|, 4) + nals[0] + Prefixed(nals[1..])
  }

  /** Whether a conversion succeeded, and the NAL units written by then. */
  datatype Conversion = Conversion(ok: bool, nals: seq<seq<byte>>)

  /** What PLANKWriteAnnexBSample does from `offset` on. */
  function Convert(data: seq<byte>, offset: nat): Conversion
    requires offset <= |data|
    decreases |data| - offset
  {
    if offset == |data| then Conversion(true, [])
    else if |data| - offset < 4 then Conversion(false, [])
    else
      var length := BigEndian(data[offset..offset + 4]);
      if length == 0 || length > |data| - offset - 4 then Conversion(false, [])
      else
        var rest := Convert(data, offset + 4 + length);
        Conversion(rest.ok, [data[offset + 4..offset + 4 + length]] + rest.nals)
  }

  class File {
    var contents: seq<byte>

    constructor ()
      ensures contents == []
    {
      contents := [];
    }

    method Write(bytes: seq<byte>)
      modifies this
      ensures contents == old(contents) + bytes
    {
      contents := contents + bytes;
    }
  }

  /** The parameter sets of a first sample. */
  method WriteParameters(output: File, parameters: seq<seq<byte>>)
    modifies output
    ensures output.contents == old(output.contents) + Render(parameters)
  {
    var i := 0;
    while i < |parameters|
      invariant i <= |parameters| && output.contents == old(output.contents) + Render(parameters[..i])
    {
      RenderSnoc(parameters[..i], parameters[i]);
      assert parameters[..i] + [parameters[i]] == parameters[..i + 1];
      output.Write(START_CODE);
      output.Write(parameters[i]);
      i := i + 1;
    }
    assert parameters[..i] == parameters;
  }

  /** Part of the units are converted, the rest is still to come. */
  ghost predicate Splits(all: Conversion, done: seq<seq<byte>>, left: Conversion) {
    all.ok == left.ok && all.nals == done + left.nals
  }

  predicate Convertible(data: seq<byte>, offset: nat)
    requires offset <= |data|
  {
    |data| - offset >= 4 && 0 < BigEndian(data[offset..offset + 4]) <= |data| - offset - 4
  }

  lemma {:induction false} OneMore(data: seq<byte>, offset: nat, all: Conversion, done: seq<seq<byte>>)
    requires offset < |data| && Splits(all, done, Convert(data, offset))
    ensures !Convertible(data, offset) ==> all == Conversion(false, done)
    ensures Convertible(data, offset) ==>
              var next := offset + 4 + BigEndian(data[offset..offset + 4]);
              Splits(all, done + [data[offset + 4..next]], Convert(data, next))
  {
    hide BigEndian;
    assert done + [] == done;
    if Convertible(data, offset) {
      var next := offset + 4 + BigEndian(data[offset..offset + 4]);
      var nal, rest := data[offset + 4..next], Convert(data, next);
      assert done + ([nal] + rest.nals) == (done + [nal]) + rest.nals;
    }
  }

  lemma {:induction false} NothingDone(all: Conversion)
    ensures Splits(all, [], all)
  {
  }

  lemma {:induction false} AllDone(data: seq<byte>, all: Conversion, done: seq<seq<byte>>)
    requires Splits(all, done, Convert(data, |data|))
    ensures all == Conversion(true, done)
  {
    assert done + [] == done;
  }

  /** The loop over the length-prefixed units. */
  method WriteUnits(output: File, data: seq<byte>) returns (ok: bool)
    modifies output
    ensures ok == Convert(data, 0).ok
    ensures output.contents == old(output.contents) + Render(Convert(data, 0).nals)
  {
    NothingToRender();
    hide Render, BigEndian, Convert, Splits;
    var offset := 0;
    ghost var all := Convert(data, 0);
    ghost var done: seq<seq<byte>> := [];
    NothingDone(all);
    while offset < |data|
      invariant offset <= |data|
      invariant output.contents == old(output.contents) + Render(done)
      invariant Splits(all, done, Convert(data, offset))
      decreases |data| - offset
    {
      OneMore(data, offset, all, done);
      if |data| - offset < 4 {
        return false;
      }
      var length := BigEndian(data[offset..offset + 4]);
      if length == 0 || length > |data| - offset - 4 {
        return false;
      }
      var nal := data[offset + 4..offset + 4 + length];
      WriteUnit(output, done, nal);
      done := done + [nal];
      offset := offset + 4 + length;
    }
    AllDone(data, all, done);
    return true;
  }

  /** A start code and the unit. */
  method WriteUnit(output: File, ghost done: seq<seq<byte>>, nal: seq<byte>)
    modifies output
    ensures output.contents == old(output.contents) + START_CODE + nal
    ensures forall head: seq<byte> | old(output.contents) == head + Render(done) ::
              output.contents == head + Render(done + [nal])
  {
    ghost var before := output.contents;
    RenderSnoc(done, nal);
    hide Render;
    output.Write(START_CODE);
    output.Write(nal);
    forall head: seq<byte> | before == head + Render(done) ensures output.contents == head + Render(done + [nal]) {
      Regroup(head, Render(done), START_CODE);
      Regroup(head, Render(done) + START_CODE, nal);
    }
  }

  /** PLANKWriteAnnexBSample; a failing fwrite is not modelled. */
  method WriteSample(output: File, parameters: seq<seq<byte>>, first: bool, data: seq<byte>) returns (ok: bool)
    modifies output
    ensures var lead := if first && |parameters| <= 8 then Render(parameters) else [];
            var tried := |parameters| <= 8 && 0 < |data| <= MAX_SAMPLE;
            && (ok <==> tried && Convert(data, 0).ok)
            && output.contents == old(output.contents) + lead + (if tried then Render(Convert(data, 0).nals) else [])
  {
    if |parameters| > 8 {
      return false;
    }
    hide Render, Convert;
    ghost var start := output.contents;
    if first {
      WriteParameters(output, parameters);
    } else {
      assert start + [] == start;
    }
    ghost var before := output.contents;
    if |data| == 0 || |data| > MAX_SAMPLE {
      assert before + [] == before;
      return false;
    }
    ok := WriteUnits(output, data);
  }

  lemma {:induction false} RenderSnoc(nals: seq<seq<byte>>, nal: seq<byte>)
    ensures Render(nals + [nal]) == Render(nals) + START_CODE + nal
  {
    RenderConcat(nals, [nal]);
    assert Render([nal]) == START_CODE + nal + Render([]);
  }

  ghost predicate Lengths(nals: seq<seq<byte>>) {
    forall k | 0 <= k < |nals| :: 0 < |nals[k]| < 0x1_0000_0000
  }

  /** The conversion accepts exactly the length-prefixed sequences of non-empty NAL
      units, and writes exactly those units. */
  lemma {:induction false} ConvertInvertsPrefixed(data: seq<byte>, offset: nat, nals: seq<seq<byte>>)
    requires Lengths(nals) && offset <= |data| && data[offset..] == Prefixed(nals)
    ensures Convert(data, offset) == Conversion(true, nals)
    decreases |nals|
  {
    if nals != [] {
      var nal, rest := nals[0], nals[1..];
      var size := ToBigEndian(|nal|, 4);
      Powers();
      BigEndianWrites(|nal|, 4);
      assert Prefixed(nals) == size + nal + Prefixed(rest);
      Regroup(size, nal, Prefixed(rest));
      hide Pow256, BigEndian, ToBigEndian, Prefixed;
      PartAt(data, offset, size, nal + Prefixed(rest));
      PartAt(data, offset + 4, nal, Prefixed(rest));
      ConvertInvertsPrefixed(data, offset + 4 + |nal|, rest);
      assert nals == [nal] + rest;
    }
  }

  lemma {:induction false} PrefixedInvertsConvert(data: seq<byte>, offset: nat)
    requires offset <= |data| && Convert(data, offset).ok
    ensures Lengths(Convert(data, offset).nals)
    ensures data[offset..] == Prefixed(Convert(data, offset).nals)
    decreases |data| - offset
  {
    if offset < |data| {
      var size := data[offset..offset + 4];
      var length := BigEndian(size);
      BigEndianReads(size);
      Powers();
      var nal := data[offset + 4..offset + 4 + length];
      PrefixedInvertsConvert(data, offset + 4 + length);
      assert data[offset..] == size + nal + data[offset + 4 + length..];
    }
  }

  /** Exactness: a buffer converts, and to these units, iff it is their length-prefixed form. */
  lemma {:induction false} ConversionIsExact(data: seq<byte>, nals: seq<seq<byte>>)
    requires Lengths(nals)
    ensures data == Prefixed(nals) <==> Convert(data, 0) == Conversion(true, nals)
  {
    assert data[0..] == data;
    if data == Prefixed(nals) {
      ConvertInvertsPrefixed(data, 0, nals);
    }
    if Convert(data, 0).ok {
      PrefixedInvertsConvert(data, 0);
    }
  }

  /** What the writer accepts: at most eight parameter sets, and non-empty sample
      buffers of at most 64 MiB. */
  ghost predicate Writable(parameters: seq<seq<byte>>, buffers: seq<seq<byte>>) {
    |parameters| <= 8 && forall k | 0 <= k < |buffers| :: 0 < |buffers[k]| <= MAX_SAMPLE
  }

  /** What WriteSample appends for one sample buffer after the other. */
  function Written(buffers: seq<seq<byte>>): seq<byte> {
    if buffers == [] then [] else Render(Convert(buffers[0], 0).nals) + Written(buffers[1..])
  }

  lemma {:induction false} WrittenSnoc(buffers: seq<seq<byte>>, data: seq<byte>)
    ensures Written(buffers + [data]) == Written(buffers) + Render(Convert(data, 0).nals)
  {
    hide Convert, Render;
    if buffers == [] {
      assert [data][1..] == [];
      assert Written([data]) == Render(Convert(data, 0).nals) + Written([]);
    } else {
      assert (buffers + [data])[1..] == buffers[1..] + [data];
      WrittenSnoc(buffers[1..], data);
    }
  }

  ghost predicate AllConvert(buffers: seq<seq<byte>>) {
    forall k | 0 <= k < |buffers| :: Convert(buffers[k], 0).ok
  }

  /** A probe's output loop: the first sample brings the parameter sets. */
  method WriteSamples(output: File, parameters: seq<seq<byte>>, buffers: seq<seq<byte>>) returns (ok: bool)
    requires Writable(parameters, buffers)
    modifies output
    ensures ok <==> AllConvert(buffers)
    ensures ok ==> output.contents
                   == old(output.contents) + (if buffers == [] then [] else Render(parameters)) + Written(buffers)
  {
    hide Convert, Render, Written;
    ghost var start := output.contents;
    ghost var lead := if buffers == [] then [] else Render(parameters);
    NothingWritten();
    var i := 0;
    while i < |buffers|
      invariant i <= |buffers| && AllConvert(buffers[..i])
      invariant output.contents == if i == 0 then start else start + lead + Written(buffers[..i])
    {
      ghost var before := output.contents;
      ok := WriteSample(output, parameters, i == 0, buffers[i]);
      if !ok {
        return;
      }
      assert buffers[..i + 1] == buffers[..i] + [buffers[i]];
      WrittenSnoc(buffers[..i], buffers[i]);
      if i == 0 {
        assert buffers[..0] == [] && start + lead + [] == start + lead;
        Regroup(start + lead, [], Render(Convert(buffers[i], 0).nals));
      } else {
        assert before + [] == before;
        Regroup(start + lead, Written(buffers[..i]), Render(Convert(buffers[i], 0).nals));
      }
      i := i + 1;
    }
    assert buffers[..|buffers|] == buffers;
    assert buffers == [] ==> start + [] + [] == start;
    return true;
  }

  lemma {:induction false} NothingWritten()
    ensures Written([]) == []
  {
  }

  lemma {:induction false} WrittenIsRendered(buffers: seq<seq<byte>>, samples: seq<seq<seq<byte>>>)
    requires |buffers| == |samples|
    requires forall k | 0 <= k < |samples| :: Lengths(samples[k]) && buffers[k] == Prefixed(samples[k])
    ensures Written(buffers) == Render(Flatten(samples))
  {
    if samples != [] {
      ConversionIsExact(buffers[0], samples[0]);
      WrittenIsRendered(buffers[1..], samples[1..]);
      RenderConcat(samples[0], Flatten(samples[1..]));
    }
  }

  /** End to end: what WriteSamples writes for these sample buffers comes back from the
      splitter one access unit per sample. */
  lemma {:induction false} WriterThenSplitter(parameters: seq<seq<byte>>, buffers: seq<seq<byte>>,
                                              samples: seq<seq<seq<byte>>>)
    requires Writable(parameters, buffers)
    requires |buffers| == |samples| && 1 <= |samples| <= MAX_UNITS
    requires forall k | 0 <= k < |samples| :: Lengths(samples[k]) && buffers[k] == Prefixed(samples[k])
    requires NalUnits(parameters) && NoAud(parameters) && Samples(samples)
    ensures AllConvert(buffers)
    ensures var file := Render(parameters) + Written(buffers);
            && Split(file).Ok? && |Split(file).value| == |samples|
            && forall k | 0 <= k < |samples| :: UnitOf(file, Split(file).value[k]) == UnitBytes(parameters, samples, k)
  {
    forall k | 0 <= k < |buffers| ensures Convert(buffers[k], 0).ok {
      ConversionIsExact(buffers[k], samples[k]);
    }
    WrittenIsRendered(buffers, samples);
    hide Split, Convert, Samples, NalUnits, NoAud, Render;
    SplitRecoversSamples(parameters, samples);
  }
}
