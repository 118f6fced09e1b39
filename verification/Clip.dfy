/** The indexed reader of recordings and Annex B clips in plank-probe-vaapi-decode,
    and its agreement with the recorder. */
module Clip {
  import opened Bytes
  import opened Wrappers
  import AnnexB
  import Recorder

  const MAX_CLIP: nat := 256 * 1024 * 1024
  const MAX_RECORDING: nat := 4 * 1024 * 1024 * 1024

  /** One packet of the index: where its bytes are, how many, and its flags. */
  datatype Entry = Entry(offset: nat, length: nat, flags: nat)

  /** The headers from `offset` on, when `count` packets are indexed already. */
  function Index(bytes: seq<byte>, offset: nat, count: nat): Result<seq<Entry>>
    requires offset <= |bytes|
    decreases |bytes| - offset
  {
    if offset == |bytes| then Ok([])
    else if |bytes| - offset < 8 then Err
    else
      var length := LittleEndian(bytes[offset..offset + 4]);
      if !(0 < length <= Recorder.MAX_PACKET && length <= |bytes| - offset - 8) || count >= AnnexB.MAX_UNITS then Err
      else
        match Index(bytes, offset + 8 + length, count + 1)
        case Err => Err
        case Ok(rest) => Ok([Entry(offset + 8, length, LittleEndian(bytes[offset + 4..offset + 8]))] + rest)
  }

  predicate IsRecording(bytes: seq<byte>) {
    Recorder.MAGIC <= bytes
  }

  /** The Clip constructor on a file with these contents. */
  function Open(bytes: seq<byte>): Result<seq<Entry>> {
    if !(8 <= |bytes| <= MAX_RECORDING) then Err
    else if !IsRecording(bytes) then
      if |bytes| > MAX_CLIP then Err
      else match AnnexB.Split(bytes)
           case Err => Err
           case Ok(units) => Ok(Controls(units))
    else match Index(bytes, 8, 0)
         case Err => Err
         case Ok(entries) => if entries == [] then Err else Ok(entries)
  }

  /** Annex B controls have no recorded flags. */
  function Controls(units: seq<AnnexB.Unit>): seq<Entry> {
    seq(|units|, k requires 0 <= k < |units| => Entry(units[k].offset, units[k].length, 0))
  }

  function Payload(bytes: seq<byte>, e: Entry): seq<byte> {
    if e.offset + e.length <= |bytes| then bytes[e.offset..e.offset + e.length] else []
  }

  /** The packets an index stands for. */
  function Packets(bytes: seq<byte>, entries: seq<Entry>): seq<Recorder.Packet> {
    seq(|entries|, k requires 0 <= k < |entries| => Recorder.Packet(entries[k].flags, Payload(bytes, entries[k])))
  }

  ghost predicate Recordables(packets: seq<Recorder.Packet>) {
    forall k | 0 <= k < |packets| :: Recorder.Recordable(packets[k])
  }

  lemma {:induction false} PacketsCons(bytes: seq<byte>, e: Entry, rest: seq<Entry>)
    ensures Packets(bytes, [e] + rest) == [Recorder.Packet(e.flags, Payload(bytes, e))] + Packets(bytes, rest)
  {
  }

  /** Where a rendering puts its first record and the rest. */
  lemma {:induction false} RecordAt(bytes: seq<byte>, offset: nat, packets: seq<Recorder.Packet>)
    requires packets != [] && Recorder.Recordable(packets[0])
    requires offset <= |bytes| && bytes[offset..] == Recorder.Body(packets)
    ensures var p := packets[0];
            var next := offset + 8 + |p.data|;
            && next <= |bytes|
            && LittleEndian(bytes[offset..offset + 4]) == |p.data|
            && LittleEndian(bytes[offset + 4..offset + 8]) == p.flags
            && bytes[offset + 8..next] == p.data
            && bytes[next..] == Recorder.Body(packets[1..])
  {
    var p := packets[0];
    var size, flags := ToLittleEndian(|p.data|, 4), ToLittleEndian(p.flags, 4);
    Powers();
    LittleEndianWrites(|p.data|, 4);
    LittleEndianWrites(p.flags, 4);
    hide LittleEndian, ToLittleEndian, Pow256;
    var all := bytes[offset..];
    assert all == size + flags + p.data + Recorder.Body(packets[1..]);
    assert bytes[offset..offset + 4] == all[..4] == size;
    assert bytes[offset + 4..offset + 8] == all[4..8] == flags;
    assert bytes[offset + 8..offset + 8 + |p.data|] == all[8..8 + |p.data|] == p.data;
    assert bytes[offset + 8 + |p.data|..] == all[8 + |p.data|..];
  }

  /** Indexing a rendering gives back its packets, as long as there are not too many. */
  lemma {:induction false} IndexReadsBody(bytes: seq<byte>, offset: nat, count: nat, packets: seq<Recorder.Packet>)
    requires Recordables(packets) && count <= AnnexB.MAX_UNITS
    requires offset <= |bytes| && bytes[offset..] == Recorder.Body(packets)
    ensures Index(bytes, offset, count).Ok? <==> count + |packets| <= AnnexB.MAX_UNITS
    ensures Index(bytes, offset, count).Ok? ==> Packets(bytes, Index(bytes, offset, count).value) == packets
    decreases |packets|
  {
    if packets != [] {
      RecordAt(bytes, offset, packets);
      hide Recorder.Body, LittleEndian, Packets;
      if count < AnnexB.MAX_UNITS {
        var next := offset + 8 + |packets[0].data|;
        IndexReadsBody(bytes, next, count + 1, packets[1..]);
        if Index(bytes, next, count + 1).Ok? {
          var e := Entry(offset + 8, |packets[0].data|, packets[0].flags);
          PacketsCons(bytes, e, Index(bytes, next, count + 1).value);
        }
      }
    }
  }

  /** And conversely: what is accepted is the rendering of the packets found. */
  lemma {:induction false} IndexIsBody(bytes: seq<byte>, offset: nat, count: nat)
    requires offset <= |bytes| && Index(bytes, offset, count).Ok?
    ensures Recordables(Packets(bytes, Index(bytes, offset, count).value))
    ensures bytes[offset..] == Recorder.Body(Packets(bytes, Index(bytes, offset, count).value))
    decreases |bytes| - offset
  {
    if offset < |bytes| {
      var size, flags := bytes[offset..offset + 4], bytes[offset + 4..offset + 8];
      var length := LittleEndian(size);
      var next := offset + 8 + length;
      LittleEndianReads(size);
      LittleEndianReads(flags);
      Powers();
      hide LittleEndian, ToLittleEndian, Pow256, Packets;
      IndexIsBody(bytes, next, count + 1);
      var rest := Index(bytes, next, count + 1).value;
      var p := Recorder.Packet(LittleEndian(flags), bytes[offset + 8..next]);
      PacketsCons(bytes, Entry(offset + 8, length, LittleEndian(flags)), rest);
      assert Index(bytes, offset, count).value == [Entry(offset + 8, length, LittleEndian(flags))] + rest;
      hide Index;
      assert Recorder.Record(p) == size + flags + p.data;
      BodyCons(p, Packets(bytes, rest));
      hide Recorder.Body, Recorder.Record;
      CutRecord(bytes, offset, next);
    }
  }

  lemma {:induction false} BodyCons(p: Recorder.Packet, rest: seq<Recorder.Packet>)
    ensures Recorder.Body([p] + rest) == Recorder.Record(p) + Recorder.Body(rest)
  {
    assert ([p] + rest)[1..] == rest;
  }

  lemma {:induction false} CutRecord(bytes: seq<byte>, offset: nat, next: nat)
    requires offset + 8 <= next <= |bytes|
    ensures bytes[offset..]
         == bytes[offset..offset + 4] + bytes[offset + 4..offset + 8] + bytes[offset + 8..next] + bytes[next..]
  {
  }

  /** Recorder and reader are inverse: a file is accepted as a recording of exactly
      these packets if and only if it is what the recorder writes for them and not too
      long. */
  lemma {:induction false} RecordingsAreExactlyFiles(bytes: seq<byte>, packets: seq<Recorder.Packet>)
    requires Recordables(packets)
    ensures bytes == Recorder.FileOf(packets) && 1 <= |packets| <= AnnexB.MAX_UNITS && |bytes| <= MAX_RECORDING
       <==> IsRecording(bytes) && Open(bytes).Ok? && Packets(bytes, Open(bytes).value) == packets
  {
    if bytes == Recorder.FileOf(packets) && 1 <= |packets| <= AnnexB.MAX_UNITS && |bytes| <= MAX_RECORDING {
      assert bytes[8..] == Recorder.Body(packets);
      IndexReadsBody(bytes, 8, 0, packets);
    }
    if IsRecording(bytes) && Open(bytes).Ok? && Packets(bytes, Open(bytes).value) == packets {
      IndexIsBody(bytes, 8, 0);
      assert bytes == bytes[..8] + bytes[8..];
      IndexCount(bytes, 8, 0);
    }
  }

  lemma {:induction false} IndexCount(bytes: seq<byte>, offset: nat, count: nat)
    requires offset <= |bytes| && count <= AnnexB.MAX_UNITS && Index(bytes, offset, count).Ok?
    ensures count + |Index(bytes, offset, count).value| <= AnnexB.MAX_UNITS
    decreases |bytes| - offset
  {
    if offset < |bytes| {
      IndexCount(bytes, offset + 8 + LittleEndian(bytes[offset..offset + 4]), count + 1);
    }
  }

  /** Whatever the decoders did: while recording has not stopped, every file that
      holds at most a million packets is accepted and gives back its lifetime. */
  lemma {:induction false} RecordedLifetimesReplay(events: seq<Recorder.Event>, k: nat)
    requires forall i | 0 <= i < |events| :: Recorder.Possible(events[i])
    requires !Recorder.Run(events).stopped && k < |Recorder.Run(events).files|
    ensures |Recorder.Run(events).files| == |Recorder.Expected(events).packets|
    ensures var file, lifetime := Recorder.Run(events).files[k], Recorder.Expected(events).packets[k];
            |lifetime| <= AnnexB.MAX_UNITS ==>
              Open(file).Ok? && IsRecording(file) && Packets(file, Open(file).value) == lifetime
  {
    Recorder.FilesAreLifetimes(events);
    LifetimesAreRecordable(events, k);
    FileWithinTotal(Recorder.Run(events).files, k);
    RecordingsAreExactlyFiles(Recorder.Run(events).files[k], Recorder.Expected(events).packets[k]);
  }

  lemma {:induction false} LifetimesAreRecordable(events: seq<Recorder.Event>, k: nat)
    requires forall i | 0 <= i < |events| :: Recorder.Possible(events[i])
    requires k < |Recorder.Expected(events).packets|
    ensures Recordables(Recorder.Expected(events).packets[k]) && Recorder.Expected(events).packets[k] != []
  {
    var before := events[..|events| - 1];
    if k < |Recorder.Expected(before).packets| {
      LifetimesAreRecordable(before, k);
    }
  }

  lemma {:induction false} FileWithinTotal(files: seq<seq<byte>>, k: nat)
    requires k < |files|
    ensures |files[k]| <= Recorder.Total(files)
  {
    if k < |files| - 1 {
      FileWithinTotal(files[..|files| - 1], k);
    }
  }

  // ------------------------------------------------------------------ Annex B clips

  /** The data of all packets, one after the other. */
  ghost function Concat(packets: seq<Recorder.Packet>): seq<byte> {
    if packets == [] then [] else Concat(packets[..|packets| - 1]) + packets[|packets| - 1].data
  }

  lemma {:induction false} TilesFit(units: seq<AnnexB.Unit>, end: nat, k: nat)
    requires AnnexB.Tiles(units, end) && k < |units|
    ensures units[k].offset + units[k].length <= end
    decreases |units| - k
  {
    if k + 1 < |units| {
      TilesFit(units, end, k + 1);
    }
  }

  /** Where unit k of a tiling starts. */
  ghost function Boundary(units: seq<AnnexB.Unit>, end: nat, k: nat): nat
    requires k <= |units|
  {
    if k < |units| then units[k].offset else end
  }

  lemma {:induction false} ConcatBefore(bytes: seq<byte>, units: seq<AnnexB.Unit>, k: nat)
    requires AnnexB.Tiles(units, |bytes|) && k <= |units|
    ensures Boundary(units, |bytes|, k) <= |bytes|
    ensures Concat(Packets(bytes, Controls(units))[..k]) == bytes[..Boundary(units, |bytes|, k)]
  {
    if k > 0 {
      var packets, unit := Packets(bytes, Controls(units)), units[k - 1];
      ConcatBefore(bytes, units, k - 1);
      TilesFit(units, |bytes|, k - 1);
      assert unit.offset + unit.length == Boundary(units, |bytes|, k);
      assert packets[..k][..k - 1] == packets[..k - 1];
      assert packets[..k][k - 1].data == bytes[unit.offset..unit.offset + unit.length];
      hide AnnexB.Tiles, Packets, Controls;
      Adjacent(bytes, unit.offset, unit.offset + unit.length);
    } else {
      assert units[0].offset == 0;
    }
  }

  /** What is not a recording is accepted exactly if it is not too long and the scan
      finds access units, not too many; its packets carry no flags, none is empty, and
      together they are the clip. */
  lemma {:induction false} OtherClips(bytes: seq<byte>)
    requires !IsRecording(bytes)
    ensures Open(bytes).Ok? <==> 8 <= |bytes| <= MAX_CLIP && 1 <= |AnnexB.Scan(bytes, 0)| <= AnnexB.MAX_UNITS
    ensures Open(bytes).Ok? ==>
              var packets := Packets(bytes, Open(bytes).value);
              && |packets| == |AnnexB.Scan(bytes, 0)|
              && (forall k | 0 <= k < |packets| :: packets[k].flags == 0 && packets[k].data != [])
              && Concat(packets) == bytes
  {
    AnnexB.SplitTiles(bytes);
    hide AnnexB.Scan;
    if Open(bytes).Ok? {
      var units := AnnexB.Split(bytes).value;
      hide AnnexB.Split;
      var packets := Packets(bytes, Controls(units));
      forall k | 0 <= k < |packets| ensures packets[k].data != [] {
        TilesFit(units, |bytes|, k);
      }
      ConcatBefore(bytes, units, |units|);
      assert packets[..|units|] == packets;
    }
  }

  /** A clip of parameter sets and samples gives one packet for each sample, the parameter
      sets in front of the first. */
  lemma {:induction false} SamplesArePackets(parameters: seq<seq<byte>>, samples: seq<seq<seq<byte>>>)
    requires AnnexB.NalUnits(parameters) && AnnexB.NoAud(parameters) && AnnexB.Samples(samples)
    requires 8 <= |AnnexB.Stream(parameters, samples)| <= MAX_CLIP
    ensures var clip := AnnexB.Stream(parameters, samples);
            && !IsRecording(clip)
            && (Open(clip).Ok? <==> 1 <= |samples| <= AnnexB.MAX_UNITS)
            && (Open(clip).Ok? ==>
                  && |Packets(clip, Open(clip).value)| == |samples|
                  && forall k | 0 <= k < |samples| ::
                       Packets(clip, Open(clip).value)[k]
                       == Recorder.Packet(0, AnnexB.UnitBytes(parameters, samples, k)))
  {
    var clip := AnnexB.Stream(parameters, samples);
    StartsWithCode(parameters, samples);
    AnnexB.SplitRecoversSamples(parameters, samples);
    hide AnnexB.Stream, AnnexB.Split, AnnexB.UnitBytes, AnnexB.Samples, AnnexB.NalUnits, AnnexB.NoAud;
    if Open(clip).Ok? {
      var units := AnnexB.Split(clip).value;
      forall k | 0 <= k < |samples|
        ensures Packets(clip, Controls(units))[k] == Recorder.Packet(0, AnnexB.UnitBytes(parameters, samples, k))
      {
        assert AnnexB.UnitOf(clip, units[k]) == AnnexB.UnitBytes(parameters, samples, k);
      }
    }
  }

  lemma {:induction false} StartsWithCode(parameters: seq<seq<byte>>, samples: seq<seq<seq<byte>>>)
    requires |AnnexB.Stream(parameters, samples)| >= 8
    ensures !IsRecording(AnnexB.Stream(parameters, samples))
  {
    AnnexB.RenderConcat(parameters, AnnexB.Flatten(samples));
    var nals := parameters + AnnexB.Flatten(samples);
    assert AnnexB.Stream(parameters, samples) == AnnexB.Render(nals);
    assert AnnexB.Render(nals)[0] == 0 && Recorder.MAGIC[0] != 0;
  }

  // --------------------------------------------------------------- the reader itself

  /** Part of the index is there, the rest is still to come. */
  ghost predicate Splits(all: Result<seq<Entry>>, found: seq<Entry>, left: Result<seq<Entry>>) {
    (all.Ok? <==> left.Ok?) && (all.Ok? ==> all.value == found + left.value)
  }

  predicate Acceptable(bytes: seq<byte>, offset: nat, count: nat)
    requires offset <= |bytes|
  {
    && |bytes| - offset >= 8 && count < AnnexB.MAX_UNITS
    && var length := LittleEndian(bytes[offset..offset + 4]);
       0 < length <= Recorder.MAX_PACKET && length <= |bytes| - offset - 8
  }

  lemma {:induction false} OneMore(bytes: seq<byte>, offset: nat, found: seq<Entry>, all: Result<seq<Entry>>)
    requires offset < |bytes| && Splits(all, found, Index(bytes, offset, |found|))
    ensures !Acceptable(bytes, offset, |found|) ==> all.Err?
    ensures Acceptable(bytes, offset, |found|) ==>
              var length := LittleEndian(bytes[offset..offset + 4]);
              var e := Entry(offset + 8, length, LittleEndian(bytes[offset + 4..offset + 8]));
              Splits(all, found + [e], Index(bytes, offset + 8 + length, |found| + 1))
  {
    hide LittleEndian;
    if Acceptable(bytes, offset, |found|) {
      var length := LittleEndian(bytes[offset..offset + 4]);
      var e := Entry(offset + 8, length, LittleEndian(bytes[offset + 4..offset + 8]));
      var rest := Index(bytes, offset + 8 + length, |found| + 1);
      if rest.Ok? {
        assert found + ([e] + rest.value) == (found + [e]) + rest.value;
      }
    }
  }

  class Reader {
    const bytes: seq<byte>
    const recording: bool
    var entries: seq<Entry>

    ghost predicate Valid()
      reads this
    {
      && Open(bytes) == Ok(entries) && entries != []
      && recording == IsRecording(bytes)
    }

    /** Stands for the constructor; it fails where the source throws. */
    static method Load(bytes: seq<byte>) returns (r: Result<Reader>)
      ensures r.Ok? <==> Open(bytes).Ok?
      ensures r.Ok? ==> fresh(r.value) && r.value.bytes == bytes && r.value.Valid()
    {
      if !(8 <= |bytes| <= MAX_RECORDING) {
        return Err;
      }
      if !(Recorder.MAGIC <= bytes) {
        if |bytes| > MAX_CLIP {
          return Err;
        }
        var units := AnnexB.AccessUnits(bytes);
        if units.Err? {
          return Err;
        }
        var clip := new Reader(bytes, false, Controls(units.value));
        return Ok(clip);
      }
      var entries := IndexHeaders(bytes);
      if entries.Err? || entries.value == [] {
        return Err;
      }
      var clip := new Reader(bytes, true, entries.value);
      return Ok(clip);
    }

    constructor (bytes: seq<byte>, recording: bool, entries: seq<Entry>)
      ensures this.bytes == bytes && this.recording == recording && this.entries == entries
    {
      this.bytes, this.recording, this.entries := bytes, recording, entries;
    }

    /** The header-indexing loop. */
    static method IndexHeaders(bytes: seq<byte>) returns (r: Result<seq<Entry>>)
      requires |bytes| >= 8
      ensures r == Index(bytes, 8, 0)
    {
      var offset := 8;
      var found: seq<Entry> := [];
      ghost var all := Index(bytes, 8, 0);
      assert all.Ok? ==> [] + all.value == all.value;
      while offset < |bytes|
        invariant 8 <= offset <= |bytes|
        invariant Splits(all, found, Index(bytes, offset, |found|))
        decreases |bytes| - offset
      {
        OneMore(bytes, offset, found, all);
        hide Index, Splits;
        if |bytes| - offset < 8 {
          return Err;
        }
        var length := LittleEndian(bytes[offset..offset + 4]);
        var flags := LittleEndian(bytes[offset + 4..offset + 8]);
        if !(length > 0 && length <= Recorder.MAX_PACKET && |bytes| - (offset + 8) >= length) {
          return Err;
        }
        if |found| >= AnnexB.MAX_UNITS {
          return Err;
        }
        found := found + [Entry(offset + 8, length, flags)];
        offset := offset + 8 + length;
      }
      assert found + [] == found;
      r := Ok(found);
    }

    /** Packet `index`, counted modulo the number of packets. */
    method Packet(index: nat) returns (p: Recorder.Packet)
      requires Valid()
      ensures p == Packets(bytes, entries)[index % |entries|]
    {
      var e := entries[index % |entries|];
      p := Recorder.Packet(e.flags, Payload(bytes, e));
    }
  }
}
