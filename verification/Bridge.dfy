/** The raw-HID bridge: framing over a stream socket under arbitrary short sends and
    receives, and the exchange of report descriptors. */
module Bridge {
  import opened Bytes
  import opened Wrappers

  const MAGIC: nat := 0x504c5748
  const VERSION: nat := 1
  const HEADER: nat := 20
  const MAXIMUM_PAYLOAD: nat := 4096 + 64
  const MAX_DESCRIPTOR: nat := 4096
  const MAX_INTERFACES: nat := 16
  const DEVICE_BYTES: nat := 276
  const DEVICE: nat := 1
  const DESCRIPTOR: nat := 2

  datatype Frame = Frame(kind: nat, iface: nat, transaction: nat, payload: seq<byte>)

  /** The widths of the header fields. */
  predicate Fits(f: Frame) {
    f.kind < 0x1_0000 && f.iface < 0x1_0000 && f.transaction < 0x1_0000_0000
  }

  /** The packed header, both ends little-endian. */
  function WireHeader(f: Frame, reserved: nat): (h: seq<byte>)
    ensures |h| == HEADER
  {
    ToLittleEndian(MAGIC, 4) + ToLittleEndian(VERSION, 2) + ToLittleEndian(f.kind, 2) + ToLittleEndian(f.iface, 2)
    + ToLittleEndian(reserved, 2) + ToLittleEndian(f.transaction, 4) + ToLittleEndian(|f.payload|, 4)
  }

  function Wire(f: Frame): seq<byte> {
    WireHeader(f, 0) + f.payload
  }

  function Stream(frames: seq<Frame>): seq<byte> {
    if frames == [] then [] else Wire(frames[0]) + Stream(frames[1..])
  }

  /** The frame at `at`, if receive_frame gets one there; its length is on the wire. */
  function FrameAt(data: seq<byte>, at: nat): Option<Frame>
    requires at <= |data|
  {
    if |data| - at < HEADER then None
    else
      var h := data[at..at + HEADER];
      var size := LittleEndian(h[16..20]);
      if LittleEndian(h[0..4]) != MAGIC || LittleEndian(h[4..6]) != VERSION || size > MAXIMUM_PAYLOAD then None
      else if |data| - at - HEADER < size then None
      else Some(Frame(LittleEndian(h[6..8]), LittleEndian(h[8..10]), LittleEndian(h[12..16]),
                      data[at + HEADER..at + HEADER + size]))
  }

  function After(at: nat, f: Frame): nat {
    at + HEADER + |f.payload|
  }

  // ------------------------------------------------------------------------ framing

  method SendFrame(socket: Sink, f: Frame) returns (ok: bool)
    requires Fits(f)
    modifies socket
    ensures ok <==> |f.payload| <= MAXIMUM_PAYLOAD && |Wire(f)| <= old(socket.room)
    ensures var sent := if |f.payload| <= MAXIMUM_PAYLOAD then Took(Wire(f), old(socket.room)) else [];
            socket.accepted == old(socket.accepted) + sent && socket.room == old(socket.room) - |sent|
  {
    if |f.payload| > MAXIMUM_PAYLOAD {
      return false;
    }
    var header := WireHeader(f, 0);
    hide WireHeader;
    ghost var before, room := socket.accepted, socket.room;
    TookTwo(header, f.payload, room);
    ok := socket.WriteAll(header);
    if !ok {
      return;
    }
    Regroup(before, header, Took(f.payload, room - |header|));
    if |f.payload| != 0 {
      ok := socket.WriteAll(f.payload);
    } else {
      assert header + [] == header;
    }
  }

  method ReceiveFrame(socket: Source) returns (r: Option<Frame>)
    requires socket.Valid()
    modifies socket`position
    ensures socket.Valid() && r == FrameAt(socket.data, old(socket.position))
    ensures r.Some? ==> socket.position == After(old(socket.position), r.value)
  {
    var header := new byte[HEADER];
    ghost var at := socket.position;
    var ok := socket.ReadExact(header, 0, HEADER);
    if !ok {
      return None;
    }
    var h := header[..];
    assert h == socket.data[at..at + HEADER];
    var size := LittleEndian(h[16..20]);
    if LittleEndian(h[0..4]) != MAGIC || LittleEndian(h[4..6]) != VERSION || size > MAXIMUM_PAYLOAD {
      return None;
    }
    var payload := new byte[size];
    if size != 0 {
      ok := socket.ReadExact(payload, 0, size);
      if !ok {
        return None;
      }
    }
    assert payload[..] == socket.data[at + HEADER..at + HEADER + size];
    r := Some(Frame(LittleEndian(h[6..8]), LittleEndian(h[8..10]), LittleEndian(h[12..16]), payload[..]));
  }

  /** A frame within the limit is received whatever its reserved field holds. */
  lemma {:induction false} ReservedIsIgnored(data: seq<byte>, at: nat, f: Frame, reserved: nat, rest: seq<byte>)
    requires Fits(f) && |f.payload| <= MAXIMUM_PAYLOAD
    requires at <= |data| && data[at..] == WireHeader(f, reserved) + f.payload + rest
    ensures FrameAt(data, at) == Some(f)
    ensures After(at, f) <= |data| && data[After(at, f)..] == rest
  {
    Powers();
    LittleEndianWrites(MAGIC, 4);
    LittleEndianWrites(VERSION, 2);
    LittleEndianWrites(f.kind, 2);
    LittleEndianWrites(f.iface, 2);
    LittleEndianWrites(f.transaction, 4);
    LittleEndianWrites(|f.payload|, 4);
    hide LittleEndian, ToLittleEndian, Pow256;
    HeaderParts(WireHeader(f, reserved), f, reserved);
    FrameStarts(data, at, f, reserved, rest);
    hide WireHeader;
  }

  lemma {:induction false} FrameStarts(data: seq<byte>, at: nat, f: Frame, reserved: nat, rest: seq<byte>)
    requires Fits(f) && at <= |data| && data[at..] == WireHeader(f, reserved) + f.payload + rest
    ensures After(at, f) <= |data| && data[at..at + HEADER] == WireHeader(f, reserved)
    ensures data[at + HEADER..After(at, f)] == f.payload && data[After(at, f)..] == rest
  {
    Regroup(WireHeader(f, reserved), f.payload, rest);
    hide WireHeader;
    PartAt(data, at, WireHeader(f, reserved), f.payload + rest);
    PartAt(data, at + HEADER, f.payload, rest);
  }

  /** A frame within the limit is received exactly as sent, wherever it stands. */
  lemma {:induction false} SentIsReceived(data: seq<byte>, at: nat, f: Frame, rest: seq<byte>)
    requires Fits(f) && |f.payload| <= MAXIMUM_PAYLOAD
    requires at <= |data| && data[at..] == Wire(f) + rest
    ensures FrameAt(data, at) == Some(f)
    ensures After(at, f) <= |data| && data[After(at, f)..] == rest
  {
    hide WireHeader, FrameAt, After;
    ReservedIsIgnored(data, at, f, 0, rest);
  }

  lemma {:induction false} HeaderParts(h: seq<byte>, f: Frame, reserved: nat)
    requires h == WireHeader(f, reserved)
    ensures h[0..4] == ToLittleEndian(MAGIC, 4) && h[4..6] == ToLittleEndian(VERSION, 2)
    ensures h[6..8] == ToLittleEndian(f.kind, 2) && h[8..10] == ToLittleEndian(f.iface, 2)
    ensures h[10..12] == ToLittleEndian(reserved, 2)
    ensures h[12..16] == ToLittleEndian(f.transaction, 4) && h[16..20] == ToLittleEndian(|f.payload|, 4)
  {
    hide ToLittleEndian;
    var f1, f2, f3, f4 := ToLittleEndian(MAGIC, 4), ToLittleEndian(VERSION, 2), ToLittleEndian(f.kind, 2),
      ToLittleEndian(f.iface, 2);
    var f5, f6, f7 := ToLittleEndian(reserved, 2), ToLittleEndian(f.transaction, 4), ToLittleEndian(|f.payload|, 4);
    assert h == f1 + f2 + f3 + f4 + f5 + f6 + f7 + [] + [];
    hide WireHeader;
    ShapeOfEight(f1, f2, f3, f4, f5, f6, f7, [], []);
    PartAt(h, 0, f1, f2 + (f3 + (f4 + (f5 + (f6 + (f7 + ([] + [])))))));
    PartAt(h, 4, f2, f3 + (f4 + (f5 + (f6 + (f7 + ([] + []))))));
    PartAt(h, 6, f3, f4 + (f5 + (f6 + (f7 + ([] + [])))));
    PartAt(h, 8, f4, f5 + (f6 + (f7 + ([] + []))));
    PartAt(h, 10, f5, f6 + (f7 + ([] + [])));
    PartAt(h, 12, f6, f7 + ([] + []));
    PartAt(h, 16, f7, [] + []);
  }

  /** The header of a received frame, whatever its reserved field holds. */
  lemma {:induction false} ReceivedHeader(data: seq<byte>)
    requires FrameAt(data, 0).Some?
    ensures Fits(FrameAt(data, 0).value) && LittleEndian(data[10..12]) < 0x1_0000
    ensures data[0..HEADER] == WireHeader(FrameAt(data, 0).value, LittleEndian(data[10..12]))
  {
    var h := data[0..HEADER];
    assert data[10..12] == h[10..12];
    Powers();
    LittleEndianReads(h[0..4]);
    LittleEndianReads(h[4..6]);
    LittleEndianReads(h[6..8]);
    LittleEndianReads(h[8..10]);
    LittleEndianReads(h[10..12]);
    LittleEndianReads(h[12..16]);
    LittleEndianReads(h[16..20]);
    hide LittleEndian, ToLittleEndian, Pow256;
    JoinSeven(h);
  }

  lemma {:induction false} ReservedShows(f: Frame, reserved: nat)
    requires reserved < 0x1_0000
    ensures WireHeader(f, reserved) == WireHeader(f, 0) <==> reserved == 0
  {
    Powers();
    LittleEndianWrites(reserved, 2);
    LittleEndianWrites(0, 2);
    hide LittleEndian, ToLittleEndian, Pow256, WireHeader;
    HeaderParts(WireHeader(f, reserved), f, reserved);
    HeaderParts(WireHeader(f, 0), f, 0);
  }

  /** The receiver does not look at the reserved field: an accepted frame is what a
      sender would have produced exactly when that field is zero. */
  lemma {:induction false} ReceivedIsSentIfReservedIsZero(data: seq<byte>)
    requires FrameAt(data, 0).Some? && |data| == After(0, FrameAt(data, 0).value)
    ensures Fits(FrameAt(data, 0).value)
    ensures data == Wire(FrameAt(data, 0).value) <==> LittleEndian(data[10..12]) == 0
  {
    var f := FrameAt(data, 0).value;
    ReceivedHeader(data);
    ReservedShows(f, LittleEndian(data[10..12]));
    assert data == data[0..HEADER] + f.payload;
    hide LittleEndian, FrameAt, WireHeader;
    if data == Wire(f) {
      assert data[0..HEADER] == WireHeader(f, 0);
    }
  }

  /** Records no sender produces are accepted: any frame within the limit whose
      reserved field is not zero. */
  lemma {:induction false} ReservedFrame(f: Frame, reserved: nat) returns (data: seq<byte>)
    requires Fits(f) && |f.payload| <= MAXIMUM_PAYLOAD && 0 < reserved < 0x1_0000
    ensures FrameAt(data, 0) == Some(f) && |data| == After(0, f) && data != Wire(f)
  {
    data := WireHeader(f, reserved) + f.payload;
    assert data[0..] == data && data + [] == data;
    ReservedIsIgnored(data, 0, f, reserved, []);
    ReservedShows(f, reserved);
    hide WireHeader, FrameAt;
    assert data[..HEADER] == WireHeader(f, reserved);
    assert Wire(f)[..HEADER] == WireHeader(f, 0);
  }

  lemma {:induction false} JoinSeven(h: seq<byte>)
    requires |h| == HEADER
    ensures h == h[0..4] + h[4..6] + h[6..8] + h[8..10] + h[10..12] + h[12..16] + h[16..20]
  {
    assert h[..4] == h[0..4];
    Adjacent(h, 4, 6);
    Adjacent(h, 6, 8);
    Adjacent(h, 8, 10);
    Adjacent(h, 10, 12);
    Adjacent(h, 12, 16);
    Adjacent(h, 16, 20);
    assert h[..20] == h;
  }

  // ----------------------------------------------------------- whole conversations

  predicate Sendable(f: Frame) {
    Fits(f) && |f.payload| <= MAXIMUM_PAYLOAD
  }

  /** The frames before the first one over the limit. */
  function Deliverable(frames: seq<Frame>): seq<Frame> {
    if frames == [] || !Sendable(frames[0]) then [] else [frames[0]] + Deliverable(frames[1..])
  }

  lemma {:induction false} DeliverableStep(frames: seq<Frame>)
    requires frames != []
    ensures Sendable(frames[0]) ==> Stream(Deliverable(frames)) == Wire(frames[0]) + Stream(Deliverable(frames[1..]))
    ensures Deliverable(frames) == frames <==> Sendable(frames[0]) && Deliverable(frames[1..]) == frames[1..]
    ensures !Sendable(frames[0]) ==> Stream(Deliverable(frames)) == []
  {
    hide Wire, Sendable;
    assert frames == [frames[0]] + frames[1..];
    if Sendable(frames[0]) {
      assert Deliverable(frames)[1..] == Deliverable(frames[1..]);
    }
  }

  /** A socket that fails inside a frame, behind what was sent before. */
  lemma {:induction false} CutShort(sent: seq<byte>, wire: seq<byte>, rest: seq<byte>, room: nat)
    requires |sent| <= room < |sent| + |wire|
    ensures Took(sent + (wire + rest), room) == sent + Took(wire, room - |sent|)
    ensures |sent + (wire + rest)| > room
  {
    TookTwo(sent, wire + rest, room);
    TookTwo(wire, rest, room - |sent|);
  }

  lemma {:induction false} NothingLeft()
    ensures Deliverable([]) == [] && Stream([]) == []
  {
  }

  /** Sending any sequence of frames; a frame over the limit and a failing socket end
      the conversation. */
  method SendAll(socket: Sink, frames: seq<Frame>) returns (ok: bool)
    requires forall k | 0 <= k < |frames| :: Fits(frames[k])
    modifies socket
    ensures ok <==> Deliverable(frames) == frames && |Stream(frames)| <= old(socket.room)
    ensures socket.accepted == old(socket.accepted) + Took(Stream(Deliverable(frames)), old(socket.room))
  {
    hide Wire, Fits, Sendable, Stream, Deliverable, Took;
    ghost var start, room, sent: seq<byte> := socket.accepted, socket.room, [];
    ghost var all := Stream(Deliverable(frames));
    assert frames[0..] == frames && [] + all == all && start + [] == start;
    var i := 0;
    while i < |frames|
      invariant i <= |frames| && socket.accepted == start + sent
      invariant |sent| <= room && socket.room == room - |sent|
      invariant all == sent + Stream(Deliverable(frames[i..]))
      invariant Deliverable(frames) == frames <==> Deliverable(frames[i..]) == frames[i..]
    {
      var f, rest := frames[i], frames[i + 1..];
      assert frames[i..][0] == f && frames[i..][1..] == rest;
      DeliverableStep(frames[i..]);
      ok := SendFrame(socket, f);
      if !ok {
        Interrupted(f, sent, Stream(Deliverable(rest)), all, room);
        assert (start + sent) + [] == start + sent;
        Regroup(start, sent, Took(Wire(f), room - |sent|));
        return;
      }
      assert Sendable(f) by { FittingIsSendable(f); }
      Regroup(sent, Wire(f), Stream(Deliverable(rest)));
      Regroup(start, sent, Wire(f));
      sent := sent + Wire(f);
      i := i + 1;
    }
    NothingLeft();
    assert frames[i..] == [] && sent + [] == sent;
    return true;
  }

  lemma {:induction false} FittingIsSendable(f: Frame)
    requires Fits(f)
    ensures Sendable(f) <==> |f.payload| <= MAXIMUM_PAYLOAD
  {
  }

  /** The two ways in which a frame is not sent. */
  lemma {:induction false} Interrupted(f: Frame, sent: seq<byte>, rest: seq<byte>, all: seq<byte>, room: nat)
    requires Fits(f) && |sent| <= room
    requires all == sent + (if Sendable(f) then Wire(f) + rest else [])
    requires |f.payload| > MAXIMUM_PAYLOAD || |Wire(f)| > room - |sent|
    ensures Sendable(f) <==> |f.payload| <= MAXIMUM_PAYLOAD
    ensures Sendable(f) ==> |all| > room && Took(all, room) == sent + Took(Wire(f), room - |sent|)
    ensures !Sendable(f) ==> Took(all, room) == sent
  {
    hide Wire;
    if Sendable(f) {
      CutShort(sent, Wire(f), rest, room);
    } else {
      assert sent + [] == sent;
    }
  }

  function FramesAt(data: seq<byte>, at: nat, n: nat): (r: Option<seq<Frame>>)
    requires at <= |data|
    ensures r.Some? ==> |r.value| == n
    decreases n
  {
    if n == 0 then Some([])
    else
      var f := FrameAt(data, at);
      if f.None? then None
      else
        var rest := FramesAt(data, After(at, f.value), n - 1);
        if rest.None? then None else Some([f.value] + rest.value)
  }

  /** Part of the frames are there, the rest is still to come. */
  ghost predicate Splits(all: Option<seq<Frame>>, frames: seq<Frame>, left: Option<seq<Frame>>) {
    (all.Some? <==> left.Some?) && (all.Some? ==> all.value == frames + left.value)
  }

  lemma {:induction false} OneMore(data: seq<byte>, at: nat, n: nat, all: Option<seq<Frame>>, frames: seq<Frame>)
    requires at <= |data| && n > 0 && Splits(all, frames, FramesAt(data, at, n))
    ensures FrameAt(data, at).None? ==> all.None?
    ensures FrameAt(data, at).Some? ==>
              Splits(all, frames + [FrameAt(data, at).value], FramesAt(data, After(at, FrameAt(data, at).value), n - 1))
  {
    hide LittleEndian;
    if FrameAt(data, at).Some? {
      var f := FrameAt(data, at).value;
      var rest := FramesAt(data, After(at, f), n - 1);
      if rest.Some? {
        assert frames + ([f] + rest.value) == (frames + [f]) + rest.value;
      }
    }
  }

  /** Receiving `n` frames. */
  method ReceiveAll(socket: Source, n: nat) returns (r: Option<seq<Frame>>)
    requires socket.Valid()
    modifies socket`position
    ensures r == FramesAt(socket.data, old(socket.position), n)
  {
    var frames: seq<Frame> := [];
    ghost var all := FramesAt(socket.data, socket.position, n);
    assert all.Some? ==> [] + all.value == all.value;
    hide FramesAt, FrameAt;
    while |frames| < n
      invariant socket.Valid() && |frames| <= n
      invariant Splits(all, frames, FramesAt(socket.data, socket.position, n - |frames|))
      decreases n - |frames|
    {
      hide Splits;
      OneMore(socket.data, socket.position, n - |frames|, all, frames);
      var f := ReceiveFrame(socket);
      if f.None? {
        return None;
      }
      frames := frames + [f.value];
    }
    NoMore(socket.data, socket.position);
    assert frames + [] == frames;
    return Some(frames);
  }

  lemma {:induction false} NoMore(data: seq<byte>, at: nat)
    requires at <= |data|
    ensures FramesAt(data, at, 0) == Some([])
  {
  }

  /** However the stream was cut on either side, the receiver gets exactly the frames
      that were sent, in order. */
  lemma {:induction false} ConversationArrives(data: seq<byte>, at: nat, frames: seq<Frame>, rest: seq<byte>)
    requires forall k | 0 <= k < |frames| :: Sendable(frames[k])
    requires at <= |data| && data[at..] == Stream(frames) + rest
    ensures FramesAt(data, at, |frames|) == Some(frames)
    decreases |frames|
  {
    hide Wire, FrameAt, Fits, After;
    if frames != [] {
      var more := Stream(frames[1..]) + rest;
      assert data[at..] == Wire(frames[0]) + more by {
        Regroup(Wire(frames[0]), Stream(frames[1..]), rest);
      }
      assert Sendable(frames[0]);
      hide Stream;
      SentIsReceived(data, at, frames[0], more);
      ConversationArrives(data, After(at, frames[0]), frames[1..], rest);
      assert frames == [frames[0]] + frames[1..];
    }
  }

  // ------------------------------------------------------------ the descriptor phase

  predicate DescriptorFrame(f: Frame, n: nat) {
    f.kind == DESCRIPTOR && f.iface < n && 1 <= |f.payload| <= MAX_DESCRIPTOR
  }

  /** The host's table after these frames. */
  function Table(n: nat, frames: seq<Frame>): (t: seq<seq<byte>>)
    ensures |t| == n
  {
    if frames == [] then seq(n, _ => [])
    else
      var t, last := Table(n, frames[..|frames| - 1]), frames[|frames| - 1];
      if last.iface < n then t[last.iface := last.payload] else t
  }

  ghost function Named(frames: seq<Frame>): set<nat> {
    set k | 0 <= k < |frames| :: frames[k].iface
  }

  ghost predicate Distinct(frames: seq<Frame>) {
    forall j, k | 0 <= j < k < |frames| :: frames[j].iface != frames[k].iface
  }

  lemma {:induction false} NamedGrows(frames: seq<Frame>)
    requires frames != []
    ensures Named(frames) == Named(frames[..|frames| - 1]) + {frames[|frames| - 1].iface}
  {
    assert frames == frames[..|frames| - 1] + [frames[|frames| - 1]];
  }

  lemma {:induction false} IsNamed(frames: seq<Frame>, k: nat)
    requires k < |frames|
    ensures frames[k].iface in Named(frames)
  {
  }

  lemma {:induction false} TableFilled(n: nat, frames: seq<Frame>, i: nat)
    requires i < n && forall k | 0 <= k < |frames| :: DescriptorFrame(frames[k], n)
    ensures Table(n, frames)[i] != [] <==> i in Named(frames)
  {
    if frames != [] {
      var last := |frames| - 1;
      TableFilled(n, frames[..last], i);
      NamedGrows(frames);
    }
  }

  lemma {:induction false} DistinctGrows(frames: seq<Frame>)
    requires frames != []
    ensures Distinct(frames)
      <==> Distinct(frames[..|frames| - 1]) && frames[|frames| - 1].iface !in Named(frames[..|frames| - 1])
  {
    var before, last := frames[..|frames| - 1], frames[|frames| - 1];
    if last.iface in Named(before) {
      var j :| 0 <= j < |before| && before[j].iface == last.iface;
      assert frames[j].iface == frames[|frames| - 1].iface;
    } else if Distinct(before) {
      forall j, k | 0 <= j < k < |frames| ensures frames[j].iface != frames[k].iface {
        IsNamed(before, j);
        assert k < |before| ==> before[j].iface != before[k].iface;
      }
    }
  }

  lemma {:induction false} NamedCounts(frames: seq<Frame>)
    ensures |Named(frames)| <= |frames|
    ensures |Named(frames)| == |frames| <==> Distinct(frames)
  {
    if frames != [] {
      NamedCounts(frames[..|frames| - 1]);
      NamedGrows(frames);
      DistinctGrows(frames);
      hide Named, Distinct;
    }
  }

  ghost function Indices(n: nat): (s: set<nat>)
    ensures |s| == n && forall i: nat :: i in s <==> i < n
  {
    if n == 0 then {} else var last: nat := n - 1; Indices(last) + {last}
  }

  lemma {:induction false} SubsetOfSameSize(a: set<nat>, b: set<nat>)
    requires a <= b && |a| == |b|
    ensures a == b
  {
    if exists x :: x in b && x !in a {
      var x :| x in b && x !in a;
      SubsetSize(a, b - {x});
    }
  }

  lemma {:induction false} SubsetSize(a: set<nat>, b: set<nat>)
    requires a <= b
    ensures |a| <= |b|
    decreases a
  {
    if a != {} {
      var x :| x in a;
      SubsetSize(a - {x}, b - {x});
    }
  }

  ghost predicate NoneEmpty(n: nat, frames: seq<Frame>) {
    forall i: nat | i < n :: Table(n, frames)[i] != []
  }

  lemma {:induction false} NoneEmptyMeansAllNamed(n: nat, frames: seq<Frame>)
    requires forall k | 0 <= k < |frames| :: DescriptorFrame(frames[k], n)
    ensures NoneEmpty(n, frames) <==> forall i: nat | i in Indices(n) :: i in Named(frames)
  {
    hide Table, Named, DescriptorFrame;
    forall i: nat | i < n ensures Table(n, frames)[i] != [] <==> i in Named(frames) {
      TableFilled(n, frames, i);
    }
  }

  /** Pigeonhole: after n valid frames, no table entry is empty exactly when they
      named n different interfaces, that is, each of them once. */
  lemma {:induction false} NoneEmptyMeansEachOnce(n: nat, frames: seq<Frame>)
    requires |frames| == n && forall k | 0 <= k < |frames| :: DescriptorFrame(frames[k], n)
    ensures NoneEmpty(n, frames) <==> Distinct(frames)
  {
    var named, all := Named(frames), Indices(n);
    assert named <= all;
    NamedCounts(frames);
    NoneEmptyMeansAllNamed(n, frames);
    hide Named, Distinct, NoneEmpty, DescriptorFrame;
    if Distinct(frames) {
      SubsetOfSameSize(named, all);
    }
    if NoneEmpty(n, frames) {
      assert named == all;
    }
  }

  /** And then the table holds each frame's payload under its interface. */
  lemma {:induction false} TableHolds(n: nat, frames: seq<Frame>, k: nat)
    requires Distinct(frames) && k < |frames| && forall j | 0 <= j < |frames| :: frames[j].iface < n
    ensures Table(n, frames)[frames[k].iface] == frames[k].payload
  {
    var last := |frames| - 1;
    if k < last {
      TableHolds(n, frames[..last], k);
    }
  }

  /** The host: device metadata, then as many descriptors as it announces. */
  method HostDescriptors(socket: Source) returns (r: Option<seq<seq<byte>>>)
    requires socket.Valid()
    modifies socket`position
    ensures r == Handshake(socket.data, old(socket.position))
  {
    hide Table, AllDescriptors, FramesAt, FrameAt, LittleEndian;
    var device := ReceiveFrame(socket);
    if device.None? || device.value.kind != DEVICE || |device.value.payload| != DEVICE_BYTES {
      return None;
    }
    var n := LittleEndian(device.value.payload[0..2]);
    if n == 0 || n > MAX_INTERFACES {
      return None;
    }
    var table := ReceiveDescriptors(socket, n);
    if table.None? {
      return None;
    }
    var index := 0;
    while index < n
      invariant index <= n && forall i | 0 <= i < index :: table.value[i] != []
    {
      if table.value[index] == [] {
        return None;
      }
      index := index + 1;
    }
    return table;
  }

  ghost predicate AllDescriptors(frames: seq<Frame>, n: nat) {
    forall k | 0 <= k < |frames| :: DescriptorFrame(frames[k], n)
  }

  lemma {:induction false} StartTable(n: nat)
    ensures Table(n, []) == seq(n, _ => []) && AllDescriptors([], n)
  {
  }

  lemma {:induction false} AnotherFrame(frames: seq<Frame>, f: Frame, n: nat)
    ensures AllDescriptors(frames + [f], n) <==> AllDescriptors(frames, n) && DescriptorFrame(f, n)
    ensures f.iface < n ==> Table(n, frames + [f]) == Table(n, frames)[f.iface := f.payload]
  {
    assert (frames + [f])[..|frames|] == frames;
    if AllDescriptors(frames + [f], n) {
      assert (frames + [f])[|frames|] == f;
      forall k | 0 <= k < |frames| ensures DescriptorFrame(frames[k], n) {
        assert (frames + [f])[k] == frames[k];
      }
    }
  }

  /** The loop that fills the table; it gives up at the first frame it does not like. */
  method ReceiveDescriptors(socket: Source, n: nat) returns (r: Option<seq<seq<byte>>>)
    requires socket.Valid()
    modifies socket`position
    ensures var frames := FramesAt(socket.data, old(socket.position), n);
            r == if frames.Some? && AllDescriptors(frames.value, n) then Some(Table(n, frames.value)) else None
  {
    var descriptors: seq<seq<byte>> := seq(n, _ => []);
    ghost var frames: seq<Frame> := [];
    ghost var all := FramesAt(socket.data, socket.position, n);
    assert all.Some? ==> [] + all.value == all.value;
    var count := 0;
    StartTable(n);
    while count < n
      invariant socket.Valid() && count <= n == |descriptors| && count == |frames|
      invariant AllDescriptors(frames, n) && descriptors == Table(n, frames)
      invariant Splits(all, frames, FramesAt(socket.data, socket.position, n - count))
    {
      hide Splits, Table, AllDescriptors, FramesAt, FrameAt;
      OneMore(socket.data, socket.position, n - count, all, frames);
      var f := ReceiveFrame(socket);
      if f.None? {
        return None;
      }
      hide After, Fits;
      AnotherFrame(frames, f.value, n);
      frames := frames + [f.value];
      if !DescriptorFrame(f.value, n) {
        Refused(all, frames, FramesAt(socket.data, socket.position, n - count - 1), n);
        return None;
      }
      descriptors := descriptors[f.value.iface := f.value.payload];
      count := count + 1;
    }
    Complete(all, frames, FramesAt(socket.data, socket.position, 0));
    hide Splits, Table, AllDescriptors, FramesAt;
    return Some(descriptors);
  }

  lemma {:induction false} Complete(all: Option<seq<Frame>>, frames: seq<Frame>, left: Option<seq<Frame>>)
    requires Splits(all, frames, left) && left == Some([])
    ensures all == Some(frames)
  {
    assert frames + [] == frames;
  }

  lemma {:induction false} Refused(all: Option<seq<Frame>>, frames: seq<Frame>, left: Option<seq<Frame>>, n: nat)
    requires Splits(all, frames, left) && !AllDescriptors(frames, n)
    ensures all.Some? ==> !AllDescriptors(all.value, n)
  {
    if all.Some? {
      var k :| 0 <= k < |frames| && !DescriptorFrame(frames[k], n);
      assert all.value[k] == frames[k];
    }
  }

  /** What the host accepts. */
  ghost function Handshake(data: seq<byte>, at: nat): Option<seq<seq<byte>>>
    requires at <= |data|
  {
    var device := FrameAt(data, at);
    if device.None? || device.value.kind != DEVICE || |device.value.payload| != DEVICE_BYTES then None
    else
      var n := LittleEndian(device.value.payload[0..2]);
      if n == 0 || n > MAX_INTERFACES then None
      else
        var frames := FramesAt(data, After(at, device.value), n);
        if frames.None? || !AllDescriptors(frames.value, n) then None
        else if exists i | 0 <= i < n :: Table(n, frames.value)[i] == [] then None
        else Some(Table(n, frames.value))
  }

  /** The client's half: one device frame, one descriptor frame per interface. */
  function Announcement(device: seq<byte>, descriptors: seq<seq<byte>>): seq<Frame> {
    [Frame(DEVICE, 0, 0, device)] + Descriptors(descriptors)
  }

  function Descriptors(descriptors: seq<seq<byte>>): seq<Frame> {
    seq(|descriptors|, k requires 0 <= k < |descriptors| => Frame(DESCRIPTOR, k, 0, descriptors[k]))
  }

  lemma {:induction false} HonestTable(descriptors: seq<seq<byte>>)
    ensures Table(|descriptors|, Descriptors(descriptors)) == descriptors
  {
    var n, frames := |descriptors|, Descriptors(descriptors);
    hide Table;
    forall k | 0 <= k < n ensures Table(n, frames)[k] == descriptors[k] {
      TableHolds(n, frames, k);
      assert frames[k].iface == k;
    }
  }

  lemma {:induction false} DeviceArrives(device: seq<byte>, descriptors: seq<seq<byte>>, rest: seq<byte>)
    requires |device| == DEVICE_BYTES
    ensures var data, first := Stream(Announcement(device, descriptors)) + rest, Frame(DEVICE, 0, 0, device);
            && FrameAt(data, 0) == Some(first) && After(0, first) <= |data|
            && data[After(0, first)..] == Stream(Descriptors(descriptors)) + rest
  {
    var data, first := Stream(Announcement(device, descriptors)) + rest, Frame(DEVICE, 0, 0, device);
    hide Wire, FrameAt, After, Descriptors;
    assert Announcement(device, descriptors)[1..] == Descriptors(descriptors);
    Regroup(Wire(first), Stream(Descriptors(descriptors)), rest);
    assert data[0..] == Wire(first) + (Stream(Descriptors(descriptors)) + rest);
    SentIsReceived(data, 0, first, Stream(Descriptors(descriptors)) + rest);
  }

  /** An honest client's descriptor list arrives intact; a device with more
      interfaces than the host takes is refused. */
  lemma {:induction false} DescriptorsArrive(device: seq<byte>, descriptors: seq<seq<byte>>, rest: seq<byte>)
    requires |descriptors| < 0x1_0000
    requires |device| == DEVICE_BYTES && device[0..2] == ToLittleEndian(|descriptors|, 2)
    requires forall k | 0 <= k < |descriptors| :: 1 <= |descriptors[k]| <= MAX_DESCRIPTOR
    ensures Handshake(Stream(Announcement(device, descriptors)) + rest, 0)
         == if 1 <= |descriptors| <= MAX_INTERFACES then Some(descriptors) else None
  {
    var n, data := |descriptors|, Stream(Announcement(device, descriptors)) + rest;
    var first, frames := Frame(DEVICE, 0, 0, device), Descriptors(descriptors);
    DeviceArrives(device, descriptors, rest);
    Powers();
    LittleEndianWrites(n, 2);
    hide LittleEndian, ToLittleEndian, Pow256, Wire, FrameAt, After, Stream, Announcement;
    if 1 <= n <= MAX_INTERFACES {
      ConversationArrives(data, After(0, first), frames, rest);
      NoneEmptyMeansEachOnce(n, frames);
      HonestTable(descriptors);
    }
  }
}
