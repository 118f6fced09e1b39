/** The reader thread and the encoder of plank-benchmark-x264 over three input
    slots, against the preloaded array the ring replaces. */
module EncoderRing {
  import opened Bytes
  import opened Transitions

  /** `input` is everything the input descriptor delivers before its end. */
  datatype Config = Config(frames: nat, frameBytes: nat, input: seq<byte>)

  type SlotIndex = i: nat | i < 3

  datatype Reader =
    | Wait                 // head of the loop, waiting for its slot
    | Read(offset: nat)    // inside read_exact
    | Publish
    | Broken               // an exception is on its way to the handler
    | Gone

  datatype Encoder =
    | Await                // head of the loop, waiting for its slot
    | Encode               // slot ready, about to call the encoder
    | Busy                 // inside the encoder, which reads the slot
    | Release
    | Abort                // in the catch block
    | AbortJoin
    | Join
    | Done(ok: bool)

  /** `position` counts the input bytes taken; `encoded` lists the frames the
      encoder has finished with and `faults` the calls that failed. */
  datatype State = State(
    reader: Reader, readIndex: nat, position: nat,
    encoder: Encoder, encodeIndex: nat,
    ready: seq<bool>, slots: seq<seq<byte>>,
    stopReader: bool, readerError: bool,
    encoded: seq<seq<byte>>, faults: nat)

  function Slot(k: nat): SlotIndex {
    k % 3
  }

  /** The slot vectors always have three elements of one frame each. */
  ghost predicate WellFormed(c: Config, s: State) {
    && |s.ready| == 3 && |s.slots| == 3
    && (forall i: SlotIndex :: |s.slots[i]| == c.frameBytes)
  }

  ghost predicate Init(c: Config, s: State) {
    && WellFormed(c, s)
    && s.reader == Wait && s.readIndex == 0 && s.position == 0
    && s.encoder == Await && s.encodeIndex == 0
    && s.ready == [false, false, false] && !s.stopReader && !s.readerError
    && s.encoded == [] && s.faults == 0
  }

  /** A reader step inside read_exact receives `count` bytes; 0 stands for the end
      of the input and for a read error. */
  datatype Action = ReaderStep(count: nat) | EncoderStep(ok: bool)

  predicate Enabled(c: Config, s: State, a: Action)
    requires |s.ready| == 3
  {
    match a
    case ReaderStep(count) =>
      (match s.reader
       case Wait => s.readIndex >= c.frames || s.stopReader || !s.ready[Slot(s.readIndex)]
       case Read(offset) => offset + count <= c.frameBytes && s.position + count <= |c.input|
       case Gone => false
       case _ => true)
    case EncoderStep(_) =>
      (match s.encoder
       case Await => s.encodeIndex >= c.frames || s.ready[Slot(s.encodeIndex)] || s.readerError
       case AbortJoin => s.reader.Gone?
       case Join => s.reader.Gone?
       case Done(_) => false
       case _ => true)
  }

  function ReaderNext(c: Config, s: State, count: nat): State
    requires |s.ready| == 3 && |s.slots| == 3 && Enabled(c, s, ReaderStep(count))
    requires |s.slots[Slot(s.readIndex)]| == c.frameBytes
  {
    var slot := Slot(s.readIndex);
    match s.reader
    case Wait =>
      if s.readIndex >= c.frames || s.stopReader then s.(reader := Gone) else s.(reader := Read(0))
    case Read(offset) =>
      if offset >= c.frameBytes then s.(reader := Publish)
      else if count == 0 then s.(reader := Broken, faults := s.faults + 1)
      else
        s.(reader := Read(offset + count), position := s.position + count,
           slots := s.slots[slot := Splice(s.slots[slot], offset, c.input[s.position..s.position + count])])
    case Publish => s.(reader := Wait, readIndex := s.readIndex + 1, ready := s.ready[slot := true])
    case Broken => s.(reader := Gone, readerError := true)
    case Gone => s
  }

  function EncoderNext(c: Config, s: State, ok: bool): State
    requires |s.ready| == 3 && |s.slots| == 3
  {
    var slot := Slot(s.encodeIndex);
    match s.encoder
    case Await =>
      if s.encodeIndex >= c.frames then s.(encoder := Join)
      else if s.readerError then s.(encoder := Abort)
      else s.(encoder := Encode)
    case Encode => s.(encoder := Busy)
    case Busy =>
      if ok then s.(encoder := Release, encoded := s.encoded + [s.slots[slot]])
      else s.(encoder := Abort, faults := s.faults + 1)
    case Release => s.(encoder := Await, encodeIndex := s.encodeIndex + 1, ready := s.ready[slot := false])
    case Abort => s.(encoder := AbortJoin, stopReader := true)
    case AbortJoin => s.(encoder := Done(false))
    case Join => s.(encoder := Done(true))
    case Done(_) => s
  }

  function Apply(c: Config, s: State, a: Action): State
    requires WellFormed(c, s) && Enabled(c, s, a)
  {
    match a
    case ReaderStep(count) => ReaderNext(c, s, count)
    case EncoderStep(ok) => EncoderNext(c, s, ok)
  }

  ghost predicate Next(c: Config, s: State, t: State) {
    WellFormed(c, s) && exists a: Action :: Enabled(c, s, a) && t == Apply(c, s, a)
  }

  ghost function Threads(c: Config): System<State> {
    System(s => Init(c, s), (s, t) => Next(c, s, t))
  }

  /** The same steps, each with the action it is taken by. */
  ghost function Labelled(c: Config): Machine<State, Action> {
    Machine(s => Init(c, s), (s, a, t) => WellFormed(c, s) && Enabled(c, s, a) && t == Apply(c, s, a))
  }

  lemma {:induction false} LabelsThreads(c: Config)
    ensures Labels(Labelled(c), Threads(c))
  {
    hide Init, Enabled, Apply;
    forall s, t ensures Threads(c).next(s, t) <==> exists a: Action :: Labelled(c).step(s, a, t) {
      if Next(c, s, t) {
        var a :| Enabled(c, s, a) && t == Apply(c, s, a);
        assert Labelled(c).step(s, a, t);
      }
    }
  }

  // ------------------------------------------------------------ preload mode

  /** Where frame k starts in the input. */
  ghost function Start(c: Config, k: nat): nat {
    if k == 0 then 0 else Start(c, k - 1) + c.frameBytes
  }

  lemma {:induction false} StartIsProduct(c: Config, k: nat)
    ensures Start(c, k) == k * c.frameBytes
  {
    if k > 0 {
      StartIsProduct(c, k - 1);
    }
  }

  /** Frame k as preload mode hands it to the encoder. */
  ghost function Preloaded(c: Config, k: nat): seq<byte> {
    if Start(c, k + 1) <= |c.input| then c.input[Start(c, k)..Start(c, k + 1)] else []
  }

  lemma {:induction false} FirstStart(c: Config)
    ensures Start(c, 0) == 0
  {
  }

  lemma {:induction false} NextStart(c: Config, k: nat)
    ensures Start(c, k + 1) == Start(c, k) + c.frameBytes
  {
  }

  /** Preload mode: all frames are read into one buffer before encoding starts. */
  method Preload(input: Source, frames: nat, frameBytes: nat, ghost c: Config)
    returns (ok: bool, preloaded: array<byte>)
    requires input.Valid() && input.position == 0 && c == Config(frames, frameBytes, input.data)
    modifies input`position
    ensures ok <==> Start(c, frames) <= |input.data|
    ensures ok ==> preloaded[..] == c.input[..Start(c, frames)]
  {
    StartIsProduct(c, frames);
    hide Splice, Start;
    preloaded := new byte[frameBytes * frames];
    ok := true;
    var index, base := 0, 0;
    FirstStart(c);
    while index < frames
      invariant index <= frames && base == Start(c, index) == input.position && input.Valid()
      invariant base <= preloaded.Length && preloaded[..base] == input.data[..base]
    {
      StartMonotone(c, index + 1, frames);
      NextStart(c, index);
      ghost var before := preloaded[..];
      ok := input.ReadExact(preloaded, base, frameBytes);
      if !ok {
        return;
      }
      PrefixGrows(before, base, input.data, frameBytes);
      base := base + frameBytes;
      index := index + 1;
    }
    assert preloaded[..] == preloaded[..base];
  }

  lemma {:induction false} PrefixGrows(buffer: seq<byte>, base: nat, data: seq<byte>, count: nat)
    requires base + count <= |buffer| && base + count <= |data| && buffer[..base] == data[..base]
    ensures Splice(buffer, base, data[base..base + count])[..base + count] == data[..base + count]
  {
    assert data[..base + count] == data[..base] + data[base..base + count];
  }

  /** Where preload mode points the encoder for frame k. */
  lemma {:induction false} PreloadedAt(c: Config, k: nat)
    requires k < c.frames && Start(c, c.frames) <= |c.input|
    ensures Start(c, k) <= Start(c, k + 1) <= Start(c, c.frames)
    ensures c.input[..Start(c, c.frames)][Start(c, k)..Start(c, k + 1)] == Preloaded(c, k)
  {
    StartMonotone(c, k + 1, c.frames);
  }

  lemma {:induction false} StartMonotone(c: Config, j: nat, k: nat)
    requires j <= k
    ensures Start(c, j) <= Start(c, k)
    decreases k - j
  {
    if j < k {
      StartMonotone(c, j, k - 1);
    }
  }

  // ---------------------------------------------------------------- invariant

  /** Frames encodeIndex..readIndex-1 are in the ring, complete and in order. */
  ghost predicate Ring(c: Config, e: nat, r: nat, ready: seq<bool>, slots: seq<seq<byte>>) {
    && |ready| == 3 && |slots| == 3
    && e <= r <= e + 3 && Start(c, r) <= |c.input|
    && (forall k: nat {:trigger Slot(k)} | e <= k < r :: ready[Slot(k)] && slots[Slot(k)] == Preloaded(c, k))
    && (forall k: nat {:trigger Slot(k)} | r <= k < e + 3 :: !ready[Slot(k)])
  }

  lemma {:induction false} SlotsDiffer(j: nat, k: nat)
    requires j < k < j + 3
    ensures Slot(j) != Slot(k)
  {
  }

  lemma {:induction false} SlotsWrap(k: nat)
    ensures Slot(k + 3) == Slot(k)
  {
  }

  lemma {:induction false} RingRead(c: Config, e: nat, r: nat, ready: seq<bool>, slots: seq<seq<byte>>,
                                    bytes: seq<byte>)
    requires Ring(c, e, r, ready, slots) && !ready[Slot(r)]
    ensures r < e + 3 && Ring(c, e, r, ready, slots[Slot(r) := bytes])
    ensures e < r ==> Slot(e) != Slot(r)
  {
    hide Slot, Preloaded;
    SlotsWrap(e);
    assert e < r ==> ready[Slot(e)];
    forall k: nat | e <= k < r ensures Slot(k) != Slot(r) {
      SlotsDiffer(k, r);
    }
  }

  lemma {:induction false} RingPublish(c: Config, e: nat, r: nat, ready: seq<bool>, slots: seq<seq<byte>>)
    requires Ring(c, e, r, ready, slots) && !ready[Slot(r)]
    requires Start(c, r + 1) <= |c.input| && slots[Slot(r)] == Preloaded(c, r)
    ensures Ring(c, e, r + 1, ready[Slot(r) := true], slots)
  {
    hide Slot, Preloaded;
    SlotsWrap(e);
    assert e < r ==> ready[Slot(e)];
    forall k: nat | r < k < e + 3 ensures Slot(k) != Slot(r) {
      SlotsDiffer(r, k);
    }
  }

  lemma {:induction false} RingRelease(c: Config, e: nat, r: nat, ready: seq<bool>, slots: seq<seq<byte>>)
    requires Ring(c, e, r, ready, slots) && e < r
    ensures Ring(c, e + 1, r, ready[Slot(e) := false], slots)
  {
    hide Slot, Preloaded;
    SlotsWrap(e);
    forall k: nat | e < k < e + 3 ensures Slot(k) != Slot(e) {
      SlotsDiffer(e, k);
    }
  }

  ghost predicate RingInv(c: Config, s: State) {
    WellFormed(c, s) && Ring(c, s.encodeIndex, s.readIndex, s.ready, s.slots)
  }

  ghost predicate ReaderInv(c: Config, s: State) {
    && WellFormed(c, s)
    && s.readIndex <= c.frames && s.position <= |c.input|
    && (s.reader.Wait? ==> s.position == Start(c, s.readIndex))
    && (s.reader.Read? || s.reader.Publish? ==> s.readIndex < c.frames && !s.ready[Slot(s.readIndex)])
    && (s.reader.Read? ==>
          && s.reader.offset <= c.frameBytes && s.position == Start(c, s.readIndex) + s.reader.offset
          && s.slots[Slot(s.readIndex)][..s.reader.offset] == c.input[Start(c, s.readIndex)..s.position])
    && (s.reader.Publish? ==>
          && s.position == Start(c, s.readIndex + 1)
          && s.slots[Slot(s.readIndex)] == Preloaded(c, s.readIndex))
    && (s.reader.Broken? || s.readerError ==> s.faults > 0 && s.readIndex < c.frames)
    && (s.readerError ==> s.reader.Gone?)
    && (s.reader.Gone? ==> s.readerError || s.stopReader || s.readIndex == c.frames)
  }

  ghost predicate EncoderInv(c: Config, s: State) {
    && s.encodeIndex <= s.readIndex <= c.frames
    && (s.encoder.Encode? || s.encoder.Busy? || s.encoder.Release? ==> s.encodeIndex < s.readIndex)
    && (s.encoder.Join? ==> s.encodeIndex == c.frames)
    && (s.encoder.Abort? || s.encoder.AbortJoin? ==> s.faults > 0)
    && (s.encoder.AbortJoin? ==> s.stopReader)
    && (s.stopReader ==> s.encoder.AbortJoin? || s.encoder == Done(false))
    && (s.encoder.Done? ==> s.reader.Gone? && (s.encoder.ok <==> s.faults == 0))
    && (s.encoder == Done(true) ==> s.encodeIndex == c.frames)
    && (s.faults > 0 ==> s.reader.Broken? || s.readerError || s.encoder.Abort? ||
                         s.encoder.AbortJoin? || s.encoder.Done?)
  }

  /** What the encoder has consumed: the preloaded frames, in index order. */
  ghost predicate Consumed(c: Config, s: State) {
    && |s.encoded| == s.encodeIndex + (if s.encoder.Release? then 1 else 0)
    && (forall k | 0 <= k < |s.encoded| :: s.encoded[k] == Preloaded(c, k))
  }

  ghost predicate Inv(c: Config, s: State) {
    RingInv(c, s) && ReaderInv(c, s) && EncoderInv(c, s) && Consumed(c, s)
  }

  lemma {:induction false} ReaderKeepsRing(c: Config, s: State, count: nat)
    requires RingInv(c, s) && ReaderInv(c, s) && Enabled(c, s, ReaderStep(count))
    ensures RingInv(c, ReaderNext(c, s, count))
  {
    hide Slot, Preloaded;
    var t := ReaderNext(c, s, count);
    if s.reader.Read? || s.reader.Publish? {
      RingRead(c, s.encodeIndex, s.readIndex, s.ready, s.slots, t.slots[Slot(s.readIndex)]);
      if s.reader.Publish? {
        RingPublish(c, s.encodeIndex, s.readIndex, s.ready, s.slots);
      }
    }
  }

  lemma {:induction false} GotMore(slot: seq<byte>, offset: nat, input: seq<byte>, start: nat, position: nat,
                                   count: nat)
    requires start + offset == position && position + count <= |input| && offset + count <= |slot|
    requires slot[..offset] == input[start..position]
    ensures Splice(slot, offset, input[position..position + count])[..offset + count] == input[start..position + count]
  {
    var got := input[position..position + count];
    assert Splice(slot, offset, got)[..offset + count] == slot[..offset] + got;
    assert input[start..position] + got == input[start..position + count];
  }

  lemma {:induction false} ReaderKeepsReader(c: Config, s: State, count: nat)
    requires WellFormed(c, s) && ReaderInv(c, s) && Enabled(c, s, ReaderStep(count))
    ensures ReaderInv(c, ReaderNext(c, s, count))
  {
    hide Slot;
    var slot := Slot(s.readIndex);
    if s.reader.Read? && s.reader.offset < c.frameBytes && count > 0 {
      GotMore(s.slots[slot], s.reader.offset, c.input, Start(c, s.readIndex), s.position, count);
      hide Splice, Start;
    } else if s.reader.Read? && s.reader.offset == c.frameBytes {
      assert s.slots[slot][..c.frameBytes] == s.slots[slot];
    }
  }

  lemma {:induction false} ReaderKeepsEncoder(c: Config, s: State, count: nat)
    requires WellFormed(c, s) && ReaderInv(c, s) && EncoderInv(c, s) && Consumed(c, s)
        && Enabled(c, s, ReaderStep(count))
    ensures EncoderInv(c, ReaderNext(c, s, count)) && Consumed(c, ReaderNext(c, s, count))
  {
    hide Slot, Splice, Start;
  }

  lemma {:induction false} EncoderKeepsRing(c: Config, s: State, ok: bool)
    requires RingInv(c, s) && EncoderInv(c, s)
    ensures RingInv(c, EncoderNext(c, s, ok))
  {
    hide Slot, Preloaded;
    if s.encoder.Release? {
      RingRelease(c, s.encodeIndex, s.readIndex, s.ready, s.slots);
    }
  }

  lemma {:induction false} EncoderKeepsReader(c: Config, s: State, ok: bool)
    requires RingInv(c, s) && ReaderInv(c, s) && EncoderInv(c, s)
    ensures ReaderInv(c, EncoderNext(c, s, ok))
  {
    hide Slot, Preloaded;
    if s.encoder.Release? && !s.ready[Slot(s.readIndex)] {
      RingRead(c, s.encodeIndex, s.readIndex, s.ready, s.slots, []);
    }
  }

  lemma {:induction false} EncoderKeepsEncoder(c: Config, s: State, ok: bool)
    requires Inv(c, s) && Enabled(c, s, EncoderStep(ok))
    ensures EncoderInv(c, EncoderNext(c, s, ok)) && Consumed(c, EncoderNext(c, s, ok))
  {
    hide Start, Splice, Preloaded, Slot;
    assert s.ready[Slot(s.encodeIndex)] ==> s.encodeIndex < s.readIndex;
    if s.encoder.Busy? {
      assert s.ready[Slot(s.encodeIndex)];
    }
  }

  lemma {:induction false} StepKeepsInv(c: Config, s: State, a: Action)
    requires Inv(c, s) && Enabled(c, s, a)
    ensures Inv(c, Apply(c, s, a))
  {
    hide RingInv, ReaderInv, EncoderInv, Consumed, ReaderNext, EncoderNext, Enabled;
    assert WellFormed(c, s) by { InvWellFormed(c, s); }
    match a {
      case ReaderStep(count) =>
        ReaderKeepsRing(c, s, count);
        ReaderKeepsReader(c, s, count);
        ReaderKeepsEncoder(c, s, count);
      case EncoderStep(ok) =>
        EncoderKeepsRing(c, s, ok);
        EncoderKeepsReader(c, s, ok);
        EncoderKeepsEncoder(c, s, ok);
    }
  }

  lemma {:induction false} InvWellFormed(c: Config, s: State)
    requires Inv(c, s)
    ensures WellFormed(c, s) && |s.ready| == 3 && |s.slots| == 3
  {
  }

  lemma {:induction false} InitHolds(c: Config, s: State)
    requires Init(c, s)
    ensures Inv(c, s)
  {
  }

  lemma {:induction false} InvIsInductive(c: Config)
    ensures Inductive(Threads(c), s => Inv(c, s))
  {
    hide Inv, Init, Apply, WellFormed;
    forall s | Init(c, s) ensures Inv(c, s) {
      InitHolds(c, s);
    }
    forall s, t | Inv(c, s) && Next(c, s, t) ensures Inv(c, t) {
      InvWellFormed(c, s);
      var a :| Enabled(c, s, a) && t == Apply(c, s, a);
      StepKeepsInv(c, s, a);
    }
  }

  lemma {:induction false} ReachableInv(c: Config, s: State)
    requires Reachable(Threads(c), s)
    ensures Inv(c, s)
  {
    InvIsInductive(c);
    Invariance(Threads(c), s => Inv(c, s), s);
  }

  // ----------------------------------------------------------------- theorems

  /** In every interleaving the encoder sees what preload mode would have shown it:
      the same bytes, in the same index order, none skipped and none repeated. */
  lemma {:induction false} RefinesPreload(c: Config, s: State)
    requires Reachable(Threads(c), s)
    ensures Start(c, |s.encoded|) <= |c.input|
    ensures forall k | 0 <= k < |s.encoded| :: s.encoded[k] == Preloaded(c, k)
    ensures s.encodeIndex <= |s.encoded| <= s.encodeIndex + 1
    ensures s.encoder == Done(true) ==> |s.encoded| == c.frames && Start(c, c.frames) <= |c.input|
    ensures s.encoder.Done? ==> (s.encoder.ok <==> s.faults == 0) && s.reader.Gone?
  {
    ReachableInv(c, s);
    StartMonotone(c, |s.encoded|, s.readIndex);
  }

  /** While the encoder owns a slot, no reader step touches it. */
  lemma {:induction false} NoOverwrite(c: Config, s: State, count: nat)
    requires Reachable(Threads(c), s) && WellFormed(c, s) && Enabled(c, s, ReaderStep(count))
    requires s.encoder.Encode? || s.encoder.Busy? || s.encoder.Release?
    ensures ReaderNext(c, s, count).slots[Slot(s.encodeIndex)] == s.slots[Slot(s.encodeIndex)]
    ensures ReaderNext(c, s, count).ready[Slot(s.encodeIndex)]
  {
    ReachableInv(c, s);
    hide Slot, Preloaded;
    if s.reader.Read? || s.reader.Publish? {
      RingRead(c, s.encodeIndex, s.readIndex, s.ready, s.slots, []);
    }
  }

  /** The call made in this step fails: a read inside a frame that brings nothing, or
      the encoder. A read that brings less than the rest of the frame is not a failure. */
  ghost predicate CallFails(c: Config, hop: Hop<State, Action>) {
    match hop.action
    case ReaderStep(count) => hop.state.reader.Read? && hop.state.reader.offset < c.frameBytes && count == 0
    case EncoderStep(ok) => hop.state.encoder.Busy? && !ok
  }

  ghost function FailedCalls(c: Config, trace: seq<Hop<State, Action>>): nat {
    if trace == [] then 0
    else
      var n := |trace| - 1;
      FailedCalls(c, trace[..n]) + (if CallFails(c, trace[n]) then 1 else 0)
  }

  lemma {:induction false} StepFaults(c: Config, s: State, a: Action)
    requires WellFormed(c, s) && Enabled(c, s, a)
    ensures Apply(c, s, a).faults == s.faults + (if CallFails(c, Hop(s, a)) then 1 else 0)
  {
    hide Splice, Slot;
  }

  lemma {:induction false} FaultsAreFailedCalls(c: Config, trace: seq<Hop<State, Action>>, s: State)
    requires IsTrace(Labelled(c), trace, s)
    ensures s.faults == FailedCalls(c, trace)
  {
    hide WellFormed, Enabled, Apply, CallFails;
    if trace != [] {
      var n := |trace| - 1;
      StepFaults(c, trace[n].state, trace[n].action);
      FaultsAreFailedCalls(c, trace[..n], trace[n].state);
    }
  }

  /** A whole run, judged by what was done in it: while no call has failed neither side
      is stopped, and the run ends well exactly when none failed, with all frames encoded. */
  lemma {:induction false} SuccessMeansNoCallFailed(c: Config, trace: seq<Hop<State, Action>>, s: State)
    requires IsTrace(Labelled(c), trace, s)
    ensures FailedCalls(c, trace) == 0 ==> !s.readerError && !s.stopReader && !s.reader.Broken?
    ensures s.encoder.Done? ==> (s.encoder.ok <==> FailedCalls(c, trace) == 0)
    ensures s.encoder.Done? && FailedCalls(c, trace) == 0 ==>
              |s.encoded| == c.frames && forall k | 0 <= k < c.frames :: s.encoded[k] == Preloaded(c, k)
  {
    FaultsAreFailedCalls(c, trace, s);
    LabelsThreads(c);
    hide Labelled;
    TraceReaches(Labelled(c), Threads(c), trace, s);
    ReachableInv(c, s);
  }

  /** How many frames the encoder has been given, or will be before it next looks. */
  ghost function Begun(s: State): nat {
    s.encodeIndex + (if s.encoder.Encode? || s.encoder.Busy? || s.encoder.Release? then 1 else 0)
  }

  lemma {:induction false} ErrorStopsStep(c: Config, s: State, a: Action)
    requires WellFormed(c, s) && Enabled(c, s, a) && s.readerError
    ensures Apply(c, s, a).readerError && Begun(Apply(c, s, a)) <= Begun(s)
  {
    hide Splice, Slot;
  }

  /** An error of the reader stops the encoder: besides the frame it is at it is given
      none, even if there are some in the ring. */
  lemma {:induction false} ErrorStopsEncoder(c: Config, trace: seq<Hop<State, Action>>, s: State, j: nat)
    requires IsTrace(Labelled(c), trace, s) && j < |trace| && trace[j].state.readerError
    ensures s.readerError && Begun(s) <= Begun(trace[j].state)
    decreases |trace|
  {
    hide WellFormed, Enabled, Apply, Begun;
    var n := |trace| - 1;
    if j < n {
      ErrorStopsEncoder(c, trace[..n], trace[n].state, j);
    }
    ErrorStopsStep(c, trace[n].state, trace[n].action);
  }

  /** The reader waits only while all three slots hold frames that are still needed, the
      encoder only while none does. */
  lemma {:induction false} WaitsExactly(c: Config, s: State, count: nat, ok: bool)
    requires Reachable(Threads(c), s) && WellFormed(c, s)
    ensures s.reader.Wait? ==>
              (Enabled(c, s, ReaderStep(count))
               <==> !(s.readIndex < c.frames && !s.stopReader && s.readIndex == s.encodeIndex + 3))
    ensures s.encoder.Await? ==>
              (Enabled(c, s, EncoderStep(ok))
               <==> !(s.encodeIndex < c.frames && !s.readerError && s.readIndex == s.encodeIndex))
  {
    ReachableInv(c, s);
    hide Slot, Preloaded, Start;
    SlotsWrap(s.encodeIndex);
    assert s.encodeIndex < s.readIndex ==> s.ready[Slot(s.encodeIndex)];
    assert s.encodeIndex == s.readIndex ==> !s.ready[Slot(s.encodeIndex)];
    assert s.readIndex < s.encodeIndex + 3 ==> !s.ready[Slot(s.readIndex)];
  }

  lemma {:induction false} SomebodyCanMove(c: Config, s: State)
    requires Inv(c, s) && !s.encoder.Done?
    ensures Enabled(c, s, EncoderStep(true)) || Enabled(c, s, ReaderStep(0))
  {
  }

  lemma {:induction false} InputIsLeft(c: Config, s: State)
    requires Inv(c, s) && Start(c, c.frames) <= |c.input|
    requires s.reader.Read? && s.reader.offset < c.frameBytes
    ensures Enabled(c, s, ReaderStep(1))
  {
    hide Ring, Consumed, Slot;
    NextStart(c, s.readIndex);
    StartMonotone(c, s.readIndex + 1, c.frames);
    hide Start, Preloaded;
  }

  /** Neither side can block for ever: until both are done, somebody can move, and as
      long as the input is enough it can do so without a call failing. */
  lemma {:induction false} Progress(c: Config, s: State)
    requires Reachable(Threads(c), s) && !s.encoder.Done?
    ensures exists a: Action, t: State ::
              Labelled(c).step(s, a, t) && (Start(c, c.frames) <= |c.input| ==> !CallFails(c, Hop(s, a)))
  {
    ReachableInv(c, s);
    SomebodyCanMove(c, s);
    InvWellFormed(c, s);
    hide Inv, Apply, WellFormed;
    var a: Action := EncoderStep(true);
    if !Enabled(c, s, a) {
      a := ReaderStep(0);
      if Start(c, c.frames) <= |c.input| && s.reader.Read? && s.reader.offset < c.frameBytes {
        InputIsLeft(c, s);
        a := ReaderStep(1);
      }
    }
    assert Labelled(c).step(s, a, Apply(c, s, a));
  }

  ghost function ReaderRank(c: Config, s: State): int {
    var left := (c.frames - s.readIndex) * (c.frameBytes + 3);
    match s.reader
    case Wait => left + 2
    case Read(offset) => left + 1 - offset
    case Publish => left - c.frameBytes
    case Broken => 1
    case Gone => 0
  }

  ghost function EncoderRank(c: Config, s: State): int {
    var left := 4 * (c.frames - s.encodeIndex);
    match s.encoder
    case Await => left + 5
    case Encode => left + 4
    case Busy => left + 3
    case Release => left + 2
    case Abort => 2
    case AbortJoin => 1
    case Join => 1
    case Done(_) => 0
  }

  ghost function Rank(c: Config): State -> nat {
    s => var r := ReaderRank(c, s) + EncoderRank(c, s); if r >= 0 then r else 0
  }

  lemma {:induction false} Multiple(n: nat, f: nat)
    ensures n * f >= 0 && (n > 0 ==> n * f == (n - 1) * f + f && (n - 1) * f >= 0)
  {
  }

  lemma {:induction false} ReaderAdvances(c: Config, s: State, count: nat)
    requires Inv(c, s) && Enabled(c, s, ReaderStep(count))
    ensures 0 <= ReaderRank(c, ReaderNext(c, s, count)) < ReaderRank(c, s)
    ensures EncoderRank(c, ReaderNext(c, s, count)) == EncoderRank(c, s)
  {
    hide Slot, Splice, Preloaded, Ring, Consumed, Start;
    Multiple(c.frames - s.readIndex, c.frameBytes + 3);
  }

  lemma {:induction false} EncoderAdvances(c: Config, s: State, ok: bool)
    requires Inv(c, s) && Enabled(c, s, EncoderStep(ok))
    ensures 0 <= EncoderRank(c, EncoderNext(c, s, ok)) < EncoderRank(c, s)
    ensures ReaderRank(c, EncoderNext(c, s, ok)) == ReaderRank(c, s)
  {
    hide Slot, Preloaded, Ring, Consumed;
  }

  lemma {:induction false} ReaderRankPositive(c: Config, s: State)
    requires Inv(c, s)
    ensures ReaderRank(c, s) >= 0 && EncoderRank(c, s) >= 0
  {
    hide Slot, Preloaded, Ring, Consumed, Start;
    Multiple(c.frames - s.readIndex, c.frameBytes + 3);
  }

  lemma {:induction false} StepAdvances(c: Config, s: State, a: Action)
    requires Inv(c, s) && Enabled(c, s, a) && WellFormed(c, s)
    ensures Rank(c)(Apply(c, s, a)) < Rank(c)(s)
  {
    hide Inv, Enabled, WellFormed, ReaderRank, EncoderRank, ReaderNext, EncoderNext;
    ReaderRankPositive(c, s);
    match a {
      case ReaderStep(count) => ReaderAdvances(c, s, count);
      case EncoderStep(ok) => EncoderAdvances(c, s, ok);
    }
  }

  lemma {:induction false} NextAdvances(c: Config, s: State, t: State)
    requires Inv(c, s) && Next(c, s, t)
    ensures Rank(c)(t) < Rank(c)(s)
  {
    hide Inv, Enabled, Rank, Apply;
    var a :| Enabled(c, s, a) && t == Apply(c, s, a);
    StepAdvances(c, s, a);
  }

  lemma {:induction false} RankAtStart(c: Config, s: State)
    requires Init(c, s)
    ensures Rank(c)(s) == c.frames * (c.frameBytes + 3) + 2 + 4 * c.frames + 5
    ensures c.frames * (c.frameBytes + 3) + 4 * c.frames == c.frames * (c.frameBytes + 7)
  {
    Multiple(c.frames, c.frameBytes + 3);
  }

  /** Every interleaving ends. */
  lemma {:induction false} Termination(c: Config, run: seq<State>)
    requires IsRun(Threads(c), run)
    ensures |run| <= c.frames * (c.frameBytes + 7) + 8
  {
    InvIsInductive(c);
    RankAtStart(c, run[0]);
    hide Inv, Next, Rank, Init;
    forall s, t | Inv(c, s) && Threads(c).next(s, t) ensures Rank(c)(t) < Rank(c)(s) {
      NextAdvances(c, s, t);
    }
    RankBounds(Threads(c), s => Inv(c, s), Rank(c), run, |run| - 1);
  }

  // ------------------------------------------------- the two threads in place

  /** The benchmark's shared variables, changed in place by its two threads. */
  class Benchmark {
    const config: Config
    var reader: Reader
    var readIndex: nat
    var position: nat
    var encoder: Encoder
    var encodeIndex: nat
    const slotReady: array<bool>
    var inputSlots: seq<seq<byte>>
    var stopReader: bool
    var readerError: bool
    ghost var encoded: seq<seq<byte>>
    ghost var faults: nat

    ghost predicate Valid()
      reads this, slotReady
    {
      slotReady.Length == 3 && WellFormed(config, View())
    }

    ghost function View(): State
      reads this, slotReady
    {
      State(reader, readIndex, position, encoder, encodeIndex, slotReady[..], inputSlots,
            stopReader, readerError, encoded, faults)
    }

    constructor (config: Config)
      ensures Valid() && this.config == config && Init(config, View()) && fresh(slotReady)
    {
      this.config := config;
      reader, readIndex, position := Wait, 0, 0;
      encoder, encodeIndex := Await, 0;
      slotReady := new bool[3](_ => false);
      var blank := seq(config.frameBytes, _ => 0 as byte);
      inputSlots := [blank, blank, blank];
      stopReader, readerError, encoded, faults := false, false, [], 0;
      new;
      assert slotReady[..] == [false, false, false];
    }

    method ReaderAction(count: nat)
      requires Valid() && Enabled(config, View(), ReaderStep(count))
      modifies this, slotReady
      ensures View() == ReaderNext(config, old(View()), count)
    {
      var slot := Slot(readIndex);
      match reader {
        case Wait => reader := if readIndex >= config.frames || stopReader then Gone else Read(0);
        case Read(offset) =>
          if offset >= config.frameBytes {
            reader := Publish;
          } else if count == 0 {
            reader := Broken;
            faults := faults + 1;
          } else {
            var got := config.input[position..position + count];
            inputSlots := inputSlots[slot := Splice(inputSlots[slot], offset, got)];
            position := position + count;
            reader := Read(offset + count);
          }
        case Publish =>
          slotReady[slot] := true;
          reader, readIndex := Wait, readIndex + 1;
        case Broken => reader, readerError := Gone, true;
        case Gone =>
      }
      assert slotReady[..] == ReaderNext(config, old(View()), count).ready;
    }

    method EncoderAction(ok: bool)
      requires Valid() && Enabled(config, View(), EncoderStep(ok))
      modifies this, slotReady
      ensures View() == EncoderNext(config, old(View()), ok)
    {
      var slot := Slot(encodeIndex);
      match encoder {
        case Await =>
          if encodeIndex >= config.frames {
            encoder := Join;
          } else if readerError {
            encoder := Abort;
          } else {
            encoder := Encode;
          }
        case Encode => encoder := Busy;
        case Busy =>
          if ok {
            encoded := encoded + [inputSlots[slot]];
            encoder := Release;
          } else {
            encoder := Abort;
            faults := faults + 1;
          }
        case Release =>
          slotReady[slot] := false;
          encoder, encodeIndex := Await, encodeIndex + 1;
        case Abort => encoder, stopReader := AbortJoin, true;
        case AbortJoin => encoder := Done(false);
        case Join => encoder := Done(true);
        case Done(_) =>
      }
      assert slotReady[..] == EncoderNext(config, old(View()), ok).ready;
    }
  }
}
