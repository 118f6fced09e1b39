/** The capture/encode producer and the output worker of plank-probe-video-pipeline.
    Each atomic action of either thread (a critical section, one encoder call, one
    file write) is one step; waiting on a condition variable is "not enabled". */
module VideoPipeline {
  import opened Transitions

  /** `depth` is --queue-depth; `lossFrame` 0 means that no loss is simulated. */
  datatype Config = Config(frameCount: nat, depth: nat, lossFrame: nat, delay: nat, invalidation: bool)

  ghost predicate Accepted(c: Config) {
    && c.frameCount >= 1 && c.depth <= 1 && c.delay >= 1
    && c.lossFrame <= c.frameCount
    && (c.lossFrame != 0 && c.invalidation ==>
        && c.lossFrame + c.delay <= c.frameCount
        && (c.depth == 1 ==> c.delay >= 2))
  }

  datatype Producer =
    | Acquire         // head of the loop, waiting for its slot
    | Recover         // slot acquired, reference invalidation may be due
    | Encode          // capture, convert and encode into the slot
    | Submit          // encoded, about to hand the slot over
    | Own             // depth 0: draining the slot itself
    | OwnWritten
    | Finish          // all frames submitted
    | Join
    | Abort           // in the catch block
    | AbortJoin
    | Returned(ok: bool)

  type SlotIndex = i: nat | i < 2

  datatype Worker =
    | Idle
    | Draining(slot: SlotIndex)
    | Written(slot: SlotIndex)
    | Releasing(slot: SlotIndex)
    | Failing
    | Exited

  /** The time stamps written to the bitstream file, and the two counters. */
  datatype Output = Output(file: seq<nat>, written: nat, dropped: nat)

  /** `content[i]` is the time stamp of the picture last encoded into slot i;
      `drained` and `faults` are histories: frames whose drain_slot returned, and
      external calls that failed. */
  datatype State = State(
    producer: Producer, worker: Worker, frame: nat,
    pending: seq<SlotIndex>, inUse: seq<bool>, content: seq<nat>,
    inputDone: bool, workerError: bool,
    output: Output, invalidated: bool,
    drained: seq<nat>, faults: nat)

  ghost predicate WellFormed(s: State) {
    |s.inUse| == 2 && |s.content| == 2
  }

  function Slot(k: nat): SlotIndex {
    k % 2
  }

  predicate RecoveryDue(c: Config, frame: nat) {
    c.lossFrame != 0 && c.invalidation && frame + 1 == c.lossFrame + c.delay
  }

  ghost predicate Init(c: Config, s: State) {
    && s.producer == Acquire && s.worker == (if c.depth == 1 then Idle else Exited)
    && s.frame == 0 && s.pending == [] && s.inUse == [false, false] && |s.content| == 2
    && !s.inputDone && !s.workerError
    && s.output == Output([], 0, 0) && !s.invalidated
    && s.drained == [] && s.faults == 0
  }

  /** `ok` says whether the external calls made by the step succeed. */
  datatype Action = ProducerStep(ok: bool) | WorkerStep(ok: bool)

  predicate Enabled(c: Config, s: State, a: Action)
    requires |s.inUse| == 2
  {
    match a
    case ProducerStep(_) =>
      (match s.producer
       case Acquire => c.depth != 1 || s.frame >= c.frameCount || !s.inUse[Slot(s.frame)] || s.workerError
       case Join => s.worker.Exited?
       case AbortJoin => s.worker.Exited?
       case Returned(_) => false
       case _ => true)
    case WorkerStep(_) =>
      (match s.worker
       case Idle => s.inputDone || s.pending != []
       case Exited => false
       case _ => true)
  }

  function WriteOut(c: Config, o: Output, stamp: nat): Output {
    if c.lossFrame != 0 && stamp == c.lossFrame
    then o.(dropped := o.dropped + 1)
    else o.(file := o.file + [stamp], written := o.written + 1)
  }

  function ProducerNext(c: Config, s: State, ok: bool): State
    requires |s.inUse| == 2 && |s.content| == 2
  {
    var slot := Slot(s.frame);
    var thrown := s.(producer := Abort, faults := s.faults + 1);
    match s.producer
    case Acquire =>
      if s.frame >= c.frameCount then s.(producer := if c.depth == 1 then Finish else Returned(true))
      else if c.depth == 1 && s.workerError then s.(producer := Abort)
      else s.(producer := Recover)
    case Recover =>
      if !RecoveryDue(c, s.frame) then s.(producer := Encode)
      else if ok then s.(producer := Encode, invalidated := true)
      else thrown
    case Encode =>
      var filled := s.content[slot := s.frame + 1];
      if ok then s.(producer := Submit, content := filled) else thrown.(content := filled)
    case Submit =>
      if c.depth == 1
      then s.(producer := Acquire, frame := s.frame + 1, inUse := s.inUse[slot := true], pending := s.pending + [slot])
      else s.(producer := Own)
    case Own => if ok then s.(producer := OwnWritten, output := WriteOut(c, s.output, s.content[slot])) else thrown
    case OwnWritten =>
      if ok then s.(producer := Acquire, frame := s.frame + 1, drained := s.drained + [s.content[slot]]) else thrown
    case Finish => s.(producer := Join, inputDone := true)
    case Join => s.(producer := Returned(!s.workerError))
    case Abort => if c.depth == 1 then s.(producer := AbortJoin, inputDone := true) else s.(producer := Returned(false))
    case AbortJoin => s.(producer := Returned(false))
    case Returned(_) => s
  }

  function WorkerNext(c: Config, s: State, ok: bool): State
    requires WellFormed(s)
  {
    var thrown := s.(worker := Failing, faults := s.faults + 1);
    match s.worker
    case Idle =>
      if s.pending == [] then s.(worker := Exited)
      else s.(worker := Draining(s.pending[0]), pending := s.pending[1..])
    case Draining(slot) => if ok then s.(worker := Written(slot), output := WriteOut(c, s.output, s.content[slot]))
        else thrown
    case Written(slot) =>
      if ok then s.(worker := Releasing(slot), drained := s.drained + [s.content[slot]]) else thrown
    case Releasing(slot) => s.(worker := Idle, inUse := s.inUse[slot := false])
    case Failing => s.(worker := Exited, workerError := true, inputDone := true)
    case Exited => s
  }

  function Apply(c: Config, s: State, a: Action): State
    requires WellFormed(s)
  {
    match a
    case ProducerStep(ok) => ProducerNext(c, s, ok)
    case WorkerStep(ok) => WorkerNext(c, s, ok)
  }

  ghost predicate Next(c: Config, s: State, t: State) {
    WellFormed(s) && exists a: Action :: Enabled(c, s, a) && t == Apply(c, s, a)
  }

  ghost function Threads(c: Config): System<State> {
    System(s => Init(c, s), (s, t) => Next(c, s, t))
  }

  /** The same steps, each with the action it is taken by. */
  ghost function Labelled(c: Config): Machine<State, Action> {
    Machine(s => Init(c, s), (s, a, t) => WellFormed(s) && Enabled(c, s, a) && t == Apply(c, s, a))
  }

  lemma {:induction false} LabelsThreads(c: Config)
    ensures Labels(Labelled(c), Threads(c))
  {
    hide Init, Enabled, Apply;
    forall s, t ensures Threads(c).next(s, t) <==> exists a: Action :: Labelled(c).step(s, a, t) {
      if Next(c, s, t) {
        var a :| Enabled(c, s, a) && t == Apply(c, s, a);
        assert Labelled(c).step(s, a, t);
      }
    }
  }

  // ---------------------------------------------------------------- invariant

  /** The frames 1, 2, 3, ... in order. */
  ghost predicate InOrder(frames: seq<nat>) {
    forall i | 0 <= i < |frames| :: frames[i] == i + 1
  }

  /** The frames 1..k in order, without the one whose loss is simulated. */
  ghost function Kept(c: Config, k: nat): seq<nat> {
    if k == 0 then []
    else if c.lossFrame == k then Kept(c, k - 1)
    else Kept(c, k - 1) + [k]
  }

  ghost function Lost(c: Config, k: nat): nat {
    if 0 < c.lossFrame <= k then 1 else 0
  }

  /** Exactly the frames 1..k were handed to the output. */
  ghost predicate Holds(c: Config, o: Output, k: nat) {
    && o.file == Kept(c, k) && o.written == |o.file|
    && o.dropped == Lost(c, k) && o.written + o.dropped == k
  }

  /** The worker still owns a slot (a worker that failed never gives it back). */
  ghost predicate Holding(s: State) {
    s.worker.Draining? || s.worker.Written? || s.worker.Releasing? || s.worker.Failing? || s.workerError
  }

  ghost function Released(s: State): int {
    |s.drained| - (if s.worker.Releasing? then 1 else 0)
  }

  ghost function Queue(from: nat, n: int): seq<SlotIndex> {
    if n <= 0 then [] else if n == 1 then [Slot(from)] else [Slot(from), Slot(from + 1)]
  }

  /** Slot bookkeeping when frames 0..r-1 are released and frames r..frame-1 are
      in flight, the first of them held by the worker iff `held` is 1. */
  ghost predicate Slots(frame: nat, pending: seq<SlotIndex>, inUse: seq<bool>, content: seq<nat>, r: nat, held: nat) {
    && |inUse| == 2 && |content| == 2
    && r + held <= frame <= r + 2
    && pending == Queue(r + held, frame - r - held)
    && (inUse[Slot(r)] <==> r < frame) && (inUse[Slot(r + 1)] <==> r + 1 < frame)
    && (r < frame ==> content[Slot(r)] == r + 1)
    && (r + 1 < frame ==> content[Slot(r + 1)] == r + 2)
  }

  ghost predicate SlotInv(s: State) {
    && WellFormed(s) && Released(s) >= 0
    && Slots(s.frame, s.pending, s.inUse, s.content, Released(s), if Holding(s) then 1 else 0)
  }

  lemma {:induction false} SlotFree(frame: nat, pending: seq<SlotIndex>, inUse: seq<bool>, content: seq<nat>, r: nat,
                                    held: nat)
    requires Slots(frame, pending, inUse, content, r, held)
    ensures !inUse[Slot(frame)] <==> frame <= r + 1
  {
  }

  lemma {:induction false} SlotsFill(frame: nat, pending: seq<SlotIndex>, inUse: seq<bool>, content: seq<nat>, r: nat,
                                     held: nat)
    requires Slots(frame, pending, inUse, content, r, held) && !inUse[Slot(frame)]
    ensures Slots(frame, pending, inUse, content[Slot(frame) := frame + 1], r, held)
  {
    SlotFree(frame, pending, inUse, content, r, held);
  }

  lemma {:induction false} SlotsSubmit(frame: nat, pending: seq<SlotIndex>, inUse: seq<bool>, content: seq<nat>,
                                       r: nat, held: nat)
    requires Slots(frame, pending, inUse, content, r, held) && held <= 1
    requires !inUse[Slot(frame)] && content[Slot(frame)] == frame + 1
    ensures Slots(frame + 1, pending + [Slot(frame)], inUse[Slot(frame) := true], content, r, held)
  {
    SlotFree(frame, pending, inUse, content, r, held);
  }

  lemma {:induction false} SlotsPop(frame: nat, pending: seq<SlotIndex>, inUse: seq<bool>, content: seq<nat>, r: nat)
    requires Slots(frame, pending, inUse, content, r, 0) && pending != []
    ensures pending[0] == Slot(r) && Slots(frame, pending[1..], inUse, content, r, 1)
  {
  }

  lemma {:induction false} SlotsRelease(frame: nat, pending: seq<SlotIndex>, inUse: seq<bool>, content: seq<nat>,
                                        r: nat)
    requires Slots(frame, pending, inUse, content, r, 1)
    ensures Slots(frame, pending, inUse[Slot(r) := false], content, r + 1, 0)
  {
  }

  ghost predicate WorkerInv(c: Config, s: State) {
    var d := |s.drained|;
    && InOrder(s.drained)
    && (s.worker.Draining? || s.worker.Written? ==> s.worker.slot == Slot(d))
    && (s.worker.Releasing? ==> d >= 1 && s.worker.slot == Slot(d - 1))
    && (s.worker.Idle? || s.worker.Draining? || s.worker.Releasing? ==> Holds(c, s.output, d))
    && (s.worker.Written? ==> Holds(c, s.output, d + 1))
    && (s.worker.Failing? || s.workerError ==> s.faults > 0 && (Holds(c, s.output, d) || Holds(c, s.output, d + 1)))
    && (s.workerError ==> s.worker.Exited? && s.inputDone)
    && (s.worker.Exited? && !s.workerError ==> s.inputDone && s.pending == [] && Holds(c, s.output, d))
  }

  ghost predicate ProducerInv(c: Config, s: State) {
    && WellFormed(s) && s.frame <= c.frameCount
    && !s.producer.Own? && !s.producer.OwnWritten?
    && (s.producer.Recover? || s.producer.Encode? || s.producer.Submit? ==>
          s.frame < c.frameCount && !s.inUse[Slot(s.frame)])
    && (s.producer.Submit? ==> s.content[Slot(s.frame)] == s.frame + 1)
    && (s.producer.Finish? || s.producer.Join? ==> s.frame == c.frameCount)
    && (s.producer.Join? || s.producer.AbortJoin? ==> s.inputDone)
    && (s.producer.Abort? || s.producer.AbortJoin? ==> s.faults > 0)
    && (s.producer.Returned? ==> s.worker.Exited? && (s.producer.ok <==> s.faults == 0))
    && (s.producer == Returned(true) ==> !s.workerError && s.frame == c.frameCount)
    && (s.inputDone ==> s.workerError || s.producer.Join? || s.producer.AbortJoin? || s.producer.Returned?)
    && (s.faults > 0 ==> s.worker.Failing? || s.workerError || s.producer.Abort? ||
                         s.producer.AbortJoin? || s.producer.Returned?)
  }

  /** Depth 0: there is no worker and every frame is drained by the producer. */
  ghost predicate SerialInv(c: Config, s: State) {
    && WellFormed(s) && s.frame <= c.frameCount
    && s.worker.Exited? && !s.workerError && !s.inputDone
    && s.pending == [] && s.inUse == [false, false]
    && |s.drained| == s.frame && InOrder(s.drained)
    && !s.producer.Finish? && !s.producer.Join? && !s.producer.AbortJoin?
    && (s.producer.Recover? || s.producer.Encode? || s.producer.Submit? || s.producer.Own? || s.producer.OwnWritten? ==>
          s.frame < c.frameCount)
    && (s.producer.Submit? || s.producer.Own? || s.producer.OwnWritten? ==> s.content[Slot(s.frame)] == s.frame + 1)
    && (s.producer.OwnWritten? ==> Holds(c, s.output, s.frame + 1))
    && (if s.producer.Abort? || s.producer == Returned(false)
        then s.faults > 0 && (Holds(c, s.output, s.frame) || Holds(c, s.output, s.frame + 1))
        else s.faults == 0 && (!s.producer.OwnWritten? ==> Holds(c, s.output, s.frame)))
    && (s.producer == Returned(true) ==> s.frame == c.frameCount)
  }

  ghost predicate Inv(c: Config, s: State) {
    && c.depth <= 1
    && (if c.depth == 1
        then SlotInv(s) && WorkerInv(c, s) && ProducerInv(c, s)
        else SerialInv(c, s))
  }

  lemma {:induction false} WriteOutExtends(c: Config, o: Output, k: nat)
    requires Holds(c, o, k)
    ensures Holds(c, WriteOut(c, o, k + 1), k + 1)
  {
  }

  lemma {:induction false} SerialKeepsInv(c: Config, s: State, a: Action)
    requires c.depth == 0 && SerialInv(c, s) && Enabled(c, s, a)
    ensures SerialInv(c, Apply(c, s, a))
  {
    hide Holds, WriteOut;
    if s.producer.Own? {
      WriteOutExtends(c, s.output, s.frame);
    }
  }

  lemma {:induction false} ProducerMayWrite(c: Config, s: State)
    requires WellFormed(s) && ProducerInv(c, s)
    ensures !s.producer.Own? && !s.producer.OwnWritten?
    ensures s.producer.Encode? || s.producer.Submit? ==> !s.inUse[Slot(s.frame)]
    ensures s.producer.Submit? ==> s.content[Slot(s.frame)] == s.frame + 1
  {
  }

  lemma {:induction false} ProducerKeepsSlots(c: Config, s: State, ok: bool)
    requires c.depth == 1 && SlotInv(s)
    requires !s.producer.Own? && !s.producer.OwnWritten?
    requires s.producer.Encode? || s.producer.Submit? ==> !s.inUse[Slot(s.frame)]
    requires s.producer.Submit? ==> s.content[Slot(s.frame)] == s.frame + 1
    ensures SlotInv(ProducerNext(c, s, ok))
  {
    hide WriteOut, Slots, RecoveryDue, Slot;
    var t := ProducerNext(c, s, ok);
    var r, held := Released(s), if Holding(s) then 1 else 0;
    ProducerLeaves(c, s, ok);
    if s.producer.Encode? {
      SlotsFill(s.frame, s.pending, s.inUse, s.content, r, held);
    } else if s.producer.Submit? {
      SlotsSubmit(s.frame, s.pending, s.inUse, s.content, r, held);
    } else {
      hide ProducerNext;
    }
  }

  /** What the producer does not touch. */
  lemma {:induction false} ProducerLeaves(c: Config, s: State, ok: bool)
    requires c.depth == 1 && WellFormed(s) && !s.producer.Own? && !s.producer.OwnWritten?
    ensures var t := ProducerNext(c, s, ok);
            && t.worker == s.worker && t.drained == s.drained && t.workerError == s.workerError && t.output == s.output
            && (!s.producer.Submit? ==> t.frame == s.frame && t.pending == s.pending && t.inUse == s.inUse)
            && (!s.producer.Encode? ==> t.content == s.content)
  {
    hide WriteOut, RecoveryDue, Slot;
  }

  lemma {:induction false} ProducerKeepsWorker(c: Config, s: State, ok: bool)
    requires c.depth == 1 && WellFormed(s) && ProducerInv(c, s) && WorkerInv(c, s)
    ensures WorkerInv(c, ProducerNext(c, s, ok))
  {
    hide Holds, WriteOut;
    var t := ProducerNext(c, s, ok);
    assert t.worker == s.worker && t.drained == s.drained && t.workerError == s.workerError;
    assert t.output == s.output;
    assert s.worker.Exited? && !s.workerError ==> t.pending == s.pending;
  }

  lemma {:induction false} ProducerKeepsProducer(c: Config, s: State, ok: bool)
    requires c.depth == 1 && SlotInv(s) && ProducerInv(c, s) && WorkerInv(c, s) && Enabled(c, s, ProducerStep(ok))
    ensures ProducerInv(c, ProducerNext(c, s, ok))
  {
    hide Holds, WriteOut, RecoveryDue;
    var t := ProducerNext(c, s, ok);
    assert t.worker == s.worker && t.workerError == s.workerError;
  }

  lemma {:induction false} WorkerKeepsSlots(c: Config, s: State, ok: bool)
    requires SlotInv(s) && WorkerInv(c, s)
    ensures SlotInv(WorkerNext(c, s, ok))
  {
    hide Holds;
    var r := Released(s);
    match s.worker {
      case Idle => if s.pending != [] { SlotsPop(s.frame, s.pending, s.inUse, s.content, r); }
      case Releasing(_) => SlotsRelease(s.frame, s.pending, s.inUse, s.content, r);
      case _ =>
    }
  }

  lemma {:induction false} WorkerKeepsWorker(c: Config, s: State, ok: bool)
    requires SlotInv(s) && WorkerInv(c, s) && Enabled(c, s, WorkerStep(ok))
    ensures WorkerInv(c, WorkerNext(c, s, ok))
  {
    hide Holds, WriteOut, Slot, Queue;
    var d := |s.drained|;
    match s.worker {
      case Idle => if s.pending != [] { SlotsPop(s.frame, s.pending, s.inUse, s.content, d); }
      case Draining(_) =>
        WriteOutExtends(c, s.output, d);
      case _ =>
    }
  }

  lemma {:induction false} WorkerKeepsProducer(c: Config, s: State, ok: bool)
    requires SlotInv(s) && ProducerInv(c, s) && WorkerInv(c, s) && Enabled(c, s, WorkerStep(ok))
    ensures ProducerInv(c, WorkerNext(c, s, ok))
  {
    hide Holds;
  }

  lemma {:induction false} StepKeepsInv(c: Config, s: State, a: Action)
    requires Inv(c, s) && Enabled(c, s, a)
    ensures Inv(c, Apply(c, s, a))
  {
    if c.depth == 0 {
      SerialKeepsInv(c, s, a);
    } else {
      hide SlotInv, WorkerInv, ProducerInv, ProducerNext, WorkerNext;
      match a {
        case ProducerStep(ok) =>
          ProducerMayWrite(c, s);
          ProducerKeepsSlots(c, s, ok);
          ProducerKeepsWorker(c, s, ok);
          ProducerKeepsProducer(c, s, ok);
        case WorkerStep(ok) =>
          WorkerKeepsSlots(c, s, ok);
          WorkerKeepsWorker(c, s, ok);
          WorkerKeepsProducer(c, s, ok);
      }
    }
  }

  lemma {:induction false} InvIsInductive(c: Config)
    requires c.depth <= 1
    ensures Inductive(Threads(c), s => Inv(c, s))
  {
    hide Inv, Init, Next;
    forall s | Init(c, s) ensures Inv(c, s) {
      InitHolds(c, s);
    }
    forall s, t | Inv(c, s) && Next(c, s, t) ensures Inv(c, t) {
      NextKeepsInv(c, s, t);
    }
  }

  lemma {:induction false} InitHolds(c: Config, s: State)
    requires c.depth <= 1 && Init(c, s)
    ensures Inv(c, s)
  {
  }

  lemma {:induction false} NextKeepsInv(c: Config, s: State, t: State)
    requires Inv(c, s) && Next(c, s, t)
    ensures Inv(c, t)
  {
    hide Inv, Enabled, Apply;
    var a :| Enabled(c, s, a) && t == Apply(c, s, a);
    StepKeepsInv(c, s, a);
  }

  lemma {:induction false} ReachableInv(c: Config, s: State)
    requires c.depth <= 1 && Reachable(Threads(c), s)
    ensures Inv(c, s)
  {
    InvIsInductive(c);
    Invariance(Threads(c), s => Inv(c, s), s);
  }

  // ----------------------------------------------------------------- theorems

  /** The slots the worker will read or is reading. */
  ghost function WorkerSlots(s: State): set<nat> {
    (set slot | slot in s.pending) +
    (if s.worker.Draining? || s.worker.Written? || s.worker.Releasing? then {s.worker.slot} else {})
  }

  /** While the producer may touch its slot, the worker neither holds nor has queued it. */
  lemma {:induction false} Exclusion(c: Config, s: State)
    requires c.depth == 1 && Reachable(Threads(c), s)
    requires s.producer.Recover? || s.producer.Encode? || s.producer.Submit?
    ensures Slot(s.frame) !in WorkerSlots(s)
  {
    ReachableInv(c, s);
    var r, held := Released(s), if Holding(s) then 1 else 0;
    SlotFree(s.frame, s.pending, s.inUse, s.content, r, held);
  }

  /** Frames leave in submission order, each exactly once, and none twice or out of thin air. */
  lemma {:induction false} DeliveryOrder(c: Config, s: State)
    requires c.depth <= 1 && Reachable(Threads(c), s)
    ensures forall i | 0 <= i < |s.drained| :: s.drained[i] == i + 1
    ensures |s.drained| <= s.frame <= c.frameCount
    ensures s.output.file == Kept(c, |s.drained|) || s.output.file == Kept(c, |s.drained| + 1)
  {
    ReachableInv(c, s);
  }

  /** The end of a run: it reports success exactly when no external call failed in
      either thread, and a successful run wrote every frame but the lost one. */
  lemma {:induction false} Outcome(c: Config, s: State)
    requires c.depth <= 1 && c.lossFrame <= c.frameCount
    requires Reachable(Threads(c), s) && s.producer.Returned?
    ensures s.producer.ok <==> s.faults == 0
    ensures s.worker.Exited?
    ensures s.producer.ok ==>
              && s.output.file == Kept(c, c.frameCount)
              && s.output.written == |s.output.file|
              && s.output.written + s.output.dropped == c.frameCount
              && s.output.dropped == (if c.lossFrame != 0 then 1 else 0)
              && |s.drained| == c.frameCount
  {
    ReachableInv(c, s);
  }

  /** The external call made in this step, if there is one, has failed. */
  ghost predicate CallFails(c: Config, hop: Hop<State, Action>) {
    match hop.action
    case ProducerStep(ok) =>
      !ok && (match hop.state.producer
              case Recover =>
                c.invalidation && c.lossFrame != 0 && hop.state.frame == c.lossFrame + c.delay - 1
              case Encode => true
              case Own => true
              case OwnWritten => true
              case _ => false)
    case WorkerStep(ok) => !ok && (hop.state.worker.Draining? || hop.state.worker.Written?)
  }

  ghost function FailedCalls(c: Config, trace: seq<Hop<State, Action>>): nat {
    if trace == [] then 0
    else
      var n := |trace| - 1;
      FailedCalls(c, trace[..n]) + (if CallFails(c, trace[n]) then 1 else 0)
  }

  lemma {:induction false} StepFaults(c: Config, s: State, a: Action)
    requires WellFormed(s) && Enabled(c, s, a)
    ensures Apply(c, s, a).faults == s.faults + (if CallFails(c, Hop(s, a)) then 1 else 0)
  {
    hide WriteOut, Slot;
  }

  lemma {:induction false} FaultsAreFailedCalls(c: Config, trace: seq<Hop<State, Action>>, s: State)
    requires IsTrace(Labelled(c), trace, s)
    ensures s.faults == FailedCalls(c, trace)
  {
    hide Enabled, Apply, CallFails;
    if trace != [] {
      var n := |trace| - 1;
      StepFaults(c, trace[n].state, trace[n].action);
      FaultsAreFailedCalls(c, trace[..n], trace[n].state);
    }
  }

  /** A whole run, judged by what was done in it: the producer returns success exactly
      when no call has failed in either thread. Frames that were submitted are drained
      even then, unless it was the worker that failed. */
  lemma {:induction false} SuccessMeansNoCallFailed(c: Config, trace: seq<Hop<State, Action>>, s: State)
    requires c.depth <= 1 && IsTrace(Labelled(c), trace, s) && s.producer.Returned?
    ensures s.producer.ok <==> FailedCalls(c, trace) == 0
    ensures s.producer.ok ==> s.frame == c.frameCount
    ensures !s.workerError ==> |s.drained| == s.frame && s.pending == []
  {
    FaultsAreFailedCalls(c, trace, s);
    LabelsThreads(c);
    hide Labelled;
    TraceReaches(Labelled(c), Threads(c), trace, s);
    ReachableInv(c, s);
  }

  /** How many frames have been submitted, or will be before the producer next looks. */
  ghost function Begun(s: State): nat {
    s.frame + (if s.producer.Recover? || s.producer.Encode? || s.producer.Submit? then 1 else 0)
  }

  lemma {:induction false} ErrorStopsStep(c: Config, s: State, a: Action)
    requires c.depth == 1 && WellFormed(s) && Enabled(c, s, a) && s.workerError
    requires !s.producer.Own? && !s.producer.OwnWritten?
    ensures Apply(c, s, a).workerError && Begun(Apply(c, s, a)) <= Begun(s)
  {
    hide WriteOut, Slot, RecoveryDue;
  }

  /** An error of the worker stops the producer: besides the frame it is at, no frame is
      begun after it. */
  lemma {:induction false} ErrorStopsProducer(c: Config, trace: seq<Hop<State, Action>>, s: State, j: nat)
    requires c.depth == 1 && IsTrace(Labelled(c), trace, s) && j < |trace| && trace[j].state.workerError
    ensures s.workerError && Begun(s) <= Begun(trace[j].state)
    decreases |trace|
  {
    var n := |trace| - 1;
    LabelsThreads(c);
    hide Enabled, Apply, Begun, Labelled;
    assert IsTrace(Labelled(c), trace[..n], trace[n].state);
    TraceReaches(Labelled(c), Threads(c), trace[..n], trace[n].state);
    if j < n {
      ErrorStopsProducer(c, trace[..n], trace[n].state, j);
    }
    ReachableInv(c, trace[n].state);
    LastHop(c, trace, s);
    ErrorStopsStep(c, trace[n].state, trace[n].action);
  }

  lemma {:induction false} LastHop(c: Config, trace: seq<Hop<State, Action>>, s: State)
    requires IsTrace(Labelled(c), trace, s) && trace != []
    ensures var n := |trace| - 1;
            && WellFormed(trace[n].state) && Enabled(c, trace[n].state, trace[n].action)
            && s == Apply(c, trace[n].state, trace[n].action)
  {
    hide Enabled, Apply;
  }

  /** No deadlock: until the producer has returned, some thread can take a step in which
      no call fails. */
  lemma {:induction false} Progress(c: Config, s: State)
    requires c.depth <= 1 && Reachable(Threads(c), s) && !s.producer.Returned?
    ensures exists a: Action, t: State :: Labelled(c).step(s, a, t) && !CallFails(c, Hop(s, a))
  {
    ReachableInv(c, s);
    if Enabled(c, s, ProducerStep(true)) {
      assert Labelled(c).step(s, ProducerStep(true), Apply(c, s, ProducerStep(true)));
    } else {
      assert Enabled(c, s, WorkerStep(true)) by {
        if s.producer.Acquire? {
          SlotFree(s.frame, s.pending, s.inUse, s.content, Released(s), if Holding(s) then 1 else 0);
        }
      }
      assert Labelled(c).step(s, WorkerStep(true), Apply(c, s, WorkerStep(true)));
    }
  }

  ghost function ProducerRank(c: Config, s: State): nat {
    var left := if s.frame < c.frameCount then 12 * (c.frameCount - s.frame) else 0;
    match s.producer
    case Acquire => left + 6
    case Recover => left + 5
    case Encode => left + 4
    case Submit => left + 3
    case Own => left + 2
    case OwnWritten => left + 1
    case Finish => 5
    case Join => 4
    case Abort => 2
    case AbortJoin => 1
    case Returned(_) => 0
  }

  ghost function WorkerRank(s: State): nat {
    5 * |s.pending| +
    match s.worker
    case Draining(_) => 5
    case Written(_) => 4
    case Releasing(_) => 3
    case Idle => 2
    case Failing => 1
    case Exited => 0
  }

  ghost function Rank(c: Config): State -> nat {
    s => ProducerRank(c, s) + WorkerRank(s)
  }

  lemma {:induction false} ProducerAddsWork(c: Config, s: State, ok: bool)
    requires WellFormed(s)
    ensures WorkerRank(ProducerNext(c, s, ok)) <= WorkerRank(s) + (if s.producer.Submit? && c.depth == 1 then 5 else 0)
  {
    hide WriteOut, RecoveryDue, Slot;
    var t := ProducerNext(c, s, ok);
    assert t.worker == s.worker;
    assert |t.pending| == |s.pending| + (if s.producer.Submit? && c.depth == 1 then 1 else 0);
  }

  lemma {:induction false} ProducerAdvances(c: Config, s: State, ok: bool)
    requires WellFormed(s) && s.frame <= c.frameCount && Enabled(c, s, ProducerStep(ok))
    requires s.producer.Acquire? || s.producer.Finish? || s.producer.Join? || s.producer.Abort?
             || s.producer.AbortJoin? || s.frame < c.frameCount
    ensures ProducerRank(c, ProducerNext(c, s, ok))
        + (if s.producer.Submit? && c.depth == 1 then 5 else 0) < ProducerRank(c, s)
  {
    hide WriteOut, RecoveryDue, Slot;
    var t := ProducerNext(c, s, ok);
    assert t.frame == s.frame || (t.frame == s.frame + 1 && t.producer == Acquire);
  }

  lemma {:induction false} WorkerLowersRank(c: Config, s: State, ok: bool)
    requires WellFormed(s) && Enabled(c, s, WorkerStep(ok))
    ensures Rank(c)(WorkerNext(c, s, ok)) < Rank(c)(s)
  {
    hide WorkerNext, WorkerRank, Enabled;
    WorkerDoesWork(c, s, ok);
    assert ProducerRank(c, WorkerNext(c, s, ok)) == ProducerRank(c, s);
  }

  lemma {:induction false} WorkerDoesWork(c: Config, s: State, ok: bool)
    requires WellFormed(s) && Enabled(c, s, WorkerStep(ok))
    ensures var t := WorkerNext(c, s, ok);
            WorkerRank(t) < WorkerRank(s) && t.producer == s.producer && t.frame == s.frame
  {
    hide WriteOut;
  }

  lemma {:induction false} StepLowersRank(c: Config, s: State, a: Action)
    requires Inv(c, s) && Enabled(c, s, a)
    ensures Rank(c)(Apply(c, s, a)) < Rank(c)(s)
  {
    match a {
      case ProducerStep(ok) =>
        assert s.frame <= c.frameCount;
        hide Slots, WorkerInv, ProducerNext, WorkerNext, ProducerRank, WorkerRank;
        ProducerAdvances(c, s, ok);
        ProducerAddsWork(c, s, ok);
      case WorkerStep(ok) =>
        hide *;
        WorkerLowersRank(c, s, ok);
    }
  }

  /** Every interleaving ends: with Progress, both threads always finish. */
  lemma {:induction false} Termination(c: Config, run: seq<State>)
    requires c.depth <= 1 && IsRun(Threads(c), run)
    ensures |run| <= 12 * c.frameCount + 9
  {
    InvIsInductive(c);
    forall s, t | Inv(c, s) && Threads(c).next(s, t) ensures Rank(c)(t) < Rank(c)(s) {
      hide Inv, Rank, Enabled, Apply, WellFormed;
      var a :| Enabled(c, s, a) && t == Apply(c, s, a);
      StepLowersRank(c, s, a);
    }
    RankBounds(Threads(c), s => Inv(c, s), Rank(c), run, |run| - 1);
  }

  // --------------------------------------------------------- loss recovery

  /** The call to invalidate the lost frame is made in this step, and succeeds. */
  ghost predicate Invalidates(c: Config, hop: Hop<State, Action>) {
    && hop.action == ProducerStep(true) && hop.state.producer.Recover?
    && c.invalidation && c.lossFrame != 0 && hop.state.frame + 1 == c.lossFrame + c.delay
  }

  /** Where the producer is decides whether the call has been made. */
  ghost predicate Invalidations(c: Config, s: State) {
    var due := c.lossFrame + c.delay;
    && (s.invalidated ==>
          && c.invalidation && c.lossFrame != 0
          && (s.frame + 1 > due || (s.frame + 1 == due && !s.producer.Acquire? && !s.producer.Recover?)))
    && (c.invalidation && c.lossFrame != 0
        && (s.frame + 1 > due || (s.frame + 1 == due && (s.producer.Encode? || s.producer.Submit?
                                                         || s.producer.Own? || s.producer.OwnWritten?)))
        ==> s.invalidated)
  }

  lemma {:induction false} StepKeepsInvalidations(c: Config, s: State, a: Action)
    requires WellFormed(s) && Enabled(c, s, a) && Invalidations(c, s)
    ensures Invalidations(c, Apply(c, s, a))
    ensures Apply(c, s, a).invalidated <==> s.invalidated || Invalidates(c, Hop(s, a))
    ensures Invalidates(c, Hop(s, a)) ==> !s.invalidated
  {
    hide WriteOut, Slot;
  }

  lemma {:induction false} ReachableInvalidations(c: Config, s: State)
    requires Reachable(Threads(c), s)
    ensures Invalidations(c, s)
  {
    forall s | Init(c, s) ensures Invalidations(c, s) {
    }
    hide Invalidations, Init, Enabled, Apply;
    forall s, t | Invalidations(c, s) && Next(c, s, t) ensures Invalidations(c, t) {
      var a :| Enabled(c, s, a) && t == Apply(c, s, a);
      StepKeepsInvalidations(c, s, a);
    }
    Invariance(Threads(c), s => Invalidations(c, s), s);
  }

  /** Over a whole run the call is made at most once, immediately before the frame that
      comes `delay` frames after the lost one, and the flag says whether it was made. */
  lemma {:induction false} InvalidatedOnce(c: Config, trace: seq<Hop<State, Action>>, s: State)
    requires IsTrace(Labelled(c), trace, s)
    ensures Invalidations(c, s)
    ensures s.invalidated <==> exists i | 0 <= i < |trace| :: Invalidates(c, trace[i])
    ensures forall i, j | 0 <= i < j < |trace| && Invalidates(c, trace[i]) :: !Invalidates(c, trace[j])
  {
    hide Enabled, Apply, Invalidates;
    if trace != [] {
      hide Invalidations;
      var n := |trace| - 1;
      InvalidatedOnce(c, trace[..n], trace[n].state);
      StepKeepsInvalidations(c, trace[n].state, trace[n].action);
      assert trace == trace[..n] + [trace[n]];
      assert Invalidates(c, Hop(trace[n].state, trace[n].action)) <==> Invalidates(c, trace[n]);
    }
  }

  /** At the end of a successful run with accepted arguments the call has been made
      exactly if it was asked for. */
  lemma {:induction false} InvalidatedIfRequested(c: Config, s: State)
    requires Accepted(c) && Reachable(Threads(c), s) && s.producer == Returned(true)
    ensures s.invalidated <==> c.invalidation && c.lossFrame != 0
  {
    ReachableInvalidations(c, s);
    ReachableInv(c, s);
  }

  /** In every run, a step that invalidates the lost frame starts only once that frame
      has been drained. */
  ghost predicate RecoverySafe(c: Config) {
    forall s, t | Reachable(Threads(c), s) && Next(c, s, t) && !s.invalidated && t.invalidated ::
      c.lossFrame in s.drained
  }

  /** When the call is due, everything up to `depth` frames before is drained. */
  lemma {:induction false} DueAfterDrain(c: Config, s: State, a: Action)
    requires c.depth <= 1 && c.delay >= c.depth + 1
    requires Reachable(Threads(c), s) && Invalidates(c, Hop(s, a))
    ensures c.lossFrame in s.drained
  {
    ReachableInv(c, s);
    if c.depth == 1 {
      SlotFree(s.frame, s.pending, s.inUse, s.content, Released(s), if Holding(s) then 1 else 0);
    }
    assert s.drained[c.lossFrame - 1] == c.lossFrame;
  }

  lemma {:induction false} DrainedStays(c: Config, s: State, a: Action)
    requires WellFormed(s) && Enabled(c, s, a)
    ensures s.drained <= Apply(c, s, a).drained
  {
    hide WriteOut, Slot;
  }

  /** With a delay beyond the depth, the lost frame is drained before the call is made. */
  lemma {:induction false} LateRecoveryIsSafe(c: Config)
    requires c.depth <= 1 && c.delay >= c.depth + 1
    ensures RecoverySafe(c)
  {
    hide Enabled, Apply, Invalidates;
    forall s, t | Reachable(Threads(c), s) && Next(c, s, t) && !s.invalidated && t.invalidated
      ensures c.lossFrame in s.drained
    {
      var a :| Enabled(c, s, a) && t == Apply(c, s, a);
      ReachableInvalidations(c, s);
      StepKeepsInvalidations(c, s, a);
      DueAfterDrain(c, s, a);
    }
  }

  /** And so in every later state of the run. */
  lemma {:induction false} InvalidatedAfterDrain(c: Config, trace: seq<Hop<State, Action>>, s: State)
    requires c.depth <= 1 && c.delay >= c.depth + 1 && IsTrace(Labelled(c), trace, s) && s.invalidated
    ensures c.invalidation && c.lossFrame != 0 && s.frame + 1 >= c.lossFrame + c.delay
    ensures c.lossFrame in s.drained
  {
    InvalidatedOnce(c, trace, s);
    hide Enabled, Apply, Invalidates;
    if trace != [] {
      var n := |trace| - 1;
      var before, a := trace[n].state, trace[n].action;
      DrainedStays(c, before, a);
      if before.invalidated {
        InvalidatedAfterDrain(c, trace[..n], before);
      } else {
        InvalidatedOnce(c, trace[..n], before);
        StepKeepsInvalidations(c, before, a);
        LabelsThreads(c);
        assert IsTrace(Labelled(c), trace[..n], before);
        hide Labelled;
        TraceReaches(Labelled(c), Threads(c), trace[..n], before);
        DueAfterDrain(c, before, a);
      }
    }
  }

  /** The producer is at the head of its loop and everything submitted is drained. */
  ghost predicate Quiet(c: Config, s: State, frame: nat) {
    && Reachable(Threads(c), s) && s.producer == Acquire && s.frame == frame && |s.drained| == frame
    && s.worker == (if c.depth == 1 then Idle else Exited)
    && !s.workerError && s.pending == []
  }

  lemma {:induction false} Move(c: Config, s: State, a: Action) returns (t: State)
    requires WellFormed(s) && Reachable(Threads(c), s) && Enabled(c, s, a)
    ensures t == Apply(c, s, a) && Reachable(Threads(c), t)
  {
    t := Apply(c, s, a);
    assert Next(c, s, t);
    Extend(Threads(c), s, t);
  }

  /** One frame through the producer's loop, as far as its slot being handed over. */
  lemma {:induction false} SubmitOne(c: Config, s: State) returns (t: State)
    requires c.depth == 1 && Quiet(c, s, s.frame) && s.frame < c.frameCount
    ensures Reachable(Threads(c), t)
    ensures t.producer == Acquire && t.worker == Idle && t.frame == s.frame + 1 && |t.drained| == s.frame
    ensures !t.workerError && t.pending == [Slot(s.frame)]
  {
    ReachableInv(c, s);
    t := Move(c, s, ProducerStep(true));
    t := Move(c, t, ProducerStep(true));
    t := Move(c, t, ProducerStep(true));
    t := Move(c, t, ProducerStep(true));
  }

  lemma {:induction false} DrainOne(c: Config, s: State) returns (t: State)
    requires c.depth == 1 && Reachable(Threads(c), s)
    requires s.producer == Acquire && s.worker == Idle && !s.workerError && |s.pending| == 1
    ensures Reachable(Threads(c), t) && t.producer == Acquire && t.frame == s.frame
    ensures t.worker == Idle && !t.workerError && t.pending == [] && |t.drained| == |s.drained| + 1
  {
    ReachableInv(c, s);
    t := Move(c, s, WorkerStep(true));
    t := Move(c, t, WorkerStep(true));
    t := Move(c, t, WorkerStep(true));
    t := Move(c, t, WorkerStep(true));
  }

  lemma {:induction false} SerialOne(c: Config, s: State) returns (t: State)
    requires c.depth == 0 && Quiet(c, s, s.frame) && s.frame < c.frameCount
    ensures Quiet(c, t, s.frame + 1)
  {
    ReachableInv(c, s);
    t := Move(c, s, ProducerStep(true));
    t := Move(c, t, ProducerStep(true));
    t := Move(c, t, ProducerStep(true));
    t := Move(c, t, ProducerStep(true));
    t := Move(c, t, ProducerStep(true));
    t := Move(c, t, ProducerStep(true));
  }

  lemma {:induction false} QuietAt(c: Config, frame: nat) returns (s: State)
    requires c.depth <= 1 && frame <= c.frameCount
    ensures Quiet(c, s, frame)
  {
    if frame == 0 {
      s := State(Acquire, if c.depth == 1 then Idle else Exited, 0, [], [false, false], [0, 0],
                 false, false, Output([], 0, 0), false, [], 0);
      Start(Threads(c), s);
    } else {
      s := QuietAt(c, frame - 1);
      if c.depth == 0 {
        s := SerialOne(c, s);
      } else {
        s := SubmitOne(c, s);
        s := DrainOne(c, s);
      }
    }
  }

  /** The bound is tight: with a shorter delay there is a run in which the lost
      frame is invalidated before it has been drained. */
  lemma {:induction false} EarlyRecovery(c: Config) returns (s: State, t: State)
    requires c.depth <= 1 && c.delay <= c.depth
    requires c.invalidation && 1 <= c.lossFrame && c.lossFrame + c.delay <= c.frameCount
    ensures Reachable(Threads(c), s) && Next(c, s, t) && !s.invalidated && t.invalidated
    ensures c.lossFrame !in s.drained
  {
    s := QuietAt(c, c.lossFrame - 1);
    if c.delay == 1 {
      s := SubmitOne(c, s);
    }
    ReachableInv(c, s);
    SlotFree(s.frame, s.pending, s.inUse, s.content, Released(s), if Holding(s) then 1 else 0);
    s := Move(c, s, ProducerStep(true));
    ReachableInv(c, s);
    ReachableInvalidations(c, s);
    t := Move(c, s, ProducerStep(true));
  }

  /** The argument check is exactly what loss recovery needs. */
  lemma {:induction false} RecoveryNeedsTheDelay(c: Config)
    requires c.depth <= 1 && c.invalidation && 1 <= c.lossFrame && c.lossFrame + c.delay <= c.frameCount
    ensures RecoverySafe(c) <==> c.delay >= c.depth + 1
  {
    if c.delay >= c.depth + 1 {
      LateRecoveryIsSafe(c);
    } else {
      var s, t := EarlyRecovery(c);
    }
  }

  lemma {:induction false} AcceptedArgumentsRecoverSafely(c: Config)
    requires Accepted(c)
    ensures RecoverySafe(c)
  {
    if c.invalidation && c.lossFrame != 0 {
      LateRecoveryIsSafe(c);
    }
  }

  // ------------------------------------------------- the two threads in place

  /** The variables the two threads share, changed in place. `View` is the value
      the state machine above speaks of. */
  class Pipeline {
    const config: Config
    var producer: Producer
    var worker: Worker
    var frame: nat
    var pendingSlots: seq<SlotIndex>
    const slotInUse: array<bool>
    const slotStamp: array<nat>
    var inputDone: bool
    var workerError: bool
    var framesWritten: nat
    var framesDropped: nat
    var bitstream: seq<nat>
    var invalidated: bool
    ghost var drained: seq<nat>
    ghost var faults: nat

    ghost predicate Valid()
      reads this
    {
      slotInUse.Length == 2 && slotStamp.Length == 2
    }

    ghost function View(): (s: State)
      requires Valid()
      reads this, slotInUse, slotStamp
      ensures WellFormed(s)
    {
      State(producer, worker, frame, pendingSlots, slotInUse[..], slotStamp[..], inputDone, workerError,
            Output(bitstream, framesWritten, framesDropped), invalidated, drained, faults)
    }

    constructor (config: Config)
      ensures Valid() && this.config == config && Init(config, View())
      ensures fresh(slotInUse) && fresh(slotStamp)
    {
      this.config := config;
      producer, worker := Acquire, if config.depth == 1 then Idle else Exited;
      frame, pendingSlots := 0, [];
      slotInUse := new bool[2](_ => false);
      slotStamp := new nat[2](_ => 0);
      inputDone, workerError := false, false;
      framesWritten, framesDropped, bitstream, invalidated := 0, 0, [], false;
      drained, faults := [], 0;
      new;
      assert slotInUse[..] == [false, false];
    }

    /** The write inside drain_slot. */
    method WriteSlot(slot: SlotIndex)
      requires Valid()
      modifies this`bitstream, this`framesWritten, this`framesDropped
      ensures Output(bitstream, framesWritten, framesDropped)
           == WriteOut(config, old(Output(bitstream, framesWritten, framesDropped)), slotStamp[slot])
    {
      if config.lossFrame != 0 && slotStamp[slot] == config.lossFrame {
        framesDropped := framesDropped + 1;
      } else {
        bitstream := bitstream + [slotStamp[slot]];
        framesWritten := framesWritten + 1;
      }
    }

    method ProducerAction(ok: bool)
      requires Valid() && Enabled(config, View(), ProducerStep(ok))
      modifies this, slotInUse, slotStamp
      ensures Valid() && View() == ProducerNext(config, old(View()), ok)
    {
      hide ProducerNext;
      if producer.Acquire? || producer.Recover? || producer.Encode? {
        PrepareFrame(ok);
      } else if producer.Submit? || producer.Own? || producer.OwnWritten? {
        HandOver(ok);
      } else {
        ShutDown(ok);
      }
    }

    /** From the wait for a free slot to the encoded frame. */
    method PrepareFrame(ok: bool)
      requires Valid() && Enabled(config, View(), ProducerStep(ok))
      requires producer.Acquire? || producer.Recover? || producer.Encode?
      modifies this`producer, this`invalidated, this`faults, slotStamp
      ensures Valid() && View() == ProducerNext(config, old(View()), ok)
    {
      hide RecoveryDue, WriteOut, Slot;
      match producer {
        case Acquire =>
          if frame >= config.frameCount {
            producer := if config.depth == 1 then Finish else Returned(true);
          } else if config.depth == 1 && workerError {
            producer := Abort;
          } else {
            producer := Recover;
          }
        case Recover =>
          if !RecoveryDue(config, frame) {
            producer := Encode;
          } else if ok {
            producer, invalidated := Encode, true;
          } else {
            producer, faults := Abort, faults + 1;
          }
        case Encode =>
          var slot := Slot(frame);
          slotStamp[slot] := frame + 1;
          assert slotStamp[..] == old(slotStamp[..])[slot := frame + 1];
          if ok { producer := Submit; } else { producer, faults := Abort, faults + 1; }
      }
    }

    /** The slot goes to the worker, or is drained on the spot. */
    method HandOver(ok: bool)
      requires Valid() && Enabled(config, View(), ProducerStep(ok))
      requires producer.Submit? || producer.Own? || producer.OwnWritten?
      modifies this, slotInUse
      ensures Valid() && View() == ProducerNext(config, old(View()), ok)
    {
      hide RecoveryDue, WriteOut, Slot;
      var slot := Slot(frame);
      match producer {
        case Submit =>
          if config.depth == 1 {
            slotInUse[slot] := true;
            assert slotInUse[..] == old(slotInUse[..])[slot := true];
            pendingSlots := pendingSlots + [slot];
            producer, frame := Acquire, frame + 1;
          } else {
            producer := Own;
          }
        case Own =>
          if ok { WriteSlot(slot); producer := OwnWritten; } else { producer, faults := Abort, faults + 1; }
        case OwnWritten =>
          if ok {
            drained := drained + [slotStamp[slot]];
            producer, frame := Acquire, frame + 1;
          } else {
            producer, faults := Abort, faults + 1;
          }
      }
    }

    /** The end of the run, after the last frame or a failure. */
    method ShutDown(ok: bool)
      requires Valid() && Enabled(config, View(), ProducerStep(ok))
      requires producer.Finish? || producer.Join? || producer.Abort? || producer.AbortJoin? || producer.Returned?
      modifies this`producer, this`inputDone
      ensures Valid() && View() == ProducerNext(config, old(View()), ok)
    {
      hide RecoveryDue, WriteOut, Slot;
      match producer {
        case Finish => producer, inputDone := Join, true;
        case Join => producer := Returned(!workerError);
        case Abort =>
          if config.depth == 1 {
            producer, inputDone := AbortJoin, true;
          } else {
            producer := Returned(false);
          }
        case AbortJoin => producer := Returned(false);
        case Returned(_) =>
      }
    }

    method WorkerAction(ok: bool)
      requires Valid() && Enabled(config, View(), WorkerStep(ok))
      modifies this, slotInUse
      ensures Valid() && View() == WorkerNext(config, old(View()), ok)
    {
      hide WriteOut;
      match worker {
        case Idle =>
          if pendingSlots == [] {
            worker := Exited;
          } else {
            worker, pendingSlots := Draining(pendingSlots[0]), pendingSlots[1..];
          }
        case Draining(slot) =>
          if ok { WriteSlot(slot); worker := Written(slot); } else { worker := Failing; faults := faults + 1; }
        case Written(slot) =>
          if ok {
            drained := drained + [slotStamp[slot]];
            worker := Releasing(slot);
          } else {
            worker := Failing;
            faults := faults + 1;
          }
        case Releasing(slot) =>
          slotInUse[slot] := false;
          assert slotInUse[..] == old(slotInUse[..])[slot := false];
          worker := Idle;
        case Failing => worker, workerError, inputDone := Exited, true, true;
        case Exited =>
      }
    }
  }
}
