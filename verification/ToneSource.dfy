/** The tick handler of the synthetic microphone source: it keeps a lead of
    480-frame blocks ahead of the clock and resynchronises when it lost it. */
module ToneSource {

  const BLOCK: nat := 480
  const LEAD: nat := 1440
  const LIMIT: nat := 2400
  const MAX_BLOCKS: nat := 4

  /** One accepted clock snapshot together with the time of the tick: the clock is
      stopped, or it stands at `frame` under `seed`; `lease` is the new deadline. */
  datatype Tick = Stopped | Live(seed: nat, frame: nat, lease: nat)

  /** What the tick does to the shared memory, in order. */
  datatype Event = Deadline(value: nat) | Reset(at: nat) | ProducerSeed(value: nat) | Block(at: nat)

  datatype State = State(seed: nat, nextFrame: nat, blocks: nat, resyncs: nat, log: seq<Event>)

  const START := State(0, 0, 0, 0, [])

  predicate LostSync(s: State, t: Tick)
    requires t.Live?
  {
    s.seed != t.seed || s.nextFrame < t.frame || s.nextFrame > t.frame + LIMIT
  }

  function RoundUp(frame: nat): (r: nat)
    ensures r % BLOCK == 0 && frame <= r < frame + BLOCK
  {
    (frame + 479) / 480 * 480
  }

  function Synchronised(s: State, t: Tick): State
    requires t.Live?
  {
    if LostSync(s, t)
    then State(t.seed, RoundUp(t.frame), s.blocks, s.resyncs + 1,
               s.log + [Deadline(0), Reset(RoundUp(t.frame)), ProducerSeed(t.seed)])
    else s
  }

  /** At most `budget` further blocks. */
  function Filled(s: State, frame: nat, budget: nat): State
    decreases budget
  {
    if budget > 0 && s.nextFrame < frame + LEAD
    then Filled(s.(nextFrame := s.nextFrame + BLOCK, blocks := s.blocks + 1, log := s.log + [Block(s.nextFrame)]),
                frame, budget - 1)
    else s
  }

  function After(s: State, t: Tick): State {
    match t
    case Stopped => s.(log := s.log + [Deadline(0)])
    case Live(_, frame, lease) =>
      var filled := Filled(Synchronised(s, t), frame, MAX_BLOCKS);
      filled.(log := filled.log + [Deadline(lease)])
  }

  /** The state after a whole sequence of ticks. */
  function Run(ticks: seq<Tick>): State {
    if ticks == [] then START else After(Run(ticks[..|ticks| - 1]), ticks[|ticks| - 1])
  }

  // ------------------------------------------------------------------ the lead

  /** Writing n whole blocks. */
  ghost function Ahead(s: State, n: nat): State {
    if n == 0 then s
    else var p := Ahead(s, n - 1);
         State(p.seed, p.nextFrame + BLOCK, p.blocks + 1, p.resyncs, p.log + [Block(p.nextFrame)])
  }

  ghost function BlocksNeeded(next: nat, frame: nat): nat {
    if next >= frame + LEAD then 0 else (frame + LEAD - next + 479) / 480
  }

  lemma {:induction false} FilledWrites(s: State, frame: nat, budget: nat)
    requires BlocksNeeded(s.nextFrame, frame) <= budget
    ensures Filled(s, frame, budget) == Ahead(s, BlocksNeeded(s.nextFrame, frame))
    decreases budget
  {
    if s.nextFrame < frame + LEAD {
      var one := Ahead(s, 1);
      var n := BlocksNeeded(s.nextFrame, frame);
      assert one == s.(nextFrame := s.nextFrame + BLOCK, blocks := s.blocks + 1,
                       log := s.log + [Block(s.nextFrame)]) by {
        assert Ahead(s, 0) == s;
      }
      assert n >= 1 && BlocksNeeded(one.nextFrame, frame) == n - 1;
      FilledWrites(one, frame, budget - 1);
      AheadShift(s, n - 1);
    }
  }

  lemma {:induction false} AheadShift(s: State, n: nat)
    ensures Ahead(Ahead(s, 1), n) == Ahead(s, n + 1)
  {
    if n > 0 {
      AheadShift(s, n - 1);
    }
  }

  lemma {:induction false} AheadCounts(s: State, n: nat)
    ensures Ahead(s, n).nextFrame == s.nextFrame + n * BLOCK
    ensures Ahead(s, n).blocks == s.blocks + n
    ensures Ahead(s, n).seed == s.seed && Ahead(s, n).resyncs == s.resyncs
    ensures s.nextFrame % BLOCK == 0 ==> Ahead(s, n).nextFrame % BLOCK == 0
  {
    if n > 0 {
      AheadCounts(s, n - 1);
    }
  }

  /** One live tick: the lead is restored, three blocks are always enough (so the
      cap of four never binds), and no more is written than the lead needs. */
  lemma {:induction false} LiveTick(s: State, t: Tick)
    requires s.nextFrame % BLOCK == 0 && t.Live?
    ensures var next := After(s, t).nextFrame;
            && next % BLOCK == 0
            && t.frame + LEAD <= next <= t.frame + LIMIT
            && (LostSync(s, t) || s.nextFrame <= t.frame + LEAD + BLOCK - 1 ==> next <= t.frame + LEAD + BLOCK - 1)
            && (!LostSync(s, t) ==> next >= s.nextFrame)
    ensures After(s, t).seed == t.seed
    ensures s.blocks <= After(s, t).blocks <= s.blocks + 3
    ensures After(s, t).nextFrame
         == (if LostSync(s, t) then RoundUp(t.frame) else s.nextFrame) + BLOCK * (After(s, t).blocks - s.blocks)
    ensures After(s, t).resyncs == s.resyncs + (if LostSync(s, t) then 1 else 0)
  {
    var u := Synchronised(s, t);
    var n := BlocksNeeded(u.nextFrame, t.frame);
    assert t.frame <= u.nextFrame && n <= 3;
    FilledWrites(u, t.frame, MAX_BLOCKS);
    AheadCounts(u, n);
  }

  /** The last live tick of a sequence, if there was one. */
  ghost function LastLive(ticks: seq<Tick>): (r: Tick) {
    if ticks == [] then Stopped
    else if ticks[|ticks| - 1].Live? then ticks[|ticks| - 1]
    else LastLive(ticks[..|ticks| - 1])
  }

  /** The clock never goes backwards under one seed. */
  ghost predicate Forward(ticks: seq<Tick>) {
    ticks != [] ==>
      var before, t := ticks[..|ticks| - 1], ticks[|ticks| - 1];
      && Forward(before)
      && (t.Live? && LastLive(before).Live? && LastLive(before).seed == t.seed ==> LastLive(before).frame <= t.frame)
  }

  /** The lead after any sequence of ticks, relative to the last live one. */
  lemma {:induction false} LeadHolds(ticks: seq<Tick>)
    ensures Run(ticks).nextFrame % BLOCK == 0
    ensures LastLive(ticks).Live? ==>
              && Run(ticks).seed == LastLive(ticks).seed
              && LastLive(ticks).frame + LEAD <= Run(ticks).nextFrame <= LastLive(ticks).frame + LIMIT
    ensures LastLive(ticks).Live? && Forward(ticks) ==> Run(ticks).nextFrame <= LastLive(ticks).frame + LEAD + BLOCK - 1
    ensures LastLive(ticks).Stopped? ==> Run(ticks).nextFrame == 0 && Run(ticks).seed == 0
  {
    if ticks != [] {
      var before, t := ticks[..|ticks| - 1], ticks[|ticks| - 1];
      LeadHolds(before);
      if t.Live? {
        LiveTick(Run(before), t);
      }
    }
  }

  /** While the clock moves at most 1440 frames between live ticks under one seed,
      and not backwards, there is no resynchronisation. */
  lemma {:induction false} NoNeedlessResync(ticks: seq<Tick>, t: Tick)
    requires LastLive(ticks).Live? && t.Live? && t.seed == LastLive(ticks).seed
    requires LastLive(ticks).frame <= t.frame <= LastLive(ticks).frame + LEAD
    ensures Run(ticks + [t]).resyncs == Run(ticks).resyncs
  {
    LeadHolds(ticks);
    LiveTick(Run(ticks), t);
    assert (ticks + [t])[..|ticks|] == ticks;
  }

  /** The bound is the best possible: one frame more may cost a resynchronisation. */
  lemma ResyncBeyondTheLead()
    ensures Run([Live(1, 0, 1)]).resyncs == 1 && Run([Live(1, 0, 1), Live(1, LEAD + 1, 1)]).resyncs == 2
  {
    var first, second := Live(1, 0, 1), Live(1, LEAD + 1, 1);
    assert [first][..0] == [];
    assert [first, second][..1] == [first];
    LiveTick(START, first);
    var s := After(START, first);
    assert Run([first]) == s;
    FilledWrites(Synchronised(START, first), 0, MAX_BLOCKS);
    AheadCounts(Synchronised(START, first), 3);
    assert s.nextFrame == LEAD;
    LiveTick(s, second);
  }

  /** A clock that outran the lead, or fell behind it by more than the limit, or
      changed its seed, always causes exactly one resynchronisation. */
  lemma {:induction false} ResyncExactly(ticks: seq<Tick>, t: Tick)
    requires t.Live?
    ensures Run(ticks + [t]).resyncs == Run(ticks).resyncs + (if LostSync(Run(ticks), t) then 1 else 0)
    ensures LastLive(ticks).Live? && t.frame > LastLive(ticks).frame + LIMIT ==> LostSync(Run(ticks), t)
  {
    LeadHolds(ticks);
    LiveTick(Run(ticks), t);
    assert (ticks + [t])[..|ticks|] == ticks;
  }

  // ------------------------------------------------- what the driver can rely on

  /** A reader of the shared memory replays the log: `open` is a non-zero deadline,
      `armed` that the producer seed was stored since the last reset, and the
      buffer covers [from, upTo). `sound` is lost for good by a block that does not
      continue the coverage, a reset under an open deadline or an early opening.
      The driver hands the memory over zeroed, with an initialised buffer. */
  datatype Gate = Gate(open: bool, armed: bool, seed: nat, from: nat, upTo: nat, sound: bool)

  ghost function Observe(g: Gate, e: Event): Gate {
    match e
    case Deadline(v) => g.(open := v != 0, sound := g.sound && (v != 0 ==> g.armed))
    case Reset(at) => g.(armed := false, from := at, upTo := at, sound := g.sound && !g.open)
    case ProducerSeed(v) => g.(armed := true, seed := v, sound := g.sound && !g.open)
    case Block(at) => g.(upTo := at + BLOCK, sound := g.sound && g.armed && at == g.upTo)
  }

  ghost function Replay(log: seq<Event>): Gate {
    if log == [] then Gate(false, true, 0, 0, 0, true)
    else Observe(Replay(log[..|log| - 1]), log[|log| - 1])
  }

  lemma {:induction false} ReplayOne(log: seq<Event>, e: Event)
    ensures Replay(log + [e]) == Observe(Replay(log), e)
  {
    assert (log + [e])[..|log|] == log;
  }

  ghost predicate Consistent(s: State) {
    var g := Replay(s.log);
    g.sound && g.armed && g.upTo == s.nextFrame && g.seed == s.seed
  }

  lemma {:induction false} FilledConsistent(s: State, frame: nat, budget: nat)
    requires Consistent(s)
    ensures Consistent(Filled(s, frame, budget))
    ensures Replay(Filled(s, frame, budget).log) == Replay(s.log).(upTo := Filled(s, frame, budget).nextFrame)
    decreases budget
  {
    if budget > 0 && s.nextFrame < frame + LEAD {
      ReplayOne(s.log, Block(s.nextFrame));
      FilledConsistent(s.(nextFrame := s.nextFrame + BLOCK, blocks := s.blocks + 1,
                          log := s.log + [Block(s.nextFrame)]),
                       frame, budget - 1);
    }
  }

  lemma {:induction false} SynchronisedConsistent(s: State, t: Tick)
    requires Consistent(s) && t.Live?
    ensures Consistent(Synchronised(s, t))
    ensures LostSync(s, t) ==> Replay(Synchronised(s, t).log).from == RoundUp(t.frame)
  {
    if LostSync(s, t) {
      var a := s.log + [Deadline(0)];
      var b := a + [Reset(RoundUp(t.frame))];
      ReplayOne(s.log, Deadline(0));
      ReplayOne(a, Reset(RoundUp(t.frame)));
      ReplayOne(b, ProducerSeed(t.seed));
      assert Synchronised(s, t).log == b + [ProducerSeed(t.seed)];
    }
  }

  /** Over every run: blocks tile the buffer from the last reset to nextFrame without
      gap or overlap, the buffer is reset only while the deadline is closed, and a
      deadline opens only over a buffer whose seed has been announced. */
  lemma {:induction false} GateIsSound(ticks: seq<Tick>)
    ensures Consistent(Run(ticks))
    ensures LastLive(ticks).Live? ==>
              && Replay(Run(ticks).log).seed == LastLive(ticks).seed
              && Replay(Run(ticks).log).upTo >= LastLive(ticks).frame + LEAD
  {
    if ticks != [] {
      var before, t := ticks[..|ticks| - 1], ticks[|ticks| - 1];
      GateIsSound(before);
      LeadHolds(ticks);
      var s := Run(before);
      match t {
        case Stopped => ReplayOne(s.log, Deadline(0));
        case Live(_, frame, lease) =>
          var u := Synchronised(s, t);
          SynchronisedConsistent(s, t);
          FilledConsistent(u, frame, MAX_BLOCKS);
          ReplayOne(Filled(u, frame, MAX_BLOCKS).log, Deadline(lease));
      }
    }
  }

  lemma {:induction false} FilledLog(s: State, frame: nat, budget: nat)
    ensures var t := Filled(s, frame, budget);
            && s.log <= t.log && forall k | |s.log| <= k < |t.log| :: t.log[k].Block?
    decreases budget
  {
    if budget > 0 && s.nextFrame < frame + LEAD {
      FilledLog(s.(nextFrame := s.nextFrame + BLOCK, blocks := s.blocks + 1, log := s.log + [Block(s.nextFrame)]),
                frame, budget - 1);
    }
  }

  /** A live tick opens the deadline once, as the last thing it does, when the buffer
      holds the whole lead and the clock's seed is announced. While the clock does not go
      backwards the buffer then holds everything from the clock's next block on. */
  lemma {:induction false} OpensOverTheLead(ticks: seq<Tick>, t: Tick)
    requires t.Live?
    ensures var before, log := Run(ticks).log, Run(ticks + [t]).log;
            var last := |log| - 1;
            && |before| <= last && before <= log && log[last] == Deadline(t.lease)
            && (forall k | |before| <= k < last && log[k].Deadline? :: log[k].value == 0)
            && var g := Replay(log[..last]);
               g.armed && g.seed == t.seed && g.upTo >= t.frame + LEAD
               && (Forward(ticks + [t]) ==> g.from <= RoundUp(t.frame))
  {
    var s := Run(ticks);
    assert (ticks + [t])[..|ticks|] == ticks;
    var u := Synchronised(s, t);
    var f := Filled(u, t.frame, MAX_BLOCKS);
    assert Run(ticks + [t]).log == f.log + [Deadline(t.lease)];
    assert Run(ticks + [t]).log[..|f.log|] == f.log;
    GateIsSound(ticks);
    SynchronisedConsistent(s, t);
    FilledConsistent(u, t.frame, MAX_BLOCKS);
    FilledLog(u, t.frame, MAX_BLOCKS);
    LeadHolds(ticks);
    LiveTick(s, t);
    hide Run, Replay, Synchronised, Filled;
    if Forward(ticks + [t]) && !LostSync(s, t) {
      CoveredFrom(ticks);
      RoundedUp(LastLive(ticks), t);
    }
  }

  lemma {:induction false} RoundedUp(before: Tick, t: Tick)
    ensures before.Live? && t.Live? && before.frame <= t.frame ==> RoundUp(before.frame) <= RoundUp(t.frame)
  {
  }

  /** What was last reset to is no later than the clock's next block. */
  lemma {:induction false} CoveredFrom(ticks: seq<Tick>)
    requires Forward(ticks)
    ensures var g := Replay(Run(ticks).log);
            g.from <= if LastLive(ticks).Live? then RoundUp(LastLive(ticks).frame) else 0
  {
    if ticks != [] {
      var before, t := ticks[..|ticks| - 1], ticks[|ticks| - 1];
      CoveredFrom(before);
      GateIsSound(before);
      LeadHolds(before);
      var s := Run(before);
      match t {
        case Stopped => ReplayOne(s.log, Deadline(0));
        case Live(_, frame, lease) =>
          var u := Synchronised(s, t);
          SynchronisedConsistent(s, t);
          FilledConsistent(u, frame, MAX_BLOCKS);
          ReplayOne(Filled(u, frame, MAX_BLOCKS).log, Deadline(lease));
          RoundedUp(LastLive(before), t);
      }
    }
  }

  /** The deadline is open exactly after a live tick with a lease; a tick with a stopped
      clock does nothing but close it. */
  lemma {:induction false} OpenExactly(ticks: seq<Tick>)
    ensures Replay(Run(ticks).log).open <==> ticks != [] && ticks[|ticks| - 1].Live? && ticks[|ticks| - 1].lease != 0
    ensures ticks != [] && ticks[|ticks| - 1].Stopped? ==>
              var s := Run(ticks[..|ticks| - 1]);
              Run(ticks) == State(s.seed, s.nextFrame, s.blocks, s.resyncs, s.log + [Deadline(0)])
  {
    if ticks != [] {
      var s := Run(ticks[..|ticks| - 1]);
      match ticks[|ticks| - 1] {
        case Stopped => ReplayOne(s.log, Deadline(0));
        case Live(_, frame, lease) =>
          ReplayOne(Filled(Synchronised(s, ticks[|ticks| - 1]), frame, MAX_BLOCKS).log, Deadline(lease));
      }
    }
  }

  /** Soundness of a log is soundness at every moment of it. */
  lemma {:induction false} SoundThroughout(log: seq<Event>, k: nat)
    requires Replay(log).sound && k <= |log|
    ensures Replay(log[..k]).sound
    decreases |log|
  {
    if k < |log| {
      SoundThroughout(log[..|log| - 1], k);
      assert log[..|log| - 1][..k] == log[..k];
    } else {
      assert log[..k] == log;
    }
  }

  // ------------------------------------------------------------- the tick handler

  class Source {
    var seed: nat
    var nextFrame: nat
    var blocks: nat
    var resyncs: nat
    var deadline: nat
    var producerSeed: nat
    ghost var log: seq<Event>

    ghost function View(): State
      reads this
    {
      State(seed, nextFrame, blocks, resyncs, log)
    }

    constructor ()
      ensures View() == START
    {
      seed, nextFrame, blocks, resyncs, deadline, producerSeed := 0, 0, 0, 0, 0, 0;
      log := [];
    }

    method SetDeadline(value: nat)
      modifies this`deadline, this`log
      ensures deadline == value && log == old(log) + [Deadline(value)]
    {
      deadline := value;
      log := log + [Deadline(value)];
    }

    /** At most four 10 ms blocks. */
    method FillLead(frame: nat)
      modifies this`nextFrame, this`blocks, this`log
      ensures View() == Filled(old(View()), frame, 4)
    {
      var n := 0;
      while n < 4 && nextFrame < frame + 1440
        invariant n <= 4
        invariant Filled(View(), frame, 4 - n) == Filled(old(View()), frame, 4)
      {
        log := log + [Block(nextFrame)];
        nextFrame := nextFrame + 480;
        blocks := blocks + 1;
        n := n + 1;
      }
    }

    /** `frame` is the whole number of clock frames since the anchor, `lease` the
        half-second deadline; both come from a floating-point tick rate. */
    method OnTick(running: bool, anchor: nat, clockSeed: nat, now: nat, frame: nat, lease: nat)
      modifies this
      ensures View() == After(old(View()), if running && anchor != 0 && now >= anchor then Live(clockSeed, frame, lease)
                                          else Stopped)
      ensures deadline == if running && anchor != 0 && now >= anchor then lease else 0
    {
      if !running || anchor == 0 || now < anchor {
        SetDeadline(0);
        return;
      }
      ghost var t := Live(clockSeed, frame, lease);
      if seed != clockSeed || nextFrame < frame || nextFrame > frame + 2400 {
        SetDeadline(0);
        seed := clockSeed;
        nextFrame := (frame + 479) / 480 * 480;
        log := log + [Reset(nextFrame)];
        producerSeed := seed;
        log := log + [ProducerSeed(seed)];
        resyncs := resyncs + 1;
      }
      assert View() == Synchronised(old(View()), t);
      FillLead(frame);
      SetDeadline(lease);
    }
  }
}
