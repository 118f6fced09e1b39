/** Input pacing on an absolute clock, and the matching of decoder outputs to the
    stamps of their inputs, in plank-probe-client-kms and plank-probe-client-pipeline.
    Times are nanoseconds in 64-bit words. */
module Pacing {
  import opened Transitions
  import opened Wrappers

  const WORDS: nat := 0x1_0000_0000_0000_0000

  function Wrap(x: int): (w: nat)
    ensures w < WORDS && (0 <= x < WORDS ==> w == x)
  {
    if 0 <= x < WORDS then x else x % WORDS
  }

  // ------------------------------------------------------------- catching up

  /** What pacing decides for one input: the shifted epoch, the target and the time
      to wake up. */
  datatype Plan = Plan(epoch: nat, target: nat, wake: nat)

  function CatchUp(epoch: nat, index: nat, refresh: nat, lead: nat, now: nat): Plan
    requires refresh > 0
  {
    var target := Wrap(epoch + Wrap(index * refresh));
    var wake := Wrap(target - lead);
    if wake > now then Plan(epoch, target, wake)
    else
      var shift := Wrap(((now - wake) / refresh + 1) * refresh);
      Plan(Wrap(epoch + shift), Wrap(target + shift), Wrap(wake + shift))
  }

  /** No word overflows or underflows. */
  ghost predicate InRange(epoch: nat, index: nat, refresh: nat, lead: nat, now: nat) {
    && refresh > 0 && lead <= epoch + index * refresh < WORDS
    && now + refresh + lead < WORDS
  }

  /** The least number of periods that puts the wake-up into the future. */
  ghost predicate LeastShift(periods: nat, wake: int, refresh: nat, now: nat) {
    && wake + periods * refresh > now
    && forall fewer: nat | fewer < periods :: wake + fewer * refresh <= now
  }

  lemma {:induction false} Periods(late: nat, refresh: nat)
    requires refresh > 0
    ensures late < (late / refresh + 1) * refresh <= late + refresh
    ensures forall fewer: nat | fewer < late / refresh + 1 :: fewer * refresh <= late
  {
    var q := late / refresh;
    assert late == q * refresh + late % refresh;
    forall fewer: nat | fewer < q + 1 ensures fewer * refresh <= late {
      assert fewer * refresh <= q * refresh;
    }
  }

  /** An input that is late wakes up in (now, now + refresh], shifted by the least
      number of whole periods; target and epoch move with it, so that later targets
      keep the phase. An input that is not late is left alone. */
  lemma {:induction false} CatchesUp(epoch: nat, index: nat, refresh: nat, lead: nat, now: nat) returns (periods: nat)
    requires InRange(epoch, index, refresh, lead, now)
    ensures var p := CatchUp(epoch, index, refresh, lead, now);
            var wake := epoch + index * refresh - lead;
            && p == Plan(epoch + periods * refresh, epoch + periods * refresh + index * refresh,
                         wake + periods * refresh)
            && p.wake > now && p.wake == p.target - lead
            && LeastShift(periods, wake, refresh, now)
            && (wake <= now ==> p.wake <= now + refresh) && (wake > now ==> periods == 0)
  {
    hide CatchUp, LeastShift;
    var wake := epoch + index * refresh - lead;
    if wake > now {
      periods := 0;
      OnTime(wake, refresh, now);
      Punctual(epoch, index, refresh, lead, now);
    } else {
      periods := (now - wake) / refresh + 1;
      Periods(now - wake, refresh);
      Least(now - wake, wake, refresh, now, periods);
      Late(epoch, index, refresh, lead, now, periods);
    }
  }

  lemma {:induction false} Punctual(epoch: nat, index: nat, refresh: nat, lead: nat, now: nat)
    requires InRange(epoch, index, refresh, lead, now) && epoch + index * refresh - lead > now
    ensures CatchUp(epoch, index, refresh, lead, now)
            == Plan(epoch, epoch + index * refresh, epoch + index * refresh - lead)
  {
    Product(index, refresh);
  }

  lemma {:induction false} Late(epoch: nat, index: nat, refresh: nat, lead: nat, now: nat, periods: nat)
    requires InRange(epoch, index, refresh, lead, now) && epoch + index * refresh - lead <= now
    requires periods == (now - (epoch + index * refresh - lead)) / refresh + 1
    ensures CatchUp(epoch, index, refresh, lead, now)
            == Plan(epoch + periods * refresh, epoch + periods * refresh + index * refresh,
                    epoch + index * refresh - lead + periods * refresh)
  {
    var wake := epoch + index * refresh - lead;
    Product(index, refresh);
    Periods(now - wake, refresh);
    hide CatchUp;
    Shift(epoch, index * refresh, lead, now, refresh, periods * refresh);
    LatePlan(epoch, index, refresh, lead, now, periods);
    hide Wrap;
  }

  lemma {:induction false} OnTime(wake: int, refresh: nat, now: nat)
    requires wake > now
    ensures LeastShift(0, wake, refresh, now) && 0 * refresh == 0
  {
  }

  lemma {:induction false} LatePlan(epoch: nat, index: nat, refresh: nat, lead: nat, now: nat, periods: nat)
    requires refresh > 0 && index * refresh >= 0
    requires Wrap(Wrap(epoch + Wrap(index * refresh)) - lead) <= now
    requires periods == (now - Wrap(Wrap(epoch + Wrap(index * refresh)) - lead)) / refresh + 1
    ensures var shift := Wrap(periods * refresh);
            CatchUp(epoch, index, refresh, lead, now)
            == Plan(Wrap(epoch + shift), Wrap(Wrap(epoch + Wrap(index * refresh)) + shift),
                    Wrap(Wrap(Wrap(epoch + Wrap(index * refresh)) - lead) + shift))
  {
    hide Wrap;
  }

  lemma {:induction false} Shift(epoch: nat, ahead: nat, lead: nat, now: nat, refresh: nat, shift: nat)
    requires lead <= epoch + ahead < WORDS && now + refresh + lead < WORDS
    requires var wake := epoch + ahead - lead; now - wake < shift <= now - wake + refresh && wake <= now
    ensures Wrap(ahead) == ahead && Wrap(shift) == shift && Wrap(epoch + shift) == epoch + shift
    ensures Wrap(epoch + ahead) == epoch + ahead && Wrap(epoch + ahead - lead) == epoch + ahead - lead
    ensures Wrap(epoch + ahead + shift) == epoch + ahead + shift
    ensures Wrap(epoch + ahead - lead + shift) == epoch + ahead - lead + shift
  {
  }

  lemma {:induction false} Product(a: nat, b: nat)
    ensures a * b >= 0
  {
  }

  lemma {:induction false} Least(late: nat, wake: int, refresh: nat, now: nat, periods: nat)
    requires refresh > 0 && late == now - wake && periods * refresh > late
    requires forall fewer: nat | fewer < periods :: fewer * refresh <= late
    ensures LeastShift(periods, wake, refresh, now)
  {
  }

  /** The wake-up time is the lead before the target exactly when the first target is
      no earlier than the lead; otherwise the subtraction wraps and the sleep is over
      only when the 64-bit clock is. */
  lemma {:induction false} Underflow(epoch: nat, index: nat, refresh: nat, lead: nat, now: nat)
    requires refresh > 0 && epoch + index * refresh < WORDS && now + refresh + lead < WORDS
    ensures var p := CatchUp(epoch, index, refresh, lead, now);
            && (p.wake == p.target - lead <==> lead <= epoch + index * refresh)
            && (lead > epoch + index * refresh ==> p.wake >= WORDS - lead)
  {
    assert 0 <= index * refresh;
    if lead <= epoch + index * refresh {
      var periods := CatchesUp(epoch, index, refresh, lead, now);
    } else {
      WrapNegative(epoch + index * refresh - lead);
    }
  }

  /** The epochs of the two probes: the pacing of their first input is sound if and only
      if the lead fits before the event the epoch is computed from. */
  lemma {:induction false} EpochUnderflow(event: nat, periods: nat, refresh: nat, lead: nat, now: nat)
    requires refresh > 0 && event + periods * refresh < WORDS && now + refresh + lead < WORDS
    ensures var p := CatchUp(Wrap(event + Wrap(periods * refresh)), 0, refresh, lead, now);
            p.wake == p.target - lead <==> lead <= event + periods * refresh
  {
    hide CatchUp;
    Product(periods, refresh);
    assert 0 * refresh == 0;
    Underflow(event + periods * refresh, 0, refresh, lead, now);
  }

  lemma {:induction false} WrapNegative(x: int)
    requires x < 0 && x + WORDS >= 0
    ensures Wrap(x) == WORDS + x
  {
  }

  // --------------------------------------------------------------- schedules

  /** The targets of inputs index, index + 1, ... of one epoch, paced at these times. */
  ghost function Targets(epoch: nat, index: nat, refresh: nat, lead: nat, nows: seq<nat>): seq<nat>
    requires refresh > 0
    decreases |nows|
  {
    if nows == [] then []
    else
      var p := CatchUp(epoch, index, refresh, lead, nows[0]);
      [p.target] + Targets(p.epoch, index + 1, refresh, lead, nows[1..])
  }

  /** Every input of the schedule is in range. */
  ghost predicate InRangeAll(epoch: nat, index: nat, refresh: nat, lead: nat, nows: seq<nat>)
    decreases |nows|
  {
    refresh > 0 && (nows != [] ==>
      && InRange(epoch, index, refresh, lead, nows[0])
      && InRangeAll(CatchUp(epoch, index, refresh, lead, nows[0]).epoch, index + 1, refresh, lead, nows[1..]))
  }

  /** a comes after b by at least `least` whole periods. */
  ghost predicate Ahead(a: nat, b: nat, refresh: nat, least: nat) {
    exists periods: nat :: periods >= least && a == b + periods * refresh
  }

  lemma {:induction false} AheadMore(a: nat, b: nat, c: nat, refresh: nat, m: nat, n: nat)
    requires Ahead(a, b, refresh, m) && Ahead(b, c, refresh, n)
    ensures Ahead(a, c, refresh, m + n)
  {
    var p: nat :| p >= m && a == b + p * refresh;
    var q: nat :| q >= n && b == c + q * refresh;
    assert (p + q) * refresh == p * refresh + q * refresh;
    assert a == c + (p + q) * refresh;
  }

  lemma {:induction false} FirstTarget(epoch: nat, index: nat, refresh: nat, lead: nat, now: nat)
    requires InRange(epoch, index, refresh, lead, now)
    ensures var p := CatchUp(epoch, index, refresh, lead, now);
            Ahead(p.target, epoch + index * refresh, refresh, 0) && p.target == p.epoch + index * refresh
  {
    hide CatchUp, LeastShift;
    var periods := CatchesUp(epoch, index, refresh, lead, now);
    assert CatchUp(epoch, index, refresh, lead, now).target == epoch + index * refresh + periods * refresh;
  }

  lemma {:induction false} TargetAhead(epoch: nat, index: nat, refresh: nat, lead: nat, nows: seq<nat>, i: nat)
    requires InRangeAll(epoch, index, refresh, lead, nows) && i < |nows|
    ensures |Targets(epoch, index, refresh, lead, nows)| == |nows|
    ensures Ahead(Targets(epoch, index, refresh, lead, nows)[i], epoch + index * refresh, refresh, i)
    decreases |nows|
  {
    var p := CatchUp(epoch, index, refresh, lead, nows[0]);
    FirstTarget(epoch, index, refresh, lead, nows[0]);
    if |nows| > 1 {
      TargetAhead(p.epoch, index + 1, refresh, lead, nows[1..], if i > 0 then i - 1 else 0);
    }
    if i > 0 {
      var t := Targets(p.epoch, index + 1, refresh, lead, nows[1..])[i - 1];
      assert p.epoch + (index + 1) * refresh == p.target + 1 * refresh;
      hide CatchUp, Targets;
      assert Ahead(p.epoch + (index + 1) * refresh, p.target, refresh, 1);
      AheadMore(t, p.epoch + (index + 1) * refresh, p.target, refresh, i - 1, 1);
      AheadMore(t, p.target, epoch + index * refresh, refresh, i, 0);
    }
  }

  lemma {:induction false} PhaseKept(epoch: nat, index: nat, refresh: nat, lead: nat, nows: seq<nat>, i: nat, j: nat)
    requires InRangeAll(epoch, index, refresh, lead, nows) && i < j < |nows|
    ensures |Targets(epoch, index, refresh, lead, nows)| == |nows|
    ensures var t := Targets(epoch, index, refresh, lead, nows);
            Ahead(t[j], t[i], refresh, j - i) && Ahead(t[i], epoch, refresh, index + i)
    decreases |nows|
  {
    var p := CatchUp(epoch, index, refresh, lead, nows[0]);
    TargetAhead(epoch, index, refresh, lead, nows, i);
    assert Ahead(epoch + index * refresh, epoch, refresh, index);
    AheadMore(Targets(epoch, index, refresh, lead, nows)[i], epoch + index * refresh, epoch, refresh, i, index);
    FirstTarget(epoch, index, refresh, lead, nows[0]);
    if i > 0 {
      PhaseKept(p.epoch, index + 1, refresh, lead, nows[1..], i - 1, j - 1);
    } else {
      TargetAhead(p.epoch, index + 1, refresh, lead, nows[1..], j - 1);
      var t := Targets(p.epoch, index + 1, refresh, lead, nows[1..])[j - 1];
      assert p.epoch + (index + 1) * refresh == p.target + 1 * refresh;
      hide CatchUp, Targets;
      assert Ahead(p.epoch + (index + 1) * refresh, p.target, refresh, 1);
      AheadMore(t, p.epoch + (index + 1) * refresh, p.target, refresh, j - 1, 1);
    }
  }

  /** What a caller can check beforehand: the first target is not earlier than the lead,
      no time exceeds `cap`, and behind it there is room for one period per input. */
  ghost predicate Bounded(epoch: nat, index: nat, refresh: nat, lead: nat, nows: seq<nat>, cap: nat) {
    && refresh > 0 && lead <= epoch + index * refresh <= cap
    && (forall k | 0 <= k < |nows| :: nows[k] + refresh + lead <= cap)
    && cap + |nows| * refresh < WORDS
  }

  lemma {:induction false} BoundedStep(epoch: nat, index: nat, refresh: nat, lead: nat, now: nat, cap: nat)
    requires refresh > 0 && lead <= epoch + index * refresh <= cap && now + refresh + lead <= cap < WORDS
    ensures InRange(epoch, index, refresh, lead, now)
    ensures var next := CatchUp(epoch, index, refresh, lead, now).epoch + (index + 1) * refresh;
            lead <= next <= cap + refresh
  {
    hide CatchUp, LeastShift;
    var periods := CatchesUp(epoch, index, refresh, lead, now);
    Product(periods, refresh);
    NextMultiple(index, refresh);
  }

  lemma {:induction false} NextMultiple(n: nat, refresh: nat)
    ensures (n + 1) * refresh == n * refresh + refresh
  {
  }

  lemma {:induction false} BoundedIsInRange(epoch: nat, index: nat, refresh: nat, lead: nat, nows: seq<nat>, cap: nat)
    requires Bounded(epoch, index, refresh, lead, nows, cap)
    ensures InRangeAll(epoch, index, refresh, lead, nows)
    decreases |nows|
  {
    if nows != [] {
      var rest := nows[1..];
      assert nows[0] + refresh + lead <= cap;
      Product(|rest|, refresh);
      assert |nows| * refresh == |rest| * refresh + refresh;
      BoundedStep(epoch, index, refresh, lead, nows[0], cap);
      hide CatchUp, InRange;
      BoundedIsInRange(CatchUp(epoch, index, refresh, lead, nows[0]).epoch, index + 1, refresh, lead, rest,
                       cap + refresh);
    }
  }

  /** Within one epoch any two targets are a whole number of refresh periods apart, at
      least one for each input between them, whatever the clock said and however late
      the inputs were: the targets keep the epoch's phase and never coincide. */
  lemma {:induction false} TargetsKeepPhase(epoch: nat, index: nat, refresh: nat, lead: nat, nows: seq<nat>,
                                            cap: nat, i: nat, j: nat)
    requires Bounded(epoch, index, refresh, lead, nows, cap) && i < j < |nows|
    ensures |Targets(epoch, index, refresh, lead, nows)| == |nows|
    ensures var t := Targets(epoch, index, refresh, lead, nows);
            Ahead(t[j], t[i], refresh, j - i) && Ahead(t[i], epoch, refresh, index + i)
  {
    BoundedIsInRange(epoch, index, refresh, lead, nows, cap);
    PhaseKept(epoch, index, refresh, lead, nows, i, j);
  }

  // ------------------------------------------------------- inputs of the decoder

  /** GST_SECOND times (frame - 1) over 60, rounded down. */
  function Pts(frame: nat): nat
    requires frame > 0
  {
    (frame - 1) * 1_000_000_000 / 60
  }

  /** Synthetic timestamps are strictly increasing, so they identify the frame. */
  lemma {:induction false} PtsIncreasing(f: nat, g: nat)
    requires 0 < f && 0 < g
    ensures f < g <==> Pts(f) < Pts(g)
    ensures f == g <==> Pts(f) == Pts(g)
  {
  }

  /** They start at zero, 60 frames take one second, and no two neighbours are further
      apart than others by more than the rounding. */
  lemma {:induction false} PtsSpacing(f: nat)
    requires f > 0
    ensures Pts(1) == 0 && Pts(f + 60) == Pts(f) + 1_000_000_000
    ensures 16_666_666 <= Pts(f + 1) - Pts(f) <= 16_666_667
  {
  }

  datatype Stamp = Stamp(frame: nat, time: nat, target: nat, pts: nat)

  datatype Config = Config(refresh: nat, submitLead: nat)

  const FIRST_LEAD: nat := 12_000_000
  const DEFAULT_LEAD: nat := 6_000_000

  /** The parts of the probe's state that inputs, outputs and the display change. */
  datatype State = State(submitted: nat, firstTarget: nat, steadyTarget: nat, phaseReady: bool, steadyReady: bool,
                         failed: bool, queue: seq<Stamp>)

  const START := State(0, 0, 0, false, false, false, [])

  /** An input: whether its buffer can be written, the clock before pacing, whether the
      sleep worked and the clock behind it. */
  datatype Arrival = Arrival(writable: bool, now: nat, slept: bool, time: nat)

  /** An input waits until its phase is ready or the probe has failed. */
  predicate Ready(s: State, a: Arrival) {
    || !a.writable || s.submitted == 0 || s.failed
    || (if s.submitted == 1 then s.phaseReady else s.steadyReady)
  }

  /** Frame 2 is paced on the first epoch with a lead of at least 12 ms, the frames
      behind it on the steady epoch. */
  function EpochOf(s: State, frame: nat): nat {
    if frame == 2 then s.firstTarget else s.steadyTarget
  }

  function IndexOf(frame: nat): nat
    requires frame >= 2
  {
    if frame == 2 then 0 else frame - 3
  }

  function LeadOf(c: Config, frame: nat): nat {
    if frame == 2 && c.submitLead <= FIRST_LEAD then FIRST_LEAD else c.submitLead
  }

  function PlanOf(c: Config, s: State, now: nat): Plan
    requires c.refresh > 0 && s.submitted >= 1
  {
    var frame := s.submitted + 1;
    CatchUp(EpochOf(s, frame), IndexOf(frame), c.refresh, LeadOf(c, frame), now)
  }

  /** on_decoder_input of the KMS probe behind its wait. */
  function Enter(c: Config, s: State, a: Arrival): State
    requires c.refresh > 0
  {
    var frame := s.submitted + 1;
    var next := s.(submitted := frame);
    if !a.writable then next.(failed := true)
    else if frame == 1 then next.(queue := s.queue + [Stamp(1, a.time, 0, Pts(1))])
    else if s.failed then next
    else
      var p := PlanOf(c, s, a.now);
      var moved := if frame == 2 then next.(firstTarget := p.epoch) else next.(steadyTarget := p.epoch);
      Slept(moved, a, Stamp(frame, a.time, p.target, Pts(frame)))
  }

  /** What one input does. It is numbered whatever happens, fails the probe exactly if its
      buffer cannot be written or its sleep fails, and is not paced once the probe has
      failed. The first is stamped at once; the second sleeps until at least 12 ms before
      a target on the first epoch, the later ones until the lead before a target on the
      steady epoch, and that target is the first in phase whose wake-up is to come. */
  lemma {:induction false} InputExactly(c: Config, s: State, a: Arrival) returns (periods: nat)
    requires c.refresh > 0
    requires s.submitted >= 1 ==>
               var n := s.submitted + 1; InRange(EpochOf(s, n), IndexOf(n), c.refresh, LeadOf(c, n), a.now)
    ensures var t, n := Enter(c, s, a), s.submitted + 1;
            && t.submitted == n && t.phaseReady == s.phaseReady && t.steadyReady == s.steadyReady
            && (t.failed <==> s.failed || !a.writable || (n >= 2 && !a.slept))
            && (n >= 2 && a.writable && !s.failed ==>
                  var lead := if n == 2 && c.submitLead < 12_000_000 then 12_000_000 else c.submitLead;
                  var first := if n == 2 then s.firstTarget else s.steadyTarget + (n - 3) * c.refresh;
                  && LeastShift(periods, first - lead, c.refresh, a.now)
                  && t.firstTarget == s.firstTarget + (if n == 2 then periods * c.refresh else 0)
                  && t.steadyTarget == s.steadyTarget + (if n > 2 then periods * c.refresh else 0)
                  && var stamp := Stamp(n, a.time, first + periods * c.refresh, Pts(n));
                     t.queue == s.queue + (if a.slept then [stamp] else []))
            && (n >= 2 && (!a.writable || s.failed) ==>
                  t.queue == s.queue && t.firstTarget == s.firstTarget && t.steadyTarget == s.steadyTarget)
            && (n == 1 ==>
                  && t.queue == s.queue + (if a.writable then [Stamp(1, a.time, 0, 0)] else [])
                  && t.firstTarget == s.firstTarget && t.steadyTarget == s.steadyTarget)
  {
    hide CatchUp, LeastShift;
    periods := 0;
    var n := s.submitted + 1;
    if n >= 2 {
      assert 0 * c.refresh == 0;
      periods := CatchesUp(EpochOf(s, n), IndexOf(n), c.refresh, LeadOf(c, n), a.now);
    }
  }

  /** establish_phase, on the event time of the first vertical blank. */
  function Established(c: Config, s: State, event: nat): State {
    s.(firstTarget := Wrap(event + Wrap(120 * c.refresh)), phaseReady := true)
  }

  /** The display of frame 2, flipped at `event`, starts the steady phase. */
  function Flipped(c: Config, s: State, event: nat): State {
    s.(steadyTarget := Wrap(event + c.refresh), steadyReady := true)
  }

  /** The phase of the display: a vertical blank releases frame 2, the flip of frame 2
      releases frame 3, and their targets lie whole periods behind these events, at least
      120 and at least one. */
  lemma {:induction false} InPhaseWithTheDisplay(c: Config, s: State, event: nat, a: Arrival)
    requires c.refresh > 0 && 1 <= s.submitted <= 2 && !s.failed && a.writable && a.slept
    requires var least := if s.submitted == 1 then 120 else 1;
             && LeadOf(c, s.submitted + 1) <= event + least * c.refresh < WORDS
             && a.now + c.refresh + LeadOf(c, s.submitted + 1) < WORDS
    ensures var least := if s.submitted == 1 then 120 else 1;
            var u := if s.submitted == 1 then Established(c, s, event) else Flipped(c, s, event);
            var t := Enter(c, u, a);
            && Ready(u, a) && |t.queue| == |s.queue| + 1
            && Ahead(t.queue[|s.queue|].target, event, c.refresh, least)
  {
    hide CatchUp, LeastShift;
    var n, least := s.submitted + 1, if s.submitted == 1 then 120 else 1;
    var u := if s.submitted == 1 then Established(c, s, event) else Flipped(c, s, event);
    Product(least, c.refresh);
    assert 0 * c.refresh == 0;
    assert EpochOf(u, n) == event + least * c.refresh;
    var periods := CatchesUp(EpochOf(u, n), 0, c.refresh, LeadOf(c, n), a.now);
    assert (least + periods) * c.refresh == least * c.refresh + periods * c.refresh;
    assert PlanOf(c, u, a.now).target == event + (least + periods) * c.refresh;
    assert Ahead(event + (least + periods) * c.refresh, event, c.refresh, least);
  }

  function Slept(s: State, a: Arrival, stamp: Stamp): State {
    if a.slept then s.(queue := s.queue + [stamp]) else s.(failed := true)
  }

  function EnterAll(c: Config, s: State, arrivals: seq<Arrival>): State
    requires c.refresh > 0
    decreases |arrivals|
  {
    if arrivals == [] then s else EnterAll(c, Enter(c, s, arrivals[0]), arrivals[1..])
  }

  function Nows(arrivals: seq<Arrival>): (nows: seq<nat>)
    ensures |nows| == |arrivals|
  {
    if arrivals == [] then [] else [arrivals[0].now] + Nows(arrivals[1..])
  }

  /** From frame 3 on, inputs whose sleeps work are stamped with the targets of the
      steady schedule, one after the other; the epoch moves, the phase does not. */
  lemma {:induction false} SteadyInputs(c: Config, s: State, arrivals: seq<Arrival>, i: nat)
    requires c.refresh > 0 && s.submitted >= 2 && !s.failed && i < |arrivals|
    requires forall a | a in arrivals :: a.slept && a.writable
    ensures var t := EnterAll(c, s, arrivals);
            var targets := Targets(s.steadyTarget, s.submitted - 2, c.refresh, c.submitLead, Nows(arrivals));
            && |targets| == |arrivals| && |t.queue| == |s.queue| + |arrivals|
            && t.queue[..|s.queue|] == s.queue && t.submitted == s.submitted + |arrivals| && !t.failed
            && t.queue[|s.queue| + i]
                == Stamp(s.submitted + 1 + i, arrivals[i].time, targets[i], Pts(s.submitted + 1 + i))
    decreases |arrivals|
  {
    hide CatchUp, Pts;
    var u := Enter(c, s, arrivals[0]);
    assert arrivals[0].slept && arrivals[0].writable;
    assert u.queue[..|s.queue|] == s.queue;
    if |arrivals| > 1 {
      SteadyInputs(c, u, arrivals[1..], if i > 0 then i - 1 else 0);
      var t := EnterAll(c, u, arrivals[1..]);
      assert t.queue[..|u.queue|][..|s.queue|] == t.queue[..|s.queue|];
      assert t.queue[|s.queue|] == t.queue[..|u.queue|][|s.queue|];
    } else {
      assert Nows(arrivals)[1..] == [] && arrivals[1..] == [];
    }
  }

  // ------------------------------------------- whole runs with accepted arguments

  const MAX_LEAD: nat := 16_666_000

  /** The refresh period computed from a mode's frequency, and the lead from an
      argument in microseconds, if there is one. */
  function RefreshOf(hz: real): int
    requires hz > 0.0
  {
    (1_000_000_000.0 / hz + 0.5).Floor
  }

  ghost predicate Arguments(hz: real, leadUs: Option<nat>, c: Config) {
    && 59.0 <= hz <= 61.0 && c.refresh == RefreshOf(hz)
    && (leadUs.Some? ==> 0 < leadUs.value < 16667)
    && c.submitLead == if leadUs.Some? then leadUs.value * 1000 else DEFAULT_LEAD
  }

  predicate Accepted(c: Config) {
    16_393_443 <= c.refresh <= 16_949_153 && c.submitLead <= MAX_LEAD
  }

  lemma {:induction false} ArgumentsAreAccepted(hz: real, leadUs: Option<nat>, c: Config)
    requires Arguments(hz, leadUs, c)
    ensures Accepted(c)
  {
    var period := 1_000_000_000.0 / hz;
    assert period * hz == 1_000_000_000.0;
    Inverse(hz, period, 61.0, 16_393_442.6);
    Inverse(59.0, 16_949_152.6, hz, period);
  }

  /** When a * x is at most b * y and a is at least b, x is at most y. */
  lemma {:induction false} Inverse(a: real, x: real, b: real, y: real)
    requires 0.0 < a <= b && 0.0 < x && 0.0 < y && a * x >= b * y
    ensures x >= y
  {
    assert x < y ==> a * x < a * y;
    assert a * y <= b * y;
  }

  /** The probe together with the stamp of frame 2, once there is one. */
  datatype Paced = Paced(probe: State, second: Option<Stamp>)

  datatype Action = Input(a: Arrival) | Phase(event: nat) | Flip(event: nat) | Consumed(count: nat) | Failure

  /** A sleep that worked is over no earlier than its wake-up time, and the flip of
      frame 2 is refused when it is reported earlier than the frame's submission. No
      clock reading exceeds `cap`. */
  ghost predicate Enabled(c: Config, cap: nat, s: Paced, x: Action)
    requires c.refresh > 0
  {
    match x
    case Input(a) =>
      && Ready(s.probe, a) && a.now <= cap && a.time <= cap
      && (s.probe.submitted >= 1 && a.slept ==> a.time >= PlanOf(c, s.probe, a.now).wake)
    case Phase(event) => !s.probe.phaseReady && event <= cap
    case Flip(event) => !s.probe.steadyReady && s.second.Some? && s.second.value.time <= event <= cap
    case Consumed(count) => count <= |s.probe.queue|
    case Failure => true
  }

  ghost function Apply(c: Config, s: Paced, x: Action): Paced
    requires c.refresh > 0 && (x.Consumed? ==> x.count <= |s.probe.queue|)
  {
    match x
    case Input(a) =>
      var t := Enter(c, s.probe, a);
      Paced(t, if t.submitted == 2 && |t.queue| > |s.probe.queue| then Some(t.queue[|t.queue| - 1]) else s.second)
    case Phase(event) => s.(probe := Established(c, s.probe, event))
    case Flip(event) => s.(probe := Flipped(c, s.probe, event))
    case Consumed(count) => s.(probe := s.probe.(queue := s.probe.queue[count..]))
    case Failure => s.(probe := s.probe.(failed := true))
  }

  ghost predicate Next(c: Config, cap: nat, s: Paced, t: Paced) {
    c.refresh > 0 && exists x: Action :: Enabled(c, cap, s, x) && t == Apply(c, s, x)
  }

  ghost function Runs(c: Config, cap: nat): System<Paced> {
    System(s => s == Paced(START, None), (s, t) => Next(c, cap, s, t))
  }

  /** 64 bits hold the largest clock reading, the longest lead and a period for each
      of n inputs and 122 more. */
  ghost predicate Roomy(c: Config, cap: nat, n: nat) {
    cap + MAX_LEAD + (n + 122) * c.refresh < WORDS
  }

  ghost predicate FirstInv(c: Config, cap: nat, s: Paced) {
    && (s.probe.phaseReady && s.probe.submitted < 2 ==> 120 * c.refresh <= s.probe.firstTarget <= cap + 120 * c.refresh)
    && (s.second.Some? ==>
          s.probe.submitted >= 2 && s.second.value.time <= cap && s.second.value.time + MAX_LEAD >= 120 * c.refresh)
  }

  ghost predicate SteadyInv(c: Config, cap: nat, s: Paced) {
    && (s.probe.steadyReady ==> s.probe.submitted >= 2)
    && (s.probe.steadyReady && !s.probe.failed ==>
          c.submitLead <= s.probe.steadyTarget + (s.probe.submitted - 2) * c.refresh
                       <= cap + MAX_LEAD + s.probe.submitted * c.refresh)
    && (!s.probe.failed && s.probe.submitted >= 3 ==> s.probe.steadyReady)
  }

  ghost predicate PacedInv(c: Config, cap: nat, s: Paced) {
    Roomy(c, cap, s.probe.submitted) ==> FirstInv(c, cap, s) && SteadyInv(c, cap, s)
  }

  lemma {:induction false} RoomierBefore(c: Config, cap: nat, n: nat)
    requires Roomy(c, cap, n + 1)
    ensures Roomy(c, cap, n)
  {
    assert (n + 123) * c.refresh == (n + 122) * c.refresh + c.refresh;
  }

  lemma {:induction false} FirstInRange(c: Config, cap: nat, s: Paced, now: nat)
    requires Accepted(c) && Roomy(c, cap, 1) && FirstInv(c, cap, s) && now <= cap
    requires s.probe.submitted == 1 && s.probe.phaseReady
    ensures InRange(s.probe.firstTarget, 0, c.refresh, LeadOf(c, 2), now)
    ensures PlanOf(c, s.probe, now).wake + MAX_LEAD >= 120 * c.refresh
  {
    hide CatchUp, LeastShift;
    assert 0 * c.refresh == 0;
    var periods := CatchesUp(s.probe.firstTarget, 0, c.refresh, LeadOf(c, 2), now);
    Product(periods, c.refresh);
  }

  lemma {:induction false} SteadyInRange(c: Config, cap: nat, s: Paced, now: nat)
    requires Accepted(c) && Roomy(c, cap, s.probe.submitted) && SteadyInv(c, cap, s) && now <= cap
    requires s.probe.submitted >= 2 && s.probe.steadyReady && !s.probe.failed
    ensures var n := s.probe.submitted;
            && InRange(s.probe.steadyTarget, n - 2, c.refresh, c.submitLead, now)
            && c.submitLead <= PlanOf(c, s.probe, now).epoch + (n - 1) * c.refresh <= cap + MAX_LEAD
                + (n + 1) * c.refresh
  {
    hide CatchUp, InRange;
    var n := s.probe.submitted;
    Multiples(n, c.refresh);
    assert n - 2 + 1 == n - 1;
    BoundedStep(s.probe.steadyTarget, n - 2, c.refresh, c.submitLead, now, cap + MAX_LEAD + n * c.refresh);
  }

  lemma {:induction false} Multiples(n: nat, refresh: nat)
    requires n >= 2
    ensures (n + 122) * refresh == n * refresh + 122 * refresh
    ensures (n + 1) * refresh == n * refresh + refresh
    ensures n * refresh >= 2 * refresh
  {
    assert n * refresh == 2 * refresh + (n - 2) * refresh;
    Product(n - 2, refresh);
  }

  /** With arguments the probe accepts, and as long as 64 bits hold the clock, the
      pacing of an input never wraps, in any run: the first epoch lies 120 periods
      behind an event, and the steady one behind the flip of frame 2, which was
      submitted only after a sleep until close to that epoch. */
  lemma {:induction false} AcceptedArgumentsNeverWrap(c: Config, cap: nat, s: Paced, a: Arrival)
    requires Accepted(c) && Reachable(Runs(c, cap), s) && Roomy(c, cap, s.probe.submitted)
    requires Ready(s.probe, a) && a.writable && !s.probe.failed && s.probe.submitted >= 1 && a.now <= cap
    ensures var frame := s.probe.submitted + 1;
            InRange(EpochOf(s.probe, frame), IndexOf(frame), c.refresh, LeadOf(c, frame), a.now)
  {
    PacedInvHolds(c, cap, s);
    if s.probe.submitted == 1 {
      FirstInRange(c, cap, s, a.now);
    } else {
      SteadyInRange(c, cap, s, a.now);
    }
  }

  lemma {:induction false} PacedInvHolds(c: Config, cap: nat, s: Paced)
    requires Accepted(c) && Reachable(Runs(c, cap), s)
    ensures PacedInv(c, cap, s)
  {
    hide Next;
    forall s, t | PacedInv(c, cap, s) && Next(c, cap, s, t) ensures PacedInv(c, cap, t) {
      NextKeepsPaced(c, cap, s, t);
    }
    Invariance(Runs(c, cap), s => PacedInv(c, cap, s), s);
  }

  lemma {:induction false} NextKeepsPaced(c: Config, cap: nat, s: Paced, t: Paced)
    requires Accepted(c) && PacedInv(c, cap, s) && Next(c, cap, s, t)
    ensures PacedInv(c, cap, t)
  {
    var x :| Enabled(c, cap, s, x) && t == Apply(c, s, x);
    if Roomy(c, cap, t.probe.submitted) {
      match x {
        case Input(a) =>
          RoomierBefore(c, cap, s.probe.submitted);
          InputKeepsPaced(c, cap, s, a);
        case Flip(event) => FlipKeepsPaced(c, cap, s, event);
        case _ => OtherKeepsPaced(c, cap, s, x);
      }
      hide *;
    }
  }

  lemma {:induction false} OtherKeepsPaced(c: Config, cap: nat, s: Paced, x: Action)
    requires Accepted(c) && Roomy(c, cap, s.probe.submitted) && FirstInv(c, cap, s) && SteadyInv(c, cap, s)
    requires Enabled(c, cap, s, x) && !x.Input? && !x.Flip?
    ensures FirstInv(c, cap, Apply(c, s, x)) && SteadyInv(c, cap, Apply(c, s, x))
  {
    hide Enter, PlanOf;
    assert (s.probe.submitted + 122) * c.refresh == s.probe.submitted * c.refresh + 122 * c.refresh;
    Product(s.probe.submitted, c.refresh);
  }

  lemma {:induction false} FlipKeepsPaced(c: Config, cap: nat, s: Paced, event: nat)
    requires Accepted(c) && Roomy(c, cap, s.probe.submitted) && FirstInv(c, cap, s) && SteadyInv(c, cap, s)
    requires Enabled(c, cap, s, Flip(event))
    ensures FirstInv(c, cap, Apply(c, s, Flip(event))) && SteadyInv(c, cap, Apply(c, s, Flip(event)))
  {
    if !s.probe.failed {
      assert s.probe.submitted == 2;
    }
  }

  lemma {:induction false} InputKeepsPaced(c: Config, cap: nat, s: Paced, a: Arrival)
    requires Accepted(c) && Roomy(c, cap, s.probe.submitted) && FirstInv(c, cap, s) && SteadyInv(c, cap, s)
    requires Enabled(c, cap, s, Input(a)) && Roomy(c, cap, s.probe.submitted + 1)
    ensures FirstInv(c, cap, Apply(c, s, Input(a))) && SteadyInv(c, cap, Apply(c, s, Input(a)))
  {
    hide Pts, CatchUp;
    var n := s.probe.submitted;
    if a.writable && n >= 1 && !s.probe.failed {
      if n == 1 {
        FirstInRange(c, cap, s, a.now);
      } else {
        SteadyInRange(c, cap, s, a.now);
      }
      hide PlanOf;
    }
  }

  // ------------------------------------------------------ outputs of the decoder

  /** The first stamp with this timestamp. */
  function Position(queue: seq<Stamp>, pts: nat): (n: nat)
    ensures n <= |queue| && (n < |queue| ==> queue[n].pts == pts)
    ensures forall i | 0 <= i < n :: queue[i].pts != pts
  {
    if queue == [] || queue[0].pts == pts then 0 else 1 + Position(queue[1..], pts)
  }

  datatype Event = Pushed(stamp: Stamp) | Output(pts: Option<nat>)

  /** The queue of stamps, and the stamps taken for the outputs so far. */
  datatype Desk = Desk(queue: seq<Stamp>, taken: seq<Stamp>)

  /** An output takes its stamp and drops everything before it; None when it has no
      stamp, which stops the stream. */
  function Settle(d: Desk, e: Event): Option<Desk> {
    match e
    case Pushed(stamp) => Some(d.(queue := d.queue + [stamp]))
    case Output(pts) =>
      if pts.None? || Position(d.queue, pts.value) == |d.queue| then None
      else
        var n := Position(d.queue, pts.value);
        Some(Desk(d.queue[n + 1..], d.taken + [d.queue[n]]))
  }

  function Settled(events: seq<Event>): Option<Desk> {
    if events == [] then Some(Desk([], []))
    else
      var before := Settled(events[..|events| - 1]);
      if before.None? then None else Settle(before.value, events[|events| - 1])
  }

  function Inputs(events: seq<Event>): seq<Stamp> {
    if events == [] then []
    else Inputs(events[..|events| - 1]) + (if events[|events| - 1].Pushed? then [events[|events| - 1].stamp] else [])
  }

  function Outputs(events: seq<Event>): seq<Option<nat>> {
    if events == [] then []
    else Outputs(events[..|events| - 1]) + (if events[|events| - 1].Output? then [events[|events| - 1].pts] else [])
  }

  /** Inputs carry their own timestamps, in the order of their frames; frames may be
      missing where an input was dropped. */
  ghost predicate Increasing(stamps: seq<Stamp>) {
    && (forall s | s in stamps :: s.frame > 0 && s.pts == Pts(s.frame))
    && (forall i, j | 0 <= i < j < |stamps| :: stamps[i].frame < stamps[j].frame)
  }

  /** Later than all outputs when these are in order. */
  predicate Fresh(outputs: seq<Option<nat>>, pts: nat) {
    forall o | o in outputs :: o.Some? ==> pts > o.value
  }

  /** What a decoder without reordering does: every output is a submitted input, later
      than all outputs before it; any inputs in between may be dropped. */
  ghost predicate DecodesInOrder(events: seq<Event>) {
    events != [] ==>
      var before, last := events[..|events| - 1], events[|events| - 1];
      && DecodesInOrder(before)
      && (last.Output? ==>
            (last.pts.Some? && Fresh(Outputs(before), last.pts.value)
             && exists s | s in Inputs(before) :: s.pts == last.pts.value))
  }

  /** The waiting stamps are the inputs behind the first few; exactly these are later
      than every output. */
  ghost predicate Waiting(inputs: seq<Stamp>, outputs: seq<Option<nat>>, queue: seq<Stamp>) {
    var gone := |inputs| - |queue|;
    && gone >= 0 && queue == inputs[gone..]
    && (forall i | 0 <= i < |inputs| :: Fresh(outputs, inputs[i].pts) <==> i >= gone)
  }

  /** The taken stamps are inputs with the timestamps of the outputs, in order. */
  ghost predicate Taken(inputs: seq<Stamp>, outputs: seq<Option<nat>>, taken: seq<Stamp>) {
    && |taken| == |outputs|
    && (forall i | 0 <= i < |outputs| :: taken[i] in inputs && outputs[i] == Some(taken[i].pts))
    && (forall i, j | 0 <= i < j < |outputs| :: taken[i].pts < taken[j].pts)
  }

  ghost predicate Matched(inputs: seq<Stamp>, outputs: seq<Option<nat>>, d: Desk) {
    Waiting(inputs, outputs, d.queue) && Taken(inputs, outputs, d.taken)
  }

  lemma {:induction false} PtsInOrder(stamps: seq<Stamp>, i: nat, j: nat)
    requires Increasing(stamps) && i < |stamps| && j < |stamps|
    ensures stamps[i].pts < stamps[j].pts <==> i < j
  {
    assert stamps[i] in stamps && stamps[j] in stamps;
    PtsIncreasing(stamps[i].frame, stamps[j].frame);
    if j < i {
      assert stamps[j].frame < stamps[i].frame;
    }
  }

  lemma {:induction false} PushMatches(inputs: seq<Stamp>, outputs: seq<Option<nat>>, d: Desk, s: Stamp)
    requires Matched(inputs, outputs, d) && Increasing(inputs + [s])
    ensures Matched(inputs + [s], outputs, d.(queue := d.queue + [s]))
  {
    hide Pts;
    var all, n := inputs + [s], |inputs|;
    assert Fresh(outputs, s.pts) by {
      forall i | 0 <= i < |outputs| ensures s.pts > d.taken[i].pts {
        var k :| 0 <= k < n && inputs[k] == d.taken[i];
        assert all[k] == inputs[k] && all[n] == s;
        PtsInOrder(all, k, n);
      }
    }
    forall i | 0 <= i < |all| ensures Fresh(outputs, all[i].pts) <==> i >= n - |d.queue| {
      if i < n {
        assert all[i] == inputs[i];
      }
    }
  }

  lemma {:induction false} FreshMore(outputs: seq<Option<nat>>, pts: nat, q: nat)
    ensures Fresh(outputs + [Some(pts)], q) <==> Fresh(outputs, q) && q > pts
  {
    assert Some(pts) in outputs + [Some(pts)];
    forall o | o in outputs ensures o in outputs + [Some(pts)] {
    }
  }

  /** Only fresh timestamps of inputs are found in the queue, and all of them. */
  lemma {:induction false} Findable(inputs: seq<Stamp>, outputs: seq<Option<nat>>, d: Desk, pts: nat)
    requires Matched(inputs, outputs, d)
    ensures Position(d.queue, pts) < |d.queue| <==> Fresh(outputs, pts) && exists s | s in inputs :: s.pts == pts
  {
    hide Fresh;
    var gone, n := |inputs| - |d.queue|, Position(d.queue, pts);
    if n < |d.queue| {
      assert inputs[gone + n] == d.queue[n] && inputs[gone + n] in inputs;
    }
  }

  lemma {:induction false} TakeLeaves(inputs: seq<Stamp>, outputs: seq<Option<nat>>, queue: seq<Stamp>, n: nat)
    requires Waiting(inputs, outputs, queue) && Increasing(inputs) && n < |queue|
    ensures Waiting(inputs, outputs + [Some(queue[n].pts)], queue[n + 1..])
  {
    var at, pts := |inputs| - |queue| + n, queue[n].pts;
    assert inputs[at] == queue[n];
    hide Pts, Fresh, Increasing;
    forall i | 0 <= i < |inputs| ensures Fresh(outputs + [Some(pts)], inputs[i].pts) <==> i >= at + 1 {
      PtsInOrder(inputs, at, i);
      FreshMore(outputs, pts, inputs[i].pts);
    }
    assert queue[n + 1..] == inputs[at + 1..];
  }

  lemma {:induction false} TakeExtends(inputs: seq<Stamp>, outputs: seq<Option<nat>>, taken: seq<Stamp>, s: Stamp)
    requires Taken(inputs, outputs, taken) && s in inputs && Fresh(outputs, s.pts)
    ensures Taken(inputs, outputs + [Some(s.pts)], taken + [s])
  {
    forall i | 0 <= i < |outputs| ensures taken[i].pts < s.pts {
      assert outputs[i] in outputs;
    }
  }

  lemma {:induction false} TakeMatches(inputs: seq<Stamp>, outputs: seq<Option<nat>>, d: Desk, n: nat)
    requires Matched(inputs, outputs, d) && Increasing(inputs) && n < |d.queue|
    ensures Matched(inputs, outputs + [Some(d.queue[n].pts)], Desk(d.queue[n + 1..], d.taken + [d.queue[n]]))
  {
    var at := |inputs| - |d.queue| + n;
    assert inputs[at] == d.queue[n] && inputs[at] in inputs && Fresh(outputs, inputs[at].pts);
    hide Waiting, Taken, Increasing;
    TakeLeaves(inputs, outputs, d.queue, n);
    TakeExtends(inputs, outputs, d.taken, d.queue[n]);
  }

  lemma {:induction false} OutputMatches(inputs: seq<Stamp>, outputs: seq<Option<nat>>, d: Desk, pts: nat)
    requires Matched(inputs, outputs, d) && Increasing(inputs)
    ensures Settle(d, Output(Some(pts))).Some? <==> Fresh(outputs, pts) && exists s | s in inputs :: s.pts == pts
    ensures Settle(d, Output(Some(pts))).Some?
        ==> Matched(inputs, outputs + [Some(pts)], Settle(d, Output(Some(pts))).value)
  {
    hide Matched, Fresh, Increasing;
    Findable(inputs, outputs, d, pts);
    var n := Position(d.queue, pts);
    if n < |d.queue| {
      TakeMatches(inputs, outputs, d, n);
    }
  }

  lemma {:induction false} SettleMatches(before: seq<Event>, last: Event, d: Desk)
    requires Increasing(Inputs(before + [last])) && Matched(Inputs(before), Outputs(before), d)
    ensures DecodesInOrder(before) ==> (Settle(d, last).Some? <==> DecodesInOrder(before + [last]))
    ensures Settle(d, last).Some? ==> Matched(Inputs(before + [last]), Outputs(before + [last]), Settle(d, last).value)
  {
    var events := before + [last];
    assert events[..|events| - 1] == before;
    hide Increasing, Matched, Fresh;
    if last.Pushed? {
      assert Outputs(events) == Outputs(before);
      PushMatches(Inputs(before), Outputs(before), d, last.stamp);
    } else {
      assert Inputs(events) == Inputs(before);
      if last.pts.Some? {
        OutputMatches(Inputs(before), Outputs(before), d, last.pts.value);
      }
    }
  }

  lemma {:induction false} IncreasingPrefix(events: seq<Event>, last: Event)
    requires Increasing(Inputs(events + [last]))
    ensures Increasing(Inputs(events))
  {
    hide Pts;
    assert (events + [last])[..|events|] == events;
    var more, fewer := Inputs(events + [last]), Inputs(events);
    assert forall i | 0 <= i < |fewer| :: more[i] == fewer[i];
  }

  /** Whatever the decoder drops: the stream goes on exactly as long as the outputs are
      inputs in order; every output then takes the stamp with its own timestamp, and the
      stamps left are exactly those of inputs later than every output. */
  lemma {:induction false} Matching(events: seq<Event>)
    requires Increasing(Inputs(events))
    ensures Settled(events).Some? <==> DecodesInOrder(events)
    ensures Settled(events).Some? ==> Matched(Inputs(events), Outputs(events), Settled(events).value)
  {
    if events != [] {
      var before, last := events[..|events| - 1], events[|events| - 1];
      assert events == before + [last];
      IncreasingPrefix(before, last);
      Matching(before);
      hide Increasing, Matched, Fresh, Settle, Inputs, Outputs;
      if Settled(before).Some? {
        SettleMatches(before, last, Settled(before).value);
      }
    }
  }

  lemma {:induction false} FrameOrder(s: Stamp, f: nat)
    requires s.frame > 0 && s.pts == Pts(s.frame) && f > 0
    ensures (s.pts == Pts(f) ==> s.frame == f) && (s.pts > Pts(f) ==> s.frame > f)
  {
    PtsIncreasing(s.frame, f);
    PtsIncreasing(f, s.frame);
  }

  lemma {:induction false} MatchedFrames(inputs: seq<Stamp>, outputs: seq<Option<nat>>, d: Desk, i: nat, f: nat)
    requires Matched(inputs, outputs, d) && (forall s | s in inputs :: s.frame > 0 && s.pts == Pts(s.frame))
    requires i < |outputs| && f > 0 && outputs[i] == Some(Pts(f))
    ensures d.taken[i].frame == f && d.taken[i] in inputs
    ensures forall j | i < j < |outputs| :: d.taken[j].frame > f
    ensures forall s | s in d.queue :: s.frame > f
  {
    hide Pts;
    FrameOrder(d.taken[i], f);
    forall j | i < j < |outputs| ensures d.taken[j].frame > f {
      FrameOrder(d.taken[j], f);
    }
    forall s | s in d.queue ensures s.frame > f {
      var k :| 0 <= k < |d.queue| && d.queue[k] == s;
      var at := |inputs| - |d.queue| + k;
      assert inputs[at] == s && inputs[at] in inputs;
      assert Fresh(outputs, inputs[at].pts) && outputs[i] in outputs;
      FrameOrder(s, f);
    }
  }

  /** An output of frame f takes the stamp of frame f, no stamp serves twice, and every
      stamp left belongs to a later frame. */
  lemma {:induction false} OwnStamps(events: seq<Event>, i: nat, f: nat)
    requires Increasing(Inputs(events)) && Settled(events).Some? && i < |Outputs(events)|
    requires f > 0 && Outputs(events)[i] == Some(Pts(f))
    ensures |Settled(events).value.taken| == |Outputs(events)|
    ensures Settled(events).value.taken[i].frame == f && Settled(events).value.taken[i] in Inputs(events)
    ensures forall j | i < j < |Outputs(events)| :: Settled(events).value.taken[j].frame > f
    ensures forall s | s in Settled(events).value.queue :: s.frame > f
  {
    hide Pts, Inputs, Settled, Outputs, Fresh, DecodesInOrder;
    Matching(events);
    MatchedFrames(Inputs(events), Outputs(events), Settled(events).value, i, f);
  }

  // ---------------------------------------------------------- the probe in place

  class Probe {
    const config: Config
    var submitted: nat
    var firstTarget: nat
    var steadyTarget: nat
    var phaseReady: bool
    var steadyReady: bool
    var failed: bool
    var submitQueue: seq<Stamp>
    ghost var taken: seq<Stamp>

    ghost function View(): State
      reads this
    {
      State(submitted, firstTarget, steadyTarget, phaseReady, steadyReady, failed, submitQueue)
    }

    constructor (config: Config)
      ensures this.config == config && View() == START && taken == []
    {
      this.config := config;
      submitted, firstTarget, steadyTarget, phaseReady, steadyReady := 0, 0, 0, false, false;
      failed, submitQueue, taken := false, [], [];
    }

    /** The display of the first frame. */
    method EstablishPhase(event: nat)
      modifies `firstTarget, `phaseReady
      ensures View() == Established(config, old(View()), event)
    {
      firstTarget := Wrap(event + Wrap(120 * config.refresh));
      phaseReady := true;
    }

    /** The end of display_sample: true when the flip is accepted. */
    method OnFlip(submit: Stamp, event: nat) returns (ok: bool)
      modifies `steadyTarget, `steadyReady
      ensures ok <==> event >= submit.time
      ensures View() == if ok && submit.frame == 2 then Flipped(config, old(View()), event) else old(View())
    {
      if event < submit.time {
        return false;
      }
      if submit.frame == 2 {
        steadyTarget := Wrap(event + config.refresh);
        steadyReady := true;
      }
      return true;
    }

    /** The absolute-clock arithmetic of an input. */
    method Pace(start: nat, index: nat, lead: nat, now: nat) returns (epoch: nat, target: nat, wake: nat)
      requires config.refresh > 0
      ensures Plan(epoch, target, wake) == CatchUp(start, index, config.refresh, lead, now)
    {
      hide Wrap;
      var refresh := config.refresh;
      epoch, target := start, Wrap(start + Wrap(index * refresh));
      wake := Wrap(target - lead);
      if wake <= now {
        var shift := Wrap(((now - wake) / refresh + 1) * refresh);
        epoch, target, wake := Wrap(epoch + shift), Wrap(target + shift), Wrap(wake + shift);
      }
    }

    /** on_decoder_input, once the phase it waits for is ready. */
    method OnDecoderInput(a: Arrival)
      requires config.refresh > 0 && Ready(View(), a)
      modifies this
      ensures View() == Enter(config, old(View()), a) && taken == old(taken)
    {
      hide CatchUp, Pts;
      submitted := submitted + 1;
      var frame, target := submitted, 0;
      if !a.writable {
        failed := true;
        return;
      }
      if frame >= 2 {
        if failed {
          return;
        }
        var epoch := if frame == 2 then firstTarget else steadyTarget;
        var index := if frame == 2 then 0 else frame - 3;
        var lead := if frame == 2 && config.submitLead <= FIRST_LEAD then FIRST_LEAD else config.submitLead;
        var wake;
        epoch, target, wake := Pace(epoch, index, lead, a.now);
        if frame == 2 {
          firstTarget := epoch;
        } else {
          steadyTarget := epoch;
        }
        if !a.slept {
          failed := true;
          return;
        }
      }
      submitQueue := submitQueue + [Stamp(frame, a.time, target, Pts(frame))];
    }

    /** The matching in on_new_sample; None makes the callback fail the stream. */
    method OnNewSample(pts: Option<nat>) returns (stamp: Option<Stamp>)
      modifies this`submitQueue, this`taken, this`failed
      ensures var settled := Settle(Desk(old(submitQueue), old(taken)), Output(pts));
              if settled.Some? then
                stamp.Some? && settled.value == Desk(submitQueue, taken) && taken == old(taken) + [stamp.value]
                    && failed == old(failed)
              else stamp == None && failed && submitQueue == old(submitQueue) && taken == old(taken)
    {
      var n := 0;
      assert submitQueue[0..] == submitQueue;
      while n < |submitQueue| && !(pts.Some? && submitQueue[n].pts == pts.value)
        invariant n <= |submitQueue|
        invariant pts.Some? ==> Position(submitQueue, pts.value) == n + Position(submitQueue[n..], pts.value)
      {
        assert submitQueue[n..][1..] == submitQueue[n + 1..];
        n := n + 1;
      }
      if n == |submitQueue| {
        failed := true;
        return None;
      }
      stamp := Some(submitQueue[n]);
      taken := taken + [submitQueue[n]];
      submitQueue := submitQueue[n + 1..];
    }
  }
}
