/** The threaded modes of plank-probe-client-pipeline: the decoder's thread hands each
    sample over through one place, the worker presents it, and in the asynchronous
    modes the compositor reports back later on a bounded number of frames. */
module Presentation {
  import opened Transitions
  import opened Wrappers

  /** `inputs` is the number of coded frames the file holds. */
  datatype Config = Config(expected: nat, inputs: nat, async: bool, limit: nat)

  /** The arguments main accepts. */
  predicate Accepted(c: Config) {
    c.expected > 0 && 0 < c.limit <= 4 && (!c.async ==> c.limit == 1)
  }

  /** What has become of a queued frame.  The frames are numbered in the order in
      which they are queued. */
  datatype Place = Ready | Processing | InFlight | Presented | Stale | Lost

  datatype Stream =
    | Next          // between two samples
    | HandOff       // a sample with its stamp, waiting for the place to be free
    | Ended

  datatype Worker =
    | Idle
    | Throttle(frame: nat)   // waiting until another frame may be in flight
    | Render(frame: nat)
    | Feedback(frame: nat)   // synchronous modes: waiting for this frame's report
    | Roundtrip
    | Drain
    | Gone

  datatype Main = Bus | Join(eos: bool) | Done(eos: bool)

  /** `received` lists the frames the worker has taken, `places` is a history. */
  datatype State = State(
    stream: Stream, worker: Worker, main: Main,
    ready: Option<nat>, queued: nat, presented: nat, stale: nat, inflight: nat, dropped: nat,
    failed: bool, producerDone: bool, workerStop: bool,
    received: seq<nat>, places: seq<Place>)

  ghost predicate Init(s: State) {
    s == State(Next, Idle, Bus, None, 0, 0, 0, 0, 0, false, false, false, [], [])
  }

  /** What reaches the sink's callback: a sample whose stamp is there, one without a
      stamp, or the end of the stream. */
  datatype Arrival = Sample | Stampless | Over

  /** What a worker step meets: a report on a frame in flight, success, an error, or
      a frame whose time has passed. */
  datatype Outcome = Reported(frame: nat, recorded: bool) | Discarded(frame: nat) | Good | Bad | Late

  /** InputFails: the sleep before an input fails, and the input is dropped. */
  datatype Action = StreamStep(arrival: Arrival) | InputFails | WorkerStep(outcome: Outcome) | MainStep(eos: bool)

  predicate Full(c: Config, s: State) {
    c.async && s.inflight >= c.limit
  }

  predicate Flying(s: State, frame: nat) {
    frame < |s.places| && s.places[frame] == InFlight && s.inflight > 0
  }

  predicate Reporting(s: State, o: Outcome) {
    (o.Reported? || o.Discarded?) && Flying(s, o.frame)
  }

  /** The callbacks run while the worker dispatches; one call may bring several. */
  predicate Dispatching(s: State, o: Outcome) {
    Reporting(s, o) || o.Bad?
  }

  predicate Enabled(c: Config, s: State, a: Action) {
    match a
    case StreamStep(arrival) =>
      (match s.stream
       case Next => true
       case HandOff => s.ready.None? || s.workerStop
       case Ended => false)
    case InputFails => s.dropped < c.inputs && !s.main.Done?
    case WorkerStep(o) =>
      (match s.worker
       case Idle => o.Good? && (s.ready.Some? || s.producerDone || s.workerStop)
       case Throttle(_) => if Full(c, s) then Dispatching(s, o)
                           else o.Good? || (c.async && (o.Late? || Reporting(s, o)))
       case Render(_) => o.Good? || o.Bad?
       case Feedback(_) => o.Good? || o.Bad?
       case Roundtrip => o.Good? || Dispatching(s, o)
       case Drain => if c.async && s.inflight != 0 then Dispatching(s, o) else o.Good?
       case Gone => false)
    case MainStep(eos) =>
      (match s.main
       case Bus => eos ==> s.stream.Ended?
       case Join(_) => s.worker.Gone?
       case Done(_) => false)
  }

  function Moved(places: seq<Place>, frame: nat, place: Place): (r: seq<Place>)
    ensures |r| == |places|
  {
    if frame < |places| then places[frame := place] else places
  }

  function StreamNext(c: Config, s: State, arrival: Arrival): State {
    match s.stream
    case Next =>
      (match arrival
       case Sample => s.(stream := HandOff)
       case Stampless => s.(stream := Ended, failed := true)
       case Over => s.(stream := Ended))
    case HandOff =>
      if s.workerStop then s.(stream := Ended)
      else
        s.(stream := if s.queued + 1 >= c.expected then Ended else Next,
           ready := Some(s.queued), queued := s.queued + 1, places := s.places + [Ready])
    case Ended => s
  }

  /** on_async_presented and on_async_discarded. */
  function Report(s: State, o: Outcome): State
    requires o.Reported? || o.Discarded?
    requires s.inflight > 0
  {
    match o
    case Reported(frame, recorded) =>
      s.(presented := s.presented + 1, inflight := s.inflight - 1, failed := s.failed || !recorded,
         places := Moved(s.places, frame, Presented))
    case Discarded(frame) =>
      s.(inflight := s.inflight - 1, failed := true, places := Moved(s.places, frame, Lost))
  }

  /** process_sample has returned false. */
  function Fail(s: State): State {
    s.(failed := true, workerStop := true, worker := Drain)
  }

  function Take(s: State): State {
    if s.workerStop then
      s.(worker := Drain, ready := None,
         places := if s.ready.Some? then Moved(s.places, s.ready.value, Lost) else s.places)
    else if s.ready.None? then s.(worker := Drain)
    else
      var k := s.ready.value;
      s.(worker := Throttle(k), ready := None, received := s.received + [k], places := Moved(s.places, k, Processing))
  }

  function WorkerNext(c: Config, s: State, o: Outcome): State
    requires Enabled(c, s, WorkerStep(o))
  {
    if o.Reported? || o.Discarded? then Report(s, o)
    else
      match s.worker
      case Idle => Take(s)
      case Throttle(k) =>
        if o.Bad? then Fail(s.(places := Moved(s.places, k, Lost)))
        else if o.Late? then s.(worker := Idle, stale := s.stale + 1, places := Moved(s.places, k, Stale))
        else s.(worker := Render(k))
      case Render(k) =>
        if o.Bad? then Fail(s.(places := Moved(s.places, k, Lost)))
        else if c.async then s.(worker := Roundtrip, inflight := s.inflight + 1, places := Moved(s.places, k, InFlight))
        else s.(worker := Feedback(k))
      case Feedback(k) =>
        if o.Bad? then Fail(s.(places := Moved(s.places, k, Lost)))
        else s.(worker := Idle, presented := s.presented + 1, places := Moved(s.places, k, Presented))
      case Roundtrip => if o.Bad? || s.failed then Fail(s) else s.(worker := Idle)
      case Drain => s.(worker := Gone, failed := s.failed || o.Bad?)
      case Gone => s
  }

  function MainNext(s: State, eos: bool): State {
    match s.main
    case Bus => s.(main := Join(eos), producerDone := true, workerStop := s.workerStop || !eos)
    case Join(e) => s.(main := Done(e))
    case Done(_) => s
  }

  function Apply(c: Config, s: State, a: Action): State
    requires Enabled(c, s, a)
  {
    match a
    case StreamStep(arrival) => StreamNext(c, s, arrival)
    case InputFails => s.(failed := true, dropped := s.dropped + 1)
    case WorkerStep(o) => WorkerNext(c, s, o)
    case MainStep(eos) => MainNext(s, eos)
  }

  ghost predicate Step(c: Config, s: State, t: State) {
    exists a: Action :: Enabled(c, s, a) && t == Apply(c, s, a)
  }

  ghost function Threads(c: Config): System<State> {
    System(s => Init(s), (s, t) => Step(c, s, t))
  }

  /** The same steps, each with the action it is taken by. */
  ghost function Labelled(c: Config): Machine<State, Action> {
    Machine(s => Init(s), (s, a, t) => Enabled(c, s, a) && t == Apply(c, s, a))
  }

  lemma {:induction false} LabelsThreads(c: Config)
    ensures Labels(Labelled(c), Threads(c))
  {
    hide Init, Enabled, Apply;
    forall s, t ensures Threads(c).next(s, t) <==> exists a: Action :: Labelled(c).step(s, a, t) {
      if Step(c, s, t) {
        var a :| Enabled(c, s, a) && t == Apply(c, s, a);
        assert Labelled(c).step(s, a, t);
      }
    }
  }

  // ---------------------------------------------------------------- counting

  /** How many frames are in a place. */
  function Count(places: seq<Place>, p: Place): nat {
    if places == [] then 0 else Count(places[..|places| - 1], p) + (if places[|places| - 1] == p then 1 else 0)
  }

  lemma {:induction false} CountAdded(places: seq<Place>, q: Place, p: Place)
    ensures Count(places + [q], p) == Count(places, p) + (if p == q then 1 else 0)
  {
    assert (places + [q])[..|places|] == places;
  }

  lemma {:induction false} CountMoved(places: seq<Place>, frame: nat, q: Place, p: Place)
    requires frame < |places|
    ensures Count(Moved(places, frame, q), p) + (if places[frame] == p then 1 else 0)
         == Count(places, p) + (if p == q then 1 else 0)
  {
    var last := |places| - 1;
    if frame == last {
      assert places[frame := q][..last] == places[..last];
    } else {
      CountMoved(places[..last], frame, q, p);
      assert places[frame := q][..last] == places[..last][frame := q];
    }
  }

  /** Every frame is somewhere. */
  lemma {:induction false} CountAll(places: seq<Place>)
    ensures Count(places, Ready) + Count(places, Processing) + Count(places, InFlight)
          + Count(places, Presented) + Count(places, Stale) + Count(places, Lost) == |places|
  {
    if places != [] {
      CountAll(places[..|places| - 1]);
    }
  }

  lemma {:induction false} FindOne(places: seq<Place>, p: Place) returns (frame: nat)
    requires Count(places, p) > 0
    ensures frame < |places| && places[frame] == p
  {
    var last := |places| - 1;
    if places[last] == p {
      frame := last;
    } else {
      frame := FindOne(places[..last], p);
    }
  }

  // --------------------------------------------------------------- invariant

  predicate Holding(w: Worker) {
    w.Throttle? || w.Render? || w.Feedback?
  }

  ghost predicate Counters(s: State) {
    && s.queued == |s.places|
    && s.presented == Count(s.places, Presented)
    && s.stale == Count(s.places, Stale)
    && s.inflight == Count(s.places, InFlight)
    && Count(s.places, Ready) == (if s.ready.Some? then 1 else 0)
    && Count(s.places, Processing) == (if Holding(s.worker) then 1 else 0)
    && (Count(s.places, Lost) > 0 ==> s.failed || s.workerStop)
  }

  /** The worker holds the newest frame but for the one in the hand-off. */
  ghost predicate Order(s: State) {
    && s.queued == |s.places|
    && (s.ready.Some? ==> s.queued > 0 && s.ready.value == s.queued - 1 && s.places[s.ready.value] == Ready)
    && (Holding(s.worker) ==> s.worker.frame < s.queued && s.places[s.worker.frame] == Processing)
    && (forall i | 0 <= i < |s.received| :: s.received[i] == i)
    && |s.received| <= s.queued
    && (!s.workerStop ==> |s.received| + (if s.ready.Some? then 1 else 0) == s.queued)
  }

  ghost predicate Bounds(c: Config, s: State) {
    && s.queued <= c.expected && s.dropped <= c.inputs
    && (!s.stream.Ended? ==> s.queued < c.expected)
    && (c.async ==> s.inflight <= c.limit && (s.worker.Render? ==> s.inflight < c.limit) && !s.worker.Feedback?)
    && (!c.async ==> s.inflight == 0 && s.stale == 0 && !s.worker.Roundtrip?)
  }

  ghost predicate Flow(s: State) {
    && (s.producerDone <==> !s.main.Bus?)
    && (s.workerStop ==> s.failed || s.main == Join(false) || s.main == Done(false))
    && (s.main == Join(false) || s.main == Done(false) ==> s.workerStop)
    && (s.main == Join(true) || s.main == Done(true) ==> s.stream.Ended?)
    && (s.worker.Drain? || s.worker.Gone? ==> s.workerStop || (s.producerDone && s.ready.None?))
    && (s.main.Done? ==> s.worker.Gone?)
    && (s.worker.Gone? && s.inflight > 0 ==> s.failed)
  }

  ghost predicate Inv(c: Config, s: State) {
    Counters(s) && Order(s) && Bounds(c, s) && Flow(s)
  }

  /** Moving a frame changes two counts and keeps the others. */
  lemma {:induction false} Recount(places: seq<Place>, frame: nat, q: Place)
    requires frame < |places|
    ensures forall p: Place :: Count(Moved(places, frame, q), p)
              == Count(places, p) + (if p == q then 1 else 0) - (if p == places[frame] then 1 else 0)
  {
    hide Count, Moved;
    forall p: Place {
      CountMoved(places, frame, q, p);
    }
  }

  lemma {:induction false} StreamKeepsCounters(c: Config, s: State, arrival: Arrival)
    requires Counters(s) && Enabled(c, s, StreamStep(arrival))
    ensures Counters(StreamNext(c, s, arrival))
  {
    hide Count;
    forall p: Place {
      CountAdded(s.places, Ready, p);
    }
  }

  lemma {:induction false} TakeKeepsCounters(c: Config, s: State)
    requires Counters(s) && Order(s) && s.worker.Idle? && (s.ready.Some? || s.producerDone || s.workerStop)
    ensures Counters(Take(s))
  {
    hide Count, Moved;
    if s.ready.Some? {
      Recount(s.places, s.ready.value, if s.workerStop then Lost else Processing);
      assert |Take(s).places| == |s.places|;
    }
  }

  lemma {:induction false} ReportKeepsCounters(s: State, o: Outcome)
    requires Counters(s) && (o.Reported? || o.Discarded?) && Flying(s, o.frame)
    ensures Counters(Report(s, o))
  {
    hide Count, Moved;
    Recount(s.places, o.frame, if o.Reported? then Presented else Lost);
  }

  lemma {:induction false} WorkerKeepsCounters(c: Config, s: State, o: Outcome)
    requires Counters(s) && Order(s) && Enabled(c, s, WorkerStep(o))
    ensures Counters(WorkerNext(c, s, o))
  {
    hide Count, Moved, Report, Take;
    if o.Reported? || o.Discarded? {
      ReportKeepsCounters(s, o);
    } else if s.worker.Idle? {
      TakeKeepsCounters(c, s);
    } else if Holding(s.worker) {
      forall q: Place {
        Recount(s.places, s.worker.frame, q);
      }
    }
  }

  lemma {:induction false} TakeKeepsOrder(s: State)
    requires Order(s) && s.worker.Idle?
    ensures Order(Take(s))
  {
  }

  lemma {:induction false} ReportKeepsOrder(s: State, o: Outcome)
    requires Order(s) && (o.Reported? || o.Discarded?) && Flying(s, o.frame)
    ensures Order(Report(s, o))
  {
  }

  lemma {:induction false} WorkerKeepsOrder(c: Config, s: State, o: Outcome)
    requires Order(s) && Enabled(c, s, WorkerStep(o))
    ensures Order(WorkerNext(c, s, o))
  {
    if o.Reported? || o.Discarded? {
      ReportKeepsOrder(s, o);
      hide Report, Order;
    } else if s.worker.Idle? {
      TakeKeepsOrder(s);
      hide Take, Order;
    } else if Holding(s.worker) {
      HolderKeepsOrder(c, s, o);
      hide Order, WorkerNext;
    } else {
      hide Report, Take, Dispatching, Full;
    }
  }

  lemma {:induction false} HolderKeepsOrder(c: Config, s: State, o: Outcome)
    requires Order(s) && Enabled(c, s, WorkerStep(o)) && Holding(s.worker) && !o.Reported? && !o.Discarded?
    ensures Order(WorkerNext(c, s, o))
  {
    hide Report, Take, Dispatching, Full;
  }

  lemma {:induction false} WorkerKeepsBounds(c: Config, s: State, o: Outcome)
    requires Bounds(c, s) && Enabled(c, s, WorkerStep(o))
    ensures Bounds(c, WorkerNext(c, s, o))
  {
  }

  lemma {:induction false} WorkerKeepsFlow(c: Config, s: State, o: Outcome)
    requires Flow(s) && Bounds(c, s) && Enabled(c, s, WorkerStep(o))
    ensures Flow(WorkerNext(c, s, o))
  {
  }

  lemma {:induction false} StreamKeepsInv(c: Config, s: State, arrival: Arrival)
    requires Inv(c, s) && Enabled(c, s, StreamStep(arrival))
    ensures Inv(c, StreamNext(c, s, arrival))
  {
    StreamKeepsCounters(c, s, arrival);
    hide Counters, Count;
  }

  lemma {:induction false} InputKeepsInv(c: Config, s: State)
    requires Inv(c, s) && Enabled(c, s, InputFails)
    ensures Inv(c, Apply(c, s, InputFails))
  {
    hide Count;
  }

  lemma {:induction false} MainKeepsInv(c: Config, s: State, eos: bool)
    requires Inv(c, s) && Enabled(c, s, MainStep(eos))
    ensures Inv(c, MainNext(s, eos))
  {
    hide Count;
  }

  lemma {:induction false} StepKeepsInv(c: Config, s: State, a: Action)
    requires Inv(c, s) && Enabled(c, s, a)
    ensures Inv(c, Apply(c, s, a))
  {
    match a {
      case StreamStep(arrival) => StreamKeepsInv(c, s, arrival);
      case WorkerStep(o) =>
        WorkerKeepsCounters(c, s, o);
        WorkerKeepsOrder(c, s, o);
        WorkerKeepsBounds(c, s, o);
        WorkerKeepsFlow(c, s, o);
        hide Counters, Order, Bounds, Flow, WorkerNext;
      case InputFails => InputKeepsInv(c, s);
      case MainStep(eos) => MainKeepsInv(c, s, eos);
    }
  }

  lemma {:induction false} InvIsInductive(c: Config)
    requires Accepted(c)
    ensures Inductive(Threads(c), s => Inv(c, s))
  {
    forall s | Init(s) ensures Inv(c, s) {
    }
    hide Inv, Init, Apply, Enabled;
    forall s, t | Inv(c, s) && Step(c, s, t) ensures Inv(c, t) {
      var a :| Enabled(c, s, a) && t == Apply(c, s, a);
      StepKeepsInv(c, s, a);
    }
  }

  lemma {:induction false} ReachableInv(c: Config, s: State)
    requires Accepted(c) && Reachable(Threads(c), s)
    ensures Inv(c, s)
  {
    InvIsInductive(c);
    Invariance(Threads(c), s => Inv(c, s), s);
  }

  // ---------------------------------------------------------------- theorems

  /** Every queued frame is in exactly one place, the counters of the program count
      those places, and while nothing has failed no frame is lost. */
  lemma {:induction false} Conservation(c: Config, s: State)
    requires Accepted(c) && Reachable(Threads(c), s)
    ensures s.queued == s.presented + s.stale + s.inflight + (if s.ready.Some? then 1 else 0)
                      + (if Holding(s.worker) then 1 else 0) + Count(s.places, Lost)
    ensures !s.failed && !s.workerStop ==> Count(s.places, Lost) == 0
    ensures |s.places| == s.queued && s.presented == Count(s.places, Presented) && s.stale == Count(s.places, Stale)
  {
    ReachableInv(c, s);
    CountAll(s.places);
  }

  /** Never more frames in flight than the limit, and none in the synchronous modes. */
  lemma {:induction false} InFlightBounded(c: Config, s: State)
    requires Accepted(c) && Reachable(Threads(c), s)
    ensures s.inflight <= c.limit && (!c.async ==> s.inflight == 0 && s.stale == 0)
    ensures s.queued <= c.expected
  {
    ReachableInv(c, s);
    hide Count;
  }

  /** The hand-off delivers the frames in order, none skipped and none twice; unless
      the worker was stopped, only the newest one can still be on its way. */
  lemma {:induction false} HandOffOrder(c: Config, s: State)
    requires Accepted(c) && Reachable(Threads(c), s)
    ensures forall i | 0 <= i < |s.received| :: s.received[i] == i
    ensures |s.received| <= s.queued
    ensures !s.workerStop ==> s.queued <= |s.received| + 1
    ensures !s.workerStop && s.ready.Some? ==> s.ready.value == |s.received|
  {
    ReachableInv(c, s);
    hide Count;
  }

  /** After a run that ended with the stream and without a failure, every queued frame
      was either presented or dropped as stale, and the frame count the final gate
      asks for is reached exactly when the whole stream was queued and none was stale. */
  lemma {:induction false} Drained(c: Config, s: State)
    requires Accepted(c) && Reachable(Threads(c), s) && s.main == Done(true) && !s.failed
    ensures s.queued == s.presented + s.stale && |s.received| == s.queued
    ensures s.inflight == 0 && s.ready.None?
    ensures s.presented == c.expected <==> s.queued == c.expected && s.stale == 0
  {
    ReachableInv(c, s);
    CountAll(s.places);
    hide Count;
  }

  /** A frame that was discarded, could not be rendered or was dropped at a stop makes
      the run fail. */
  lemma {:induction false} LossFails(c: Config, s: State)
    requires Accepted(c) && Reachable(Threads(c), s) && Count(s.places, Lost) > 0
    ensures s.failed || s.main == Join(false) || s.main == Done(false)
  {
    ReachableInv(c, s);
    hide Count;
  }

  /** A step that no failure is behind. */
  ghost predicate Benign(a: Action) {
    match a
    case StreamStep(arrival) => arrival.Sample? || arrival.Over?
    case InputFails => false
    case WorkerStep(o) => o.Good? || o.Late? || (o.Reported? && o.recorded)
    case MainStep(eos) => eos
  }

  /** The steps behind which a failure is: a sample without a stamp, an input that could
      not be scheduled, a report that was discarded or not recorded, and an error in
      presenting or dispatching. */
  ghost predicate Fails(hop: Hop<State, Action>) {
    match hop.action
    case StreamStep(arrival) => hop.state.stream.Next? && arrival.Stampless?
    case InputFails => true
    case WorkerStep(o) => o.Bad? || o.Discarded? || (o.Reported? && !o.recorded)
    case MainStep(_) => false
  }

  /** The steps that stop the worker: the end of the pipeline without the end of the
      stream, an error of its own, and a roundtrip after a failure anywhere. */
  ghost predicate Stops(hop: Hop<State, Action>) {
    match hop.action
    case WorkerStep(o) =>
      && !hop.state.worker.Drain?
      && (o.Bad? || (hop.state.worker.Roundtrip? && hop.state.failed && o.Good?))
    case MainStep(eos) => hop.state.main.Bus? && !eos
    case _ => false
  }

  lemma {:induction false} StepFlags(c: Config, s: State, a: Action)
    requires Enabled(c, s, a)
    ensures Apply(c, s, a).failed <==> s.failed || Fails(Hop(s, a))
    ensures Apply(c, s, a).workerStop <==> s.workerStop || Stops(Hop(s, a))
  {
    hide Moved;
  }

  /** A whole run, judged by what happened in it: the run has failed exactly when one
      of its steps was a failure, and the worker is stopped exactly when one stopped it. */
  lemma {:induction false} FailedExactly(c: Config, trace: seq<Hop<State, Action>>, s: State)
    requires IsTrace(Labelled(c), trace, s)
    ensures s.failed <==> exists i | 0 <= i < |trace| :: Fails(trace[i])
    ensures s.workerStop <==> exists i | 0 <= i < |trace| :: Stops(trace[i])
  {
    hide Enabled, Apply, Fails, Stops;
    if trace != [] {
      var n := |trace| - 1;
      StepFlags(c, trace[n].state, trace[n].action);
      FailedExactly(c, trace[..n], trace[n].state);
      assert trace == trace[..n] + [trace[n]] && trace[n] == Hop(trace[n].state, trace[n].action);
    }
  }

  /** Nothing fails, nothing is late and the stream does not end early. */
  ghost predicate Smooth(hop: Hop<State, Action>) {
    && Benign(hop.action) && hop.action != WorkerStep(Late)
    && !(hop.state.stream.Next? && hop.action == StreamStep(Over))
  }

  ghost predicate Going(c: Config, s: State) {
    && !s.failed && !s.workerStop && s.stale == 0 && s.main != Join(false) && s.main != Done(false)
    && (s.stream.Ended? ==> s.queued >= c.expected)
  }

  lemma {:induction false} StepKeepsGoing(c: Config, s: State, a: Action)
    requires Enabled(c, s, a) && Going(c, s) && Smooth(Hop(s, a))
    ensures Going(c, Apply(c, s, a))
  {
    hide Moved;
  }

  lemma {:induction false} SmoothGoesOn(c: Config, trace: seq<Hop<State, Action>>, s: State)
    requires IsTrace(Labelled(c), trace, s)
    requires forall i | 0 <= i < |trace| :: Smooth(trace[i])
    ensures Going(c, s)
  {
    hide Enabled, Apply, Smooth;
    if trace != [] {
      hide Going;
      var n := |trace| - 1;
      SmoothGoesOn(c, trace[..n], trace[n].state);
      assert Smooth(trace[n]) && trace[n] == Hop(trace[n].state, trace[n].action);
      StepKeepsGoing(c, trace[n].state, trace[n].action);
    }
  }

  /** A run in which nothing goes wrong passes the final gate: all expected frames have
      been presented, in whatever way the threads took turns. */
  lemma {:induction false} SmoothRunPasses(c: Config, trace: seq<Hop<State, Action>>, s: State)
    requires Accepted(c) && IsTrace(Labelled(c), trace, s) && s.main.Done?
    requires forall i | 0 <= i < |trace| :: Smooth(trace[i])
    ensures s.main == Done(true) && !s.failed && s.presented == c.expected && s.inflight == 0
  {
    SmoothGoesOn(c, trace, s);
    LabelsThreads(c);
    hide Labelled, Smooth;
    TraceReaches(Labelled(c), Threads(c), trace, s);
    ReachableInv(c, s);
    Drained(c, s);
    hide Count;
  }

  /** The worker submits a frame to the compositor. */
  ghost predicate Submits(hop: Hop<State, Action>) {
    hop.state.worker.Render? && hop.action == WorkerStep(Good)
  }

  /** Where the worker is once it has submitted a frame of a run that has failed. */
  ghost predicate Stopping(s: State) {
    s.failed && (s.worker.Roundtrip? || s.worker.Drain? || s.worker.Gone?)
  }

  lemma {:induction false} StepKeepsStopping(c: Config, s: State, a: Action)
    requires c.async && Enabled(c, s, a)
    ensures Stopping(s) ==> Stopping(Apply(c, s, a)) && !Submits(Hop(s, a))
    ensures s.failed && Submits(Hop(s, a)) ==> Stopping(Apply(c, s, a))
    ensures s.failed ==> Apply(c, s, a).failed
  {
    hide Moved;
  }

  lemma {:induction false} StoppingAfter(c: Config, trace: seq<Hop<State, Action>>, s: State, j: nat)
    requires c.async && IsTrace(Labelled(c), trace, s) && j < |trace|
    requires trace[j].state.failed && Submits(trace[j])
    ensures Stopping(s)
  {
    hide Enabled, Apply, Submits, Stopping;
    var n := |trace| - 1;
    assert trace[n] == Hop(trace[n].state, trace[n].action);
    StepKeepsStopping(c, trace[n].state, trace[n].action);
    if j < n {
      StoppingAfter(c, trace[..n], trace[n].state, j);
    }
  }

  /** A failure in any thread stops the presentation: in the asynchronous modes at most
      one more frame is submitted after it. */
  lemma {:induction false} OneMoreFrame(c: Config, trace: seq<Hop<State, Action>>, s: State, j: nat, k: nat)
    requires c.async && IsTrace(Labelled(c), trace, s) && j < k < |trace|
    requires trace[j].state.failed && Submits(trace[j])
    ensures !Submits(trace[k])
    decreases |trace|
  {
    hide Enabled, Apply, Submits, Stopping;
    var n := |trace| - 1;
    if k < n {
      OneMoreFrame(c, trace[..n], trace[n].state, j, k);
    } else {
      StoppingAfter(c, trace[..n], trace[n].state, j);
      assert trace[n] == Hop(trace[n].state, trace[n].action);
      StepKeepsStopping(c, trace[n].state, trace[n].action);
    }
  }

  lemma {:induction false} StepAfterStop(c: Config, s: State, a: Action)
    requires Enabled(c, s, a) && s.workerStop
    ensures Apply(c, s, a).workerStop && Apply(c, s, a).received == s.received && Apply(c, s, a).queued == s.queued
  {
    hide Moved;
  }

  /** Once the worker is stopped no frame is queued any more and none is taken. */
  lemma {:induction false} NothingAfterStop(c: Config, trace: seq<Hop<State, Action>>, s: State, j: nat)
    requires IsTrace(Labelled(c), trace, s) && j < |trace| && trace[j].state.workerStop
    ensures s.workerStop && s.received == trace[j].state.received && s.queued == trace[j].state.queued
    decreases |trace|
  {
    hide Enabled, Apply;
    var n := |trace| - 1;
    if j < n {
      NothingAfterStop(c, trace[..n], trace[n].state, j);
    }
    StepAfterStop(c, trace[n].state, trace[n].action);
  }

  lemma {:induction false} Move(c: Config, s: State, a: Action) returns (t: State)
    requires Reachable(Threads(c), s) && Enabled(c, s, a)
    ensures t == Apply(c, s, a) && Reachable(Threads(c), t)
  {
    t := Apply(c, s, a);
    assert Step(c, s, t);
    Extend(Threads(c), s, t);
  }

  /** The limit can be used up: as many frames as it allows may be in flight at once. */
  lemma {:induction false} LimitReached(c: Config, k: nat) returns (s: State)
    requires Accepted(c) && c.async && k <= c.limit && k < c.expected
    ensures Reachable(Threads(c), s) && s.inflight == s.queued == k
    ensures s.stream == Next && s.worker == Idle && s.ready == None && !s.failed && !s.workerStop
  {
    hide Moved;
    if k == 0 {
      s := State(Next, Idle, Bus, None, 0, 0, 0, 0, 0, false, false, false, [], []);
      Start(Threads(c), s);
    } else {
      s := LimitReached(c, k - 1);
      s := Move(c, s, StreamStep(Sample));
      s := Move(c, s, StreamStep(Sample));
      s := Move(c, s, WorkerStep(Good));
      s := Move(c, s, WorkerStep(Good));
      s := Move(c, s, WorkerStep(Good));
      s := Move(c, s, WorkerStep(Good));
    }
  }

  /** Until main is done some thread can move, without anything failing, provided the
      compositor reports on the frames in flight. */
  lemma {:induction false} Progress(c: Config, s: State)
    requires Accepted(c) && Reachable(Threads(c), s) && !s.main.Done?
    ensures exists a: Action :: Benign(a) && Enabled(c, s, a)
  {
    ReachableInv(c, s);
    hide Count;
    if s.stream.Next? {
      assert Enabled(c, s, StreamStep(Over));
    } else if s.stream.HandOff? && (s.ready.None? || s.workerStop) {
      assert Enabled(c, s, StreamStep(Over));
    } else if s.main.Bus? && s.stream.Ended? {
      assert Enabled(c, s, MainStep(true));
    } else if s.worker.Gone? {
      assert Enabled(c, s, MainStep(true));
    } else if s.inflight > 0 && (s.worker.Drain? || s.worker.Throttle?) && Count(s.places, InFlight) > 0 {
      var frame := FindOne(s.places, InFlight);
      if Full(c, s) || s.worker.Drain? {
        assert Enabled(c, s, WorkerStep(Reported(frame, true)));
      } else {
        assert Enabled(c, s, WorkerStep(Good));
      }
    } else {
      assert Enabled(c, s, WorkerStep(Good));
    }
  }

  ghost function Work(c: Config, s: State): int {
    10 * (c.expected - s.queued)
    + (match s.stream case Next => 2 case HandOff => 1 case Ended => 0)
    + (if s.ready.Some? then 8 else 0)
    + (match s.worker
       case Idle => 2 case Throttle(_) => 9 case Render(_) => 8 case Feedback(_) => 7
       case Roundtrip => 6 case Drain => 1 case Gone => 0)
    + s.inflight
    + (match s.main case Bus => 2 case Join(_) => 1 case Done(_) => 0)
    + (c.inputs - s.dropped)
  }

  ghost function Rank(c: Config): State -> nat {
    s => if Work(c, s) >= 0 then Work(c, s) else 0
  }

  lemma {:induction false} StreamAdvances(c: Config, s: State, arrival: Arrival)
    requires Bounds(c, s) && Enabled(c, s, StreamStep(arrival))
    ensures 0 <= Work(c, StreamNext(c, s, arrival)) < Work(c, s)
  {
  }

  lemma {:induction false} ReportAdvances(c: Config, s: State, o: Outcome)
    requires Bounds(c, s) && (o.Reported? || o.Discarded?) && Flying(s, o.frame)
    ensures 0 <= Work(c, Report(s, o)) < Work(c, s)
  {
  }

  lemma {:induction false} TakeAdvances(c: Config, s: State)
    requires Bounds(c, s) && s.worker.Idle?
    ensures 0 <= Work(c, Take(s)) < Work(c, s)
  {
  }

  lemma {:induction false} HolderAdvances(c: Config, s: State, o: Outcome)
    requires Bounds(c, s) && Enabled(c, s, WorkerStep(o)) && Holding(s.worker) && !o.Reported? && !o.Discarded?
    ensures 0 <= Work(c, WorkerNext(c, s, o)) < Work(c, s)
  {
    hide Moved, Report, Take, Dispatching;
  }

  lemma {:induction false} WorkerAdvances(c: Config, s: State, o: Outcome)
    requires Bounds(c, s) && Enabled(c, s, WorkerStep(o))
    ensures 0 <= Work(c, WorkerNext(c, s, o)) < Work(c, s)
  {
    if o.Reported? || o.Discarded? {
      ReportAdvances(c, s, o);
      hide *;
    } else if s.worker.Idle? {
      TakeAdvances(c, s);
      hide *;
    } else if Holding(s.worker) {
      HolderAdvances(c, s, o);
      hide *;
    } else {
      hide Report, Take, Dispatching;
    }
  }

  lemma {:induction false} StepAdvances(c: Config, s: State, a: Action)
    requires Bounds(c, s) && Enabled(c, s, a)
    ensures Rank(c)(Apply(c, s, a)) < Rank(c)(s)
  {
    match a {
      case StreamStep(arrival) =>
        StreamAdvances(c, s, arrival);
        hide Work, StreamNext;
      case InputFails =>
      case WorkerStep(o) =>
        WorkerAdvances(c, s, o);
        hide Work, WorkerNext;
      case MainStep(eos) =>
    }
  }

  /** Every run ends. */
  lemma {:induction false} Termination(c: Config, run: seq<State>)
    requires Accepted(c) && IsRun(Threads(c), run)
    ensures |run| <= 10 * c.expected + c.inputs + 7
  {
    InvIsInductive(c);
    forall s, t | Inv(c, s) && Threads(c).next(s, t) ensures Rank(c)(t) < Rank(c)(s) {
      hide Counters, Order, Flow, Enabled, Apply;
      var a :| Enabled(c, s, a) && t == Apply(c, s, a);
      StepAdvances(c, s, a);
    }
    RankBounds(Threads(c), s => Inv(c, s), Rank(c), run, |run| - 1);
  }

  // ------------------------------------------- the state the threads change in place

  class Client {
    const config: Config
    var stream: Stream
    var worker: Worker
    var main: Main
    var readySample: Option<nat>
    var queued: nat
    var presented: nat
    var staleFramesDropped: nat
    var asyncInflight: nat
    var inputsDropped: nat
    var failed: bool
    var producerDone: bool
    var workerStop: bool
    ghost var received: seq<nat>
    ghost var places: seq<Place>

    ghost function View(): State
      reads this
    {
      State(stream, worker, main, readySample, queued, presented, staleFramesDropped, asyncInflight,
            inputsDropped, failed, producerDone, workerStop, received, places)
    }

    constructor (config: Config)
      ensures this.config == config && Init(View())
    {
      this.config := config;
      stream, worker, main, readySample := Next, Idle, Bus, None;
      queued, presented, staleFramesDropped, asyncInflight, inputsDropped := 0, 0, 0, 0, 0;
      failed, producerDone, workerStop := false, false, false;
      received, places := [], [];
    }

    method OnNewSample(arrival: Arrival)
      requires Enabled(config, View(), StreamStep(arrival))
      modifies this
      ensures View() == StreamNext(config, old(View()), arrival)
    {
      match stream {
        case Next =>
          match arrival {
            case Sample => stream := HandOff;
            case Stampless => stream, failed := Ended, true;
            case Over => stream := Ended;
          }
        case HandOff =>
          if workerStop {
            stream := Ended;
          } else {
            readySample := Some(queued);
            queued := queued + 1;
            places := places + [Ready];
            stream := if queued >= config.expected then Ended else Next;
          }
        case Ended =>
      }
    }

    /** The failing sleep in on_decoder_input. */
    method OnInputFailed()
      requires Enabled(config, View(), InputFails)
      modifies `failed, `inputsDropped
      ensures View() == Apply(config, old(View()), InputFails)
    {
      failed := true;
      inputsDropped := inputsDropped + 1;
    }

    method OnReport(o: Outcome)
      requires (o.Reported? || o.Discarded?) && asyncInflight > 0
      modifies this
      ensures View() == Report(old(View()), o)
    {
      if o.Discarded? {
        failed := true;
      } else {
        if !o.recorded {
          failed := true;
        }
        presented := presented + 1;
      }
      asyncInflight := asyncInflight - 1;
      places := Moved(places, o.frame, if o.Discarded? then Lost else Presented);
    }

    method Reject()
      modifies `failed, `workerStop, `worker
      ensures View() == Fail(old(View()))
    {
      failed := true;
      workerStop := true;
      worker := Drain;
    }

    method TakeSample()
      requires worker.Idle?
      modifies this
      ensures View() == Take(old(View()))
    {
      if workerStop {
        places := if readySample.Some? then Moved(places, readySample.value, Lost) else places;
        readySample, worker := None, Drain;
      } else if readySample.None? {
        worker := Drain;
      } else {
        var frame := readySample.value;
        readySample, worker := None, Throttle(frame);
        received, places := received + [frame], Moved(places, frame, Processing);
      }
    }

    method PresentationWorker(o: Outcome)
      requires Enabled(config, View(), WorkerStep(o))
      modifies this
      ensures View() == WorkerNext(config, old(View()), o)
    {
      hide Moved, Report, Take;
      if o.Reported? || o.Discarded? {
        OnReport(o);
        return;
      }
      match worker {
        case Idle => TakeSample();
        case Throttle(frame) =>
          if o.Bad? {
            places := Moved(places, frame, Lost);
            Reject();
          } else if o.Late? {
            staleFramesDropped := staleFramesDropped + 1;
            places, worker := Moved(places, frame, Stale), Idle;
          } else {
            worker := Render(frame);
          }
        case Render(frame) =>
          if o.Bad? {
            places := Moved(places, frame, Lost);
            Reject();
          } else if config.async {
            asyncInflight := asyncInflight + 1;
            places, worker := Moved(places, frame, InFlight), Roundtrip;
          } else {
            worker := Feedback(frame);
          }
        case Feedback(frame) =>
          if o.Bad? {
            places := Moved(places, frame, Lost);
            Reject();
          } else {
            presented := presented + 1;
            places, worker := Moved(places, frame, Presented), Idle;
          }
        case Roundtrip =>
          if o.Bad? || failed {
            Reject();
          } else {
            worker := Idle;
          }
        case Drain =>
          if o.Bad? {
            failed := true;
          }
          worker := Gone;
        case Gone =>
      }
    }

    method MainThread(eos: bool)
      requires Enabled(config, View(), MainStep(eos))
      modifies this
      ensures View() == MainNext(old(View()), eos)
    {
      match main {
        case Bus =>
          producerDone := true;
          if !eos {
            workerStop := true;
          }
          main := Join(eos);
        case Join(reached) => main := Done(reached);
        case Done(_) =>
      }
    }
  }
}
