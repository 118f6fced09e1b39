/** The clock snapshot the microphone probe driver publishes under a sequence
    counter and the tone source reads without a lock. Every atomic load and store
    is one step of a sequentially consistent interleaving. */
module ClockSnapshot {
  import opened Transitions

  const WORDS: nat := 0x1_0000_0000_0000_0000

  datatype Clock = Clock(anchor: nat, seed: nat, running: bool)

  /** Which of its five stores the publisher performs next. */
  datatype Publisher = Begin | StoreAnchor | StoreSeed | StoreRunning | End

  /** Which of its loads the reader performs next. */
  datatype Reader = LoadBefore | LoadAnchor | LoadSeed | LoadRunning | LoadAfter

  /** `shared` is the memory both sides see. The rest of the second line is local
      to the reader. `stores` counts counter increments without wrap-around,
      `published` lists the clocks published so far and `accepted` the reader's
      results, each with the publication it started from. */
  datatype State = State(
    publisher: Publisher, sequence: nat, shared: Clock,
    reader: Reader, before: nat, snapshot: Clock,
    stores: nat, started: nat, published: seq<Clock>, accepted: seq<(nat, Clock)>)

  ghost predicate Init(s: State) {
    && s.publisher == Begin && s.reader == LoadBefore
    && s.sequence == 0 && s.shared == Clock(0, 0, false)
    && s.stores == 0 && s.started == 0
    && s.published == [s.shared] && s.accepted == []
  }

  /** The publisher copies whatever clock its driver holds at that moment. */
  datatype Action = Publish(driver: Clock) | Read

  function PublisherNext(s: State, driver: Clock): State {
    match s.publisher
    case Begin => s.(publisher := StoreAnchor, sequence := (s.sequence + 1) % WORDS, stores := s.stores + 1)
    case StoreAnchor => s.(publisher := StoreSeed, shared := s.shared.(anchor := driver.anchor))
    case StoreSeed => s.(publisher := StoreRunning, shared := s.shared.(seed := driver.seed))
    case StoreRunning => s.(publisher := End, shared := s.shared.(running := driver.running))
    case End =>
      s.(publisher := Begin, sequence := (s.sequence + 1) % WORDS, stores := s.stores + 1,
         published := s.published + [s.shared])
  }

  /** The reader gives up on an odd counter and on a counter that moved. */
  predicate Accepts(s: State) {
    s.reader.LoadAfter? && s.before == s.sequence
  }

  function ReaderNext(s: State): State {
    match s.reader
    case LoadBefore =>
      if s.sequence % 2 == 1 then s else s.(reader := LoadAnchor, before := s.sequence, started := s.stores)
    case LoadAnchor => s.(reader := LoadSeed, snapshot := s.snapshot.(anchor := s.shared.anchor))
    case LoadSeed => s.(reader := LoadRunning, snapshot := s.snapshot.(seed := s.shared.seed))
    case LoadRunning => s.(reader := LoadAfter, snapshot := s.snapshot.(running := s.shared.running))
    case LoadAfter =>
      if Accepts(s) then s.(reader := LoadBefore, accepted := s.accepted + [(s.started / 2, s.snapshot)])
      else s.(reader := LoadBefore)
  }

  function Apply(s: State, a: Action): State {
    match a
    case Publish(driver) => PublisherNext(s, driver)
    case Read => ReaderNext(s)
  }

  ghost predicate Next(s: State, t: State) {
    exists a: Action :: t == Apply(s, a)
  }

  ghost function Interleaving(): System<State> {
    System(s => Init(s), (s, t) => Next(s, t))
  }

  ghost function Last(s: State): Clock
    requires s.published != []
  {
    s.published[|s.published| - 1]
  }

  ghost predicate PublisherInv(s: State) {
    && s.published != [] && s.sequence == s.stores % WORDS
    && s.stores == 2 * (|s.published| - 1) + (if s.publisher.Begin? then 0 else 1)
    && (s.publisher.Begin? ==> s.shared == Last(s))
  }

  /** What the reader has loaded is the current publication as long as no store to
      the counter came in between. */
  ghost predicate ReaderInv(s: State) {
    !s.reader.LoadBefore? ==>
      && s.started <= s.stores && s.started % 2 == 0 && s.before == s.started % WORDS
      && (s.stores == s.started && s.published != [] ==>
            && (!s.reader.LoadAnchor? ==> s.snapshot.anchor == Last(s).anchor)
            && (s.reader.LoadRunning? || s.reader.LoadAfter? ==> s.snapshot.seed == Last(s).seed)
            && (s.reader.LoadAfter? ==> s.snapshot.running == Last(s).running))
  }

  /** As long as the counter has not wrapped, every accepted snapshot is one whole
      publication and the reader never goes back to an older one. */
  ghost predicate Accepted(s: State) {
    s.stores < WORDS ==>
      && (forall i | 0 <= i < |s.accepted| ::
            s.accepted[i].0 < |s.published| && s.accepted[i].1 == s.published[s.accepted[i].0])
      && (forall i, j | 0 <= i < j < |s.accepted| :: s.accepted[i].0 <= s.accepted[j].0)
      && (forall i | 0 <= i < |s.accepted| && !s.reader.LoadBefore? :: s.accepted[i].0 <= s.started / 2)
      && (forall i | 0 <= i < |s.accepted| :: 2 * s.accepted[i].0 <= s.stores)
  }

  ghost predicate Inv(s: State) {
    PublisherInv(s) && ReaderInv(s) && Accepted(s)
  }

  lemma {:induction false} PublisherKeepsInv(s: State, driver: Clock)
    requires Inv(s)
    ensures Inv(PublisherNext(s, driver))
  {
    var t := PublisherNext(s, driver);
    assert PublisherInv(t) by {
      hide Accepted, ReaderInv;
      CountedOn(s.stores);
      assert s.publisher.End? ==> Last(t) == s.shared;
    }
    assert ReaderInv(t) by {
      hide Accepted;
      assert t.reader == s.reader && t.started == s.started && t.before == s.before && t.snapshot == s.snapshot;
      assert t.stores == s.stores ==> t.published == s.published;
    }
    assert Accepted(t) by {
      hide ReaderInv;
      assert t.accepted == s.accepted && t.reader == s.reader && t.started == s.started;
      assert s.published <= t.published;
    }
  }

  lemma {:induction false} CountedOn(n: nat)
    ensures (n % WORDS + 1) % WORDS == (n + 1) % WORDS
  {
  }

  lemma {:induction false} Even(n: nat)
    ensures n % WORDS % 2 == n % 2
  {
  }

  /** The decision is right: unless the counter wrapped during this one read, the
      reader accepts exactly when no publication began or ended during it, and then
      its triple is the publication that was current the whole time. */
  lemma {:induction false} Decision(s: State)
    requires PublisherInv(s) && ReaderInv(s) && s.reader.LoadAfter?
    requires s.stores - s.started < WORDS
    ensures Accepts(s) <==> s.stores == s.started
    ensures Accepts(s) ==> s.started / 2 == |s.published| - 1 && s.snapshot == Last(s)
  {
    if s.started < s.stores {
      DistinctResidues(s.started, s.stores - s.started);
    }
  }

  lemma {:induction false} DistinctResidues(a: nat, d: nat)
    requires 0 < d < WORDS
    ensures a % WORDS != (a + d) % WORDS
  {
  }

  lemma {:induction false} ReaderKeepsInv(s: State)
    requires Inv(s)
    ensures Inv(ReaderNext(s))
  {
    Even(s.stores);
    if s.reader.LoadAfter? && s.stores < WORDS {
      Decision(s);
    }
  }

  lemma InvIsInductive()
    ensures Inductive(Interleaving(), s => Inv(s))
  {
    forall s, t | Inv(s) && Next(s, t) ensures Inv(t) {
      hide Inv, PublisherNext, ReaderNext;
      var a: Action :| t == Apply(s, a);
      match a {
        case Publish(driver) => PublisherKeepsInv(s, driver);
        case Read => ReaderKeepsInv(s);
      }
    }
  }

  /** Seqlock safety for one read, wrap-around included. */
  lemma {:induction false} NoTornSnapshot(s: State)
    requires Reachable(Interleaving(), s) && s.reader.LoadAfter? && s.stores - s.started < WORDS
    ensures Accepts(s) <==> s.stores == s.started
    ensures Accepts(s) ==> s.started / 2 == |s.published| - 1 && s.snapshot == Last(s)
  {
    InvIsInductive();
    Invariance(Interleaving(), s => Inv(s), s);
    Decision(s);
  }

  /** Over a whole run: every snapshot ever accepted is the triple of one single
      publication, and later snapshots never come from earlier publications. */
  lemma {:induction false} AcceptedSnapshots(s: State)
    requires Reachable(Interleaving(), s) && s.stores < WORDS
    ensures forall i | 0 <= i < |s.accepted| ::
              s.accepted[i].0 < |s.published| && s.accepted[i].1 == s.published[s.accepted[i].0]
    ensures forall i, j | 0 <= i < j < |s.accepted| :: s.accepted[i].0 <= s.accepted[j].0
  {
    InvIsInductive();
    Invariance(Interleaving(), s => Inv(s), s);
  }

  // ------------------------------------------------- what the driver gave

  /** The same steps, each with the action it is taken by. */
  ghost function Labelled(): Machine<State, Action> {
    Machine(s => Init(s), (s, a, t) => t == Apply(s, a))
  }

  lemma {:induction false} LabelsInterleaving()
    ensures Labels(Labelled(), Interleaving())
  {
    hide Apply;
    forall s, t ensures Interleaving().next(s, t) <==> exists a: Action :: Labelled().step(s, a, t) {
      if Next(s, t) {
        var a: Action :| t == Apply(s, a);
        assert Labelled().step(s, a, t);
      }
    }
  }

  /** The clocks the driver held at the publisher's steps, one for each step. */
  ghost function Given(trace: seq<Hop<State, Action>>): seq<Clock> {
    if trace == [] then []
    else
      var n := |trace| - 1;
      Given(trace[..n]) + (if trace[n].action.Publish? then [trace[n].action.driver] else [])
  }

  /** Publication k: five steps each, of which the second, third and fourth store. */
  ghost predicate Copied(clock: Clock, given: seq<Clock>, k: nat) {
    && 1 <= k && 5 * k <= |given|
    && clock.anchor == given[5 * k - 4].anchor
    && clock.seed == given[5 * k - 3].seed
    && clock.running == given[5 * k - 2].running
  }

  ghost function Stores(p: Publisher): nat {
    match p
    case Begin => 0
    case StoreAnchor => 1
    case StoreSeed => 2
    case StoreRunning => 3
    case End => 4
  }

  ghost predicate CopiesInv(s: State, given: seq<Clock>) {
    var done := Stores(s.publisher);
    && s.published != [] && s.published[0] == Clock(0, 0, false)
    && |given| == 5 * (|s.published| - 1) + done
    && (forall k | 1 <= k < |s.published| :: Copied(s.published[k], given, k))
    && var next := 5 * (|s.published| - 1);
       && (done >= 2 ==> s.shared.anchor == given[next + 1].anchor)
       && (done >= 3 ==> s.shared.seed == given[next + 2].seed)
       && (done >= 4 ==> s.shared.running == given[next + 3].running)
  }

  lemma {:induction false} PublisherCopies(s: State, given: seq<Clock>, driver: Clock)
    requires CopiesInv(s, given)
    ensures CopiesInv(PublisherNext(s, driver), given + [driver])
  {
    var t, more := PublisherNext(s, driver), given + [driver];
    forall k | 1 <= k < |s.published| ensures Copied(s.published[k], more, k) {
      assert Copied(s.published[k], given, k);
    }
  }

  lemma {:induction false} ReaderLeaves(s: State)
    ensures ReaderNext(s).publisher == s.publisher && ReaderNext(s).shared == s.shared
    ensures ReaderNext(s).published == s.published
  {
  }

  /** The publications are the driver's: each takes its anchor, its seed and its running
      flag from what the driver held at the three stores. */
  lemma {:induction false} PublishesTheDriver(trace: seq<Hop<State, Action>>, s: State)
    requires IsTrace(Labelled(), trace, s)
    ensures |s.published| == 1 + |Given(trace)| / 5 && s.published[0] == Clock(0, 0, false)
    ensures forall k | 1 <= k < |s.published| :: Copied(s.published[k], Given(trace), k)
  {
    Copies(trace, s);
  }

  lemma {:induction false} Copies(trace: seq<Hop<State, Action>>, s: State)
    requires IsTrace(Labelled(), trace, s)
    ensures CopiesInv(s, Given(trace))
  {
    if trace != [] {
      hide CopiesInv, PublisherNext, ReaderNext;
      var n := |trace| - 1;
      Copies(trace[..n], trace[n].state);
      match trace[n].action {
        case Publish(driver) => PublisherCopies(trace[n].state, Given(trace[..n]), driver);
        case Read =>
          ReaderLeaves(trace[n].state);
          SameCopies(trace[n].state, s, Given(trace[..n]));
      }
    }
  }

  lemma {:induction false} SameCopies(s: State, t: State, given: seq<Clock>)
    requires CopiesInv(s, given)
    requires t.publisher == s.publisher && t.shared == s.shared && t.published == s.published
    ensures CopiesInv(t, given)
  {
  }

  /** Every clock the reader has ever accepted is the initial one or one the driver
      held, in all three fields, at the stores of one publication. */
  lemma {:induction false} AcceptsTheDriver(trace: seq<Hop<State, Action>>, s: State)
    requires IsTrace(Labelled(), trace, s) && s.stores < WORDS
    ensures forall i | 0 <= i < |s.accepted| ::
              s.accepted[i].1 == Clock(0, 0, false) || Copied(s.accepted[i].1, Given(trace), s.accepted[i].0)
  {
    PublishesTheDriver(trace, s);
    LabelsInterleaving();
    hide Copied, Labelled;
    TraceReaches(Labelled(), Interleaving(), trace, s);
    AcceptedSnapshots(s);
  }

  /** How many of the reader's steps were of this kind. */
  ghost function Count(trace: seq<Hop<State, Action>>, kind: Hop<State, Action> -> bool): nat {
    if trace == [] then 0
    else
      var n := |trace| - 1;
      Count(trace[..n], kind) + (if trace[n].action == Read && kind(trace[n]) then 1 else 0)
  }

  ghost predicate Refused(hop: Hop<State, Action>) {
    hop.state.reader == LoadBefore && hop.state.sequence % 2 == 1
  }

  ghost predicate Finished(hop: Hop<State, Action>) {
    hop.state.reader == LoadAfter
  }

  ghost function Loads(r: Reader): nat {
    match r
    case LoadBefore => 0
    case LoadAnchor => 1
    case LoadSeed => 2
    case LoadRunning => 3
    case LoadAfter => 4
  }

  /** Whatever the publisher does, a read takes one load if it is refused at once and
      five if not, and then it is over: the reader never waits. */
  lemma {:induction false} ReadsAreBounded(trace: seq<Hop<State, Action>>, s: State)
    requires IsTrace(Labelled(), trace, s)
    ensures Count(trace, _ => true) == Count(trace, Refused) + 5 * Count(trace, Finished) + Loads(s.reader)
  {
    if trace != [] {
      var n := |trace| - 1;
      ReadsAreBounded(trace[..n], trace[n].state);
    }
  }

  ghost function PublishAll(s: State, driver: Clock): State {
    PublisherNext(PublisherNext(PublisherNext(PublisherNext(PublisherNext(s, driver), driver), driver), driver), driver)
  }

  ghost function ReadAll(s: State): State {
    ReaderNext(ReaderNext(ReaderNext(ReaderNext(ReaderNext(s)))))
  }

  /** A publication and a read one after the other: the reader has the driver's clock. */
  lemma {:induction false} ReadAfterPublish(s: State, driver: Clock)
    requires Reachable(Interleaving(), s) && s.publisher == Begin && s.reader == LoadBefore
    ensures var t := ReadAll(PublishAll(s, driver));
            && t.published == s.published + [driver]
            && t.accepted == s.accepted + [(|s.published|, driver)]
            && t.publisher == Begin && t.reader == LoadBefore
  {
    CounterAt(s);
    AllPublished(s, driver);
    hide PublishAll, ReadAll;
    AllRead(PublishAll(s, driver));
  }

  lemma {:induction false} CounterAt(s: State)
    requires Reachable(Interleaving(), s) && s.publisher == Begin
    ensures ((s.sequence + 1) % WORDS + 1) % WORDS % 2 == 0 && s.published != []
    ensures s.stores == 2 * (|s.published| - 1)
  {
    InvIsInductive();
    Invariance(Interleaving(), s => Inv(s), s);
    hide ReaderInv, Accepted;
    CountedOn(s.stores);
    CountedOn(s.stores + 1);
    Even(s.stores + 2);
  }

  lemma {:induction false} AllPublished(s: State, driver: Clock)
    requires s.publisher == Begin
    ensures PublishAll(s, driver) == s.(sequence := ((s.sequence + 1) % WORDS + 1) % WORDS, stores := s.stores + 2,
                                        shared := driver, published := s.published + [driver])
  {
  }

  lemma {:induction false} AllRead(s: State)
    requires s.reader == LoadBefore && s.sequence % 2 == 0
    ensures ReadAll(s) == s.(before := s.sequence, started := s.stores, snapshot := s.shared,
                             accepted := s.accepted + [(s.stores / 2, s.shared)])
  {
  }

  /** The two sides in place: one method call is one atomic access. */
  class SharedClock {
    var publisher: Publisher
    var clockSequence: nat
    var anchor: nat
    var seed: nat
    var running: bool
    var reader: Reader
    var before: nat
    var snapshot: Clock
    ghost var stores: nat
    ghost var started: nat
    ghost var published: seq<Clock>
    ghost var accepted: seq<(nat, Clock)>

    ghost function View(): State
      reads this
    {
      State(publisher, clockSequence, Clock(anchor, seed, running), reader, before, snapshot,
            stores, started, published, accepted)
    }

    constructor ()
      ensures Init(View())
    {
      publisher, clockSequence, anchor, seed, running := Begin, 0, 0, 0, false;
      reader, before, snapshot := LoadBefore, 0, Clock(0, 0, false);
      stores, started, published, accepted := 0, 0, [Clock(0, 0, false)], [];
    }

    method PublisherAccess(driver: Clock)
      modifies this
      ensures View() == PublisherNext(old(View()), driver)
    {
      match publisher {
        case Begin =>
          clockSequence, stores := (clockSequence + 1) % WORDS, stores + 1;
          publisher := StoreAnchor;
        case StoreAnchor => anchor, publisher := driver.anchor, StoreSeed;
        case StoreSeed => seed, publisher := driver.seed, StoreRunning;
        case StoreRunning => running, publisher := driver.running, End;
        case End =>
          clockSequence, stores := (clockSequence + 1) % WORDS, stores + 1;
          published := published + [Clock(anchor, seed, running)];
          publisher := Begin;
      }
    }

    method ReaderAccess() returns (result: bool)
      modifies this
      ensures View() == ReaderNext(old(View())) && result == Accepts(old(View()))
    {
      result := false;
      match reader {
        case LoadBefore =>
          if clockSequence % 2 != 1 {
            before, started, reader := clockSequence, stores, LoadAnchor;
          }
        case LoadAnchor => snapshot, reader := snapshot.(anchor := anchor), LoadSeed;
        case LoadSeed => snapshot, reader := snapshot.(seed := seed), LoadRunning;
        case LoadRunning => snapshot, reader := snapshot.(running := running), LoadAfter;
        case LoadAfter =>
          result := before == clockSequence;
          if result {
            ghost var publication: nat := started / 2;
            accepted := accepted + [(publication, snapshot)];
          }
          reader := LoadBefore;
      }
    }
  }
}
