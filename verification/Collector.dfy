/** The part of collect-package.py behind the per-version lock: one version's directory,
    changed by one call at a time, any of which may be cut off between two effects. */
module Collector {
  import opened Transitions
  import opened Wrappers

  type Path = string
  type Content = string
  type Digest = string

  /** An entry of the manifest; `provenance` stands for its other fields. */
  datatype Record = Record(path: Path, sha256: Digest, provenance: string)

  /** The checked arguments of a call; `move` is set when the source is to be removed. */
  datatype Request = Request(source: Path, record: Record, move: bool)

  datatype Manifest = Absent | Alien | Listed(packages: seq<Record>)

  datatype Line = Line(sha256: Digest, path: Path)

  /** The files of the directory, and the sources elsewhere. */
  datatype Store = Store(sources: map<Path, Content>, packages: map<Path, Content>, signatures: map<Path, Digest>,
                         manifest: Manifest, sums: Option<seq<Line>>)

  /** Where a call stands; the lists are the manifest in the memory of the process. */
  datatype Phase =
    | Load
    | Inspect(packages: seq<Record>, known: bool)
    | Copy(packages: seq<Record>, known: bool)
    | Place(packages: seq<Record>, known: bool, copy: Content)
    | Sign(packages: seq<Record>)
    | Publish(packages: seq<Record>)
    | Sum(packages: seq<Record>)
    | Remove
    | Finished(ok: bool)

  // ---------------------------------------------------------- sorting by path

  predicate Before(a: Path, b: Path) {
    b != "" && (a == "" || a[0] < b[0] || (a[0] == b[0] && Before(a[1..], b[1..])))
  }

  lemma {:induction false} BeforeIsTotal(a: Path, b: Path)
    ensures a == b || Before(a, b) || Before(b, a)
    ensures !(Before(a, b) && Before(b, a)) && !Before(a, a)
  {
    if a != "" && b != "" {
      BeforeIsTotal(a[1..], b[1..]);
      assert a == [a[0]] + a[1..] && b == [b[0]] + b[1..];
    }
    if a != "" {
      BeforeIsTotal(a[1..], a[1..]);
    }
  }

  lemma {:induction false} BeforeIsTransitive(a: Path, b: Path, c: Path)
    requires Before(a, b) && Before(b, c)
    ensures Before(a, c)
  {
    if a != "" && a[0] == b[0] == c[0] {
      BeforeIsTransitive(a[1..], b[1..], c[1..]);
    }
  }

  /** The order of the strings: at the first difference, or at the end of the shorter. */
  lemma {:induction false} BeforeAtFirstDifference(a: Path, b: Path)
    ensures Before(a, b) <==>
              exists k | 0 <= k <= |a| && k < |b| :: a[..k] == b[..k] && (k < |a| ==> a[k] < b[k])
  {
    if b != "" && a != "" && a[0] == b[0] {
      var c, d := a[1..], b[1..];
      BeforeAtFirstDifference(c, d);
      if Before(c, d) {
        var k :| 0 <= k <= |c| && k < |d| && c[..k] == d[..k] && (k < |c| ==> c[k] < d[k]);
        assert a[..k + 1] == [a[0]] + c[..k] && b[..k + 1] == [b[0]] + d[..k];
      }
      if k :| 0 <= k <= |a| && k < |b| && a[..k] == b[..k] && (k < |a| ==> a[k] < b[k]) {
        assert k > 0;
        assert a[..k][1..] == c[..k - 1] && b[..k][1..] == d[..k - 1];
        assert k - 1 < |c| ==> c[k - 1] < d[k - 1];
      }
    } else if b != "" && (a == "" || a[0] < b[0]) {
      assert a[..0] == b[..0];
    } else if k :| 0 <= k <= |a| && k < |b| && a[..k] == b[..k] && (k < |a| ==> a[k] < b[k]) {
      if k > 0 {
        assert a[..k][0] == b[..k][0];
      }
    }
  }

  /** Stable insertion: behind everything that does not come after it. */
  function Insert(sorted: seq<Record>, r: Record): (s: seq<Record>)
    ensures |s| == |sorted| + 1
  {
    if sorted == [] || !Before(r.path, sorted[|sorted| - 1].path) then sorted + [r]
    else Insert(sorted[..|sorted| - 1], r) + [sorted[|sorted| - 1]]
  }

  /** packages.sort(key=path) */
  function Sort(packages: seq<Record>): (s: seq<Record>)
    ensures |s| == |packages|
  {
    if packages == [] then [] else Insert(Sort(packages[..|packages| - 1]), packages[|packages| - 1])
  }

  ghost predicate Sorted(packages: seq<Record>) {
    forall i, j | 0 <= i < j < |packages| :: Before(packages[i].path, packages[j].path)
  }

  lemma {:induction false} InsertSorts(sorted: seq<Record>, r: Record)
    requires Sorted(sorted) && forall p | p in sorted :: p.path != r.path
    ensures Sorted(Insert(sorted, r))
    ensures forall p :: p in Insert(sorted, r) <==> p in sorted || p == r
  {
    if sorted != [] {
      var n := |sorted| - 1;
      assert sorted == sorted[..n] + [sorted[n]];
      BeforeIsTotal(r.path, sorted[n].path);
      if Before(r.path, sorted[n].path) {
        InsertSorts(sorted[..n], r);
        forall p | p in Insert(sorted[..n], r) ensures Before(p.path, sorted[n].path) {
        }
      } else {
        forall i | 0 <= i < n ensures Before(sorted[i].path, r.path) {
          BeforeIsTransitive(sorted[i].path, sorted[n].path, r.path);
        }
      }
    }
  }

  lemma {:induction false} SortKeepsSorted(packages: seq<Record>)
    requires Sorted(packages)
    ensures Sort(packages) == packages
  {
    if packages != [] {
      var n := |packages| - 1;
      SortKeepsSorted(packages[..n]);
      if n > 0 {
        BeforeIsTotal(packages[n - 1].path, packages[n].path);
      }
      assert packages == packages[..n] + [packages[n]];
    }
  }

  // ----------------------------------------------------------------- the call

  function Find(packages: seq<Record>, path: Path): (r: Option<Record>)
    ensures r.Some? ==> r.value in packages && r.value.path == path
    ensures r.None? ==> forall p | p in packages :: p.path != path
  {
    if packages == [] then None
    else if packages[0].path == path then Some(packages[0])
    else Find(packages[1..], path)
  }

  function Entries(manifest: Manifest): seq<Record> {
    if manifest.Listed? then manifest.packages else []
  }

  /** The manifest as it will be written. */
  function Updated(packages: seq<Record>, known: bool, record: Record): seq<Record> {
    Sort(if known then packages else packages + [record])
  }

  function Project(packages: seq<Record>): (lines: seq<Line>)
    ensures |lines| == |packages|
    ensures forall i | 0 <= i < |lines| :: lines[i] == Line(packages[i].sha256, packages[i].path)
  {
    if packages == [] then []
    else [Line(packages[0].sha256, packages[0].path)] + Project(packages[1..])
  }

  /** One effect on the files, or one decision, of a call. */
  function Advance(h: Content -> Digest, st: Store, req: Request, phase: Phase): (Store, Phase) {
    var path, sha256 := req.record.path, req.record.sha256;
    match phase
    case Load =>
      var packages := Entries(st.manifest);
      var previous := Find(packages, path);
      if st.manifest.Alien? || (previous.Some? && previous.value != req.record) then (st, Finished(false))
      else (st, Inspect(packages, previous.Some?))
    case Inspect(packages, known) =>
      if path !in st.packages then (st, Copy(packages, known))
      else if h(st.packages[path]) != sha256 then (st, Finished(false))
      else (st, Sign(Updated(packages, known, req.record)))
    case Copy(packages, known) =>
      if req.source !in st.sources then (st, Finished(false))
      else (st, Place(packages, known, st.sources[req.source]))
    case Place(packages, known, copy) =>
      if h(copy) != sha256 then (st, Finished(false))
      else (st.(packages := st.packages[path := copy]), Sign(Updated(packages, known, req.record)))
    case Sign(packages) => (st.(signatures := st.signatures[path := sha256]), Publish(packages))
    case Publish(packages) => (st.(manifest := Listed(packages)), Sum(packages))
    case Sum(packages) => (st.(sums := Some(Project(packages))), if req.move then Remove else Finished(true))
    case Remove =>
      if req.source !in st.sources || h(st.sources[req.source]) != sha256 then (st, Finished(false))
      else (st.(sources := st.sources - {req.source}), Finished(true))
    case Finished(ok) => (st, phase)
  }

  function Left(phase: Phase): nat {
    match phase
    case Load => 8 case Inspect(_, _) => 7 case Copy(_, _) => 6 case Place(_, _, _) => 5
    case Sign(_) => 4 case Publish(_) => 3 case Sum(_) => 2 case Remove => 1 case Finished(_) => 0
  }

  /** The rest of a call that nothing interrupts. */
  function Complete(h: Content -> Digest, st: Store, req: Request, phase: Phase): (r: (Store, bool))
    decreases Left(phase)
  {
    if phase.Finished? then (st, phase.ok)
    else var (next, later) := Advance(h, st, req, phase); Complete(h, next, req, later)
  }

  // ------------------------------------------------------------- the directory

  datatype Call = Idle | Active(request: Request, phase: Phase)

  datatype State = State(store: Store, call: Call)

  ghost predicate Init(s: State) {
    !s.store.manifest.Listed? && s.call.Idle?
  }

  /** A call starts when the lock is free, having computed the digest of its source. */
  ghost predicate Begins(h: Content -> Digest, s: State, t: State, req: Request) {
    && (s.call.Idle? || s.call.phase.Finished?)
    && req.source in s.store.sources && h(s.store.sources[req.source]) == req.record.sha256
    && t == s.(call := Active(req, Load))
  }

  ghost predicate Advances(h: Content -> Digest, s: State, t: State) {
    && s.call.Active? && !s.call.phase.Finished?
    && var (store, phase) := Advance(h, s.store, s.call.request, s.call.phase);
       t == State(store, Active(s.call.request, phase))
  }

  ghost predicate Crashes(s: State, t: State) {
    t == s.(call := Idle)
  }

  /** Somebody else changes or removes sources. */
  ghost predicate Tampers(s: State, t: State) {
    t == s.(store := s.store.(sources := t.store.sources))
  }

  ghost predicate Next(h: Content -> Digest, s: State, t: State) {
    (exists req: Request :: Begins(h, s, t, req)) || Advances(h, s, t) || Crashes(s, t) || Tampers(s, t)
  }

  ghost function Directory(h: Content -> Digest): System<State> {
    System(s => Init(s), (s, t) => Next(h, s, t))
  }

  // ----------------------------------------------------------------- invariant

  /** The package of a record is in place, with its digest and its .sha256 file. */
  ghost predicate InPlace(h: Content -> Digest, st: Store, r: Record) {
    r.path in st.packages && h(st.packages[r.path]) == r.sha256
  }

  ghost predicate Signed(st: Store, r: Record) {
    r.path in st.signatures && st.signatures[r.path] == r.sha256
  }

  ghost predicate Consistent(h: Content -> Digest, st: Store) {
    && Sorted(Entries(st.manifest))
    && forall r | r in Entries(st.manifest) :: InPlace(h, st, r) && Signed(st, r)
  }

  ghost predicate Agrees(packages: seq<Record>, known: bool, record: Record) {
    var previous := Find(packages, record.path);
    && (known ==> previous == Some(record))
    && (!known ==> previous.None?)
  }

  ghost predicate PhaseInv(h: Content -> Digest, st: Store, req: Request, phase: Phase) {
    var r, entries := req.record, Entries(st.manifest);
    match phase
    case Load => true
    case Inspect(packages, known) => packages == entries && Agrees(packages, known, r) && !st.manifest.Alien?
    case Copy(packages, known) => packages == entries && !known && Agrees(packages, known, r) && !st.manifest.Alien?
        && r.path !in st.packages
    case Place(packages, known, _) => packages == entries && !known && Agrees(packages, known, r)
        && !st.manifest.Alien? && r.path !in st.packages
    case Sign(packages) => InPlace(h, st, r) && Prepared(packages, entries, r) && !st.manifest.Alien?
    case Publish(packages) => InPlace(h, st, r) && Signed(st, r) && Prepared(packages, entries, r)
        && !st.manifest.Alien?
    case Sum(packages) => st.manifest == Listed(packages) && r in packages
    case Remove => req.move && Concluded(st, r)
    case Finished(ok) => ok ==> Concluded(st, r)
  }

  /** The list about to be written: the old one, with the record in it. */
  ghost predicate Prepared(packages: seq<Record>, entries: seq<Record>, r: Record) {
    exists known: bool :: Agrees(entries, known, r) && packages == Updated(entries, known, r)
  }

  ghost predicate Concluded(st: Store, r: Record) {
    st.manifest.Listed? && r in st.manifest.packages && st.sums == Some(Project(st.manifest.packages))
  }

  ghost predicate Inv(h: Content -> Digest, s: State) {
    && Consistent(h, s.store)
    && (s.call.Active? ==> PhaseInv(h, s.store, s.call.request, s.call.phase))
  }

  lemma {:induction false} FindRecord(packages: seq<Record>, r: Record)
    requires Sorted(packages) && r in packages
    ensures Find(packages, r.path) == Some(r)
  {
    if packages[0] != r {
      var i :| 0 < i < |packages| && packages[i] == r;
      BeforeIsTotal(r.path, r.path);
      assert packages[1..][i - 1] == r;
      FindRecord(packages[1..], r);
    }
  }

  lemma {:induction false} PreparedSorts(packages: seq<Record>, entries: seq<Record>, r: Record)
    requires Sorted(entries) && Prepared(packages, entries, r)
    ensures Sorted(packages) && forall p :: p in packages <==> p in entries || p == r
  {
    var known: bool :| Agrees(entries, known, r) && packages == Updated(entries, known, r);
    SortKeepsSorted(entries);
    if !known {
      var longer := entries + [r];
      assert longer[..|longer| - 1] == entries;
      InsertSorts(entries, r);
    }
  }

  lemma {:induction false} AdvanceKeepsConsistent(h: Content -> Digest, st: Store, req: Request, phase: Phase)
    requires Consistent(h, st) && PhaseInv(h, st, req, phase)
    ensures Consistent(h, Advance(h, st, req, phase).0)
  {
    hide Find, Updated, Project;
    if phase.Publish? {
      PreparedSorts(phase.packages, Entries(st.manifest), req.record);
    }
  }

  lemma {:induction false} AdvanceKeepsPhase(h: Content -> Digest, st: Store, req: Request, phase: Phase)
    requires Consistent(h, st) && PhaseInv(h, st, req, phase)
    ensures PhaseInv(h, Advance(h, st, req, phase).0, req, Advance(h, st, req, phase).1)
  {
    hide Updated, Project;
    match phase {
      case Inspect(packages, known) =>
        assert Agrees(packages, known, req.record);
      case Place(packages, known, _) => assert Agrees(packages, known, req.record);
      case Publish(packages) => PreparedSorts(packages, Entries(st.manifest), req.record);
      case _ =>
    }
  }

  lemma {:induction false} InvIsInductive(h: Content -> Digest)
    ensures Inductive(Directory(h), s => Inv(h, s))
  {
    forall s, t | Inv(h, s) && Next(h, s, t) ensures Inv(h, t) {
      NextKeepsInv(h, s, t);
    }
  }

  lemma {:induction false} NextKeepsInv(h: Content -> Digest, s: State, t: State)
    requires Inv(h, s) && Next(h, s, t)
    ensures Inv(h, t)
  {
    if Advances(h, s, t) {
      AdvanceKeepsConsistent(h, s.store, s.call.request, s.call.phase);
      AdvanceKeepsPhase(h, s.store, s.call.request, s.call.phase);
      hide Advance, Consistent, PhaseInv;
    } else {
      hide Advance, Find, Updated, Project;
      if Tampers(s, t) {
        SourcesDoNotMatter(h, s, t);
      }
    }
  }

  lemma {:induction false} SourcesDoNotMatter(h: Content -> Digest, s: State, t: State)
    requires Inv(h, s) && Tampers(s, t)
    ensures Inv(h, t)
  {
    hide Find, Updated, Project;
  }

  lemma {:induction false} ReachableInv(h: Content -> Digest, s: State)
    requires Reachable(Directory(h), s)
    ensures Inv(h, s)
  {
    InvIsInductive(h);
    Invariance(Directory(h), s => Inv(h, s), s);
  }

  // ---------------------------------------------------------------- theorems

  /** At every moment, even right after a crash, every manifest entry's package and
      .sha256 file are in place with the digest of the entry, and paths are unique. */
  lemma {:induction false} EntriesInPlace(h: Content -> Digest, s: State, r: Record, p: Record)
    requires Reachable(Directory(h), s) && r in Entries(s.store.manifest)
    ensures r.path in s.store.packages && h(s.store.packages[r.path]) == r.sha256
    ensures r.path in s.store.signatures && s.store.signatures[r.path] == r.sha256
    ensures p in Entries(s.store.manifest) && p.path == r.path ==> p == r
  {
    ReachableInv(h, s);
    if p in Entries(s.store.manifest) && p.path == r.path {
      FindRecord(Entries(s.store.manifest), r);
      FindRecord(Entries(s.store.manifest), p);
    }
  }

  /** What t still has of s. */
  ghost predicate Extends(s: Store, t: Store) {
    && (forall r | r in Entries(s.manifest) :: r in Entries(t.manifest))
    && (forall path | path in s.packages :: path in t.packages && t.packages[path] == s.packages[path])
  }

  lemma {:induction false} AdvanceExtends(h: Content -> Digest, st: Store, req: Request, phase: Phase)
    requires Consistent(h, st) && PhaseInv(h, st, req, phase)
    ensures Extends(st, Advance(h, st, req, phase).0)
  {
    hide Find, Updated, Project;
    if phase.Publish? {
      PreparedSorts(phase.packages, Entries(st.manifest), req.record);
    }
  }

  lemma {:induction false} NextExtends(h: Content -> Digest, s: State, t: State)
    requires Inv(h, s) && Next(h, s, t)
    ensures Extends(s.store, t.store)
  {
    if Advances(h, s, t) {
      AdvanceExtends(h, s.store, s.call.request, s.call.phase);
      hide Advance, Inv;
    }
  }

  lemma {:induction false} ExtendsFurther(s: Store, t: Store, u: Store)
    requires Extends(s, t) && Extends(t, u)
    ensures Extends(s, u)
  {
  }

  /** No call, no crash and no sequence of them ever takes a record out of the manifest,
      changes its digest or provenance, or changes a package that is in place. */
  lemma {:induction false} Immutable(h: Content -> Digest, run: seq<State>, i: nat, j: nat)
    requires IsRun(Directory(h), run) && i <= j < |run|
    ensures Extends(run[i].store, run[j].store)
    decreases j - i
  {
    if i < j {
      hide *;
      Immutable(h, run, i, j - 1);
      StepExtends(h, run, j - 1);
      ExtendsFurther(run[i].store, run[j - 1].store, run[j].store);
    } else {
      hide Inv, Next;
    }
  }

  lemma {:induction false} StepExtends(h: Content -> Digest, run: seq<State>, i: nat)
    requires IsRun(Directory(h), run) && i + 1 < |run|
    ensures Extends(run[i].store, run[i + 1].store)
  {
    hide Inv, Extends, Next;
    InvIsInductive(h);
    HoldsAlong(Directory(h), s => Inv(h, s), run, i);
    assert Directory(h).next(run[i], run[i + 1]);
    NextExtends(h, run[i], run[i + 1]);
  }

  /** The record of a path is the same whenever there is one. */
  lemma {:induction false} RecordsNeverChange(h: Content -> Digest, run: seq<State>, i: nat, j: nat, r: Record,
                                              p: Record)
    requires IsRun(Directory(h), run) && i <= j < |run|
    requires r in Entries(run[i].store.manifest) && p in Entries(run[j].store.manifest) && r.path == p.path
    ensures p == r
  {
    Immutable(h, run, i, j);
    InvIsInductive(h);
    HoldsAlong(Directory(h), s => Inv(h, s), run, j);
    var entries := Entries(run[j].store.manifest);
    assert r in entries;
    FindRecord(entries, r);
    FindRecord(entries, p);
  }

  /** When a call succeeds its record is in the manifest, and SHA256SUMS is exactly the
      manifest's list of digests and paths, in the order of the paths. */
  lemma {:induction false} Completed(h: Content -> Digest, s: State)
    requires Reachable(Directory(h), s) && s.call.Active? && s.call.phase == Finished(true)
    ensures var entries := Entries(s.store.manifest);
            && s.call.request.record in entries && Sorted(entries)
            && s.store.sums == Some(Project(entries))
  {
    ReachableInv(h, s);
  }

  /** A source is removed only when the bytes removed have the digest of a package that
      is in place and recorded. */
  lemma {:induction false} NothingLostByMoving(h: Content -> Digest, s: State, t: State)
    requires Reachable(Directory(h), s) && Advances(h, s, t)
    requires s.store.sources != t.store.sources
    ensures var req := s.call.request;
            && req.source in s.store.sources && t.store.sources == s.store.sources - {req.source}
            && req.record in Entries(s.store.manifest) && req.record.path in s.store.packages
            && h(s.store.packages[req.record.path]) == h(s.store.sources[req.source])
  {
    ReachableInv(h, s);
    hide Find, Updated, Project;
    assert InPlace(h, s.store, s.call.request.record);
  }

  /** What an uninterrupted call does, in the terms of its files: it succeeds exactly if
      the manifest is the version's own, lists no other record for the path, and the
      package, if there is one already, has the digest. Then nothing but the package, its
      .sha256 file, the manifest, the sums and, on a move, the source has changed, and the
      manifest lists one more record, in the order of the paths. A call that fails has
      changed nothing. */
  lemma {:induction false} CallExactly(h: Content -> Digest, st: Store, req: Request)
    requires Consistent(h, st)
    requires req.source in st.sources && h(st.sources[req.source]) == req.record.sha256
    ensures var path, entries := req.record.path, Entries(st.manifest);
            var (t, ok) := Complete(h, st, req, Load);
            && (ok <==>
                  && !st.manifest.Alien?
                  && (forall p | p in entries && p.path == path :: p == req.record)
                  && (path in st.packages ==> h(st.packages[path]) == req.record.sha256))
            && (!ok ==> t == st)
            && (ok ==>
                  && t.packages == (if path in st.packages then st.packages
                                    else st.packages[path := st.sources[req.source]])
                  && t.signatures == st.signatures[path := req.record.sha256]
                  && t.manifest.Listed? && Sorted(t.manifest.packages)
                  && (forall p :: p in t.manifest.packages <==> p in entries || p == req.record)
                  && t.sums == Some(Project(t.manifest.packages))
                  && t.sources == if req.move then st.sources - {req.source} else st.sources)
  {
    FromLoad(h, st, req);
    var path, entries := req.record.path, Entries(st.manifest);
    var conflict := exists p :: p in entries && p.path == path && p != req.record;
    hide Complete, Project, Sorted, Consistent;
    if !st.manifest.Alien? && !conflict {
      var known := req.record in entries;
      var list := Updated(entries, known, req.record);
      Lists(h, st, req);
      PlacingSteps(h, st, req, entries, known);
      FinalSteps(h, st, req, list);
      FinalSteps(h, st.(packages := st.packages[path := st.sources[req.source]]), req, list);
      hide Updated;
    }
  }

  lemma {:induction false} FromLoad(h: Content -> Digest, st: Store, req: Request)
    requires Consistent(h, st)
    ensures var path, entries := req.record.path, Entries(st.manifest);
            Complete(h, st, req, Load) ==
              if st.manifest.Alien? || exists p :: p in entries && p.path == path && p != req.record then (st, false)
              else Complete(h, st, req, Inspect(entries, req.record in entries))
  {
    var path, entries := req.record.path, Entries(st.manifest);
    OneStep(h, st, req, Load);
    Ended(h, st, req, false);
    forall p | p in entries && p.path == path ensures Find(entries, path) == Some(p) {
      FindRecord(entries, p);
    }
    hide Complete;
  }

  lemma {:induction false} Lists(h: Content -> Digest, st: Store, req: Request)
    requires Consistent(h, st)
    requires forall p | p in Entries(st.manifest) && p.path == req.record.path :: p == req.record
    ensures var list := Updated(Entries(st.manifest), req.record in Entries(st.manifest), req.record);
            Sorted(list) && forall p :: p in list <==> p in Entries(st.manifest) || p == req.record
  {
    var entries, known := Entries(st.manifest), req.record in Entries(st.manifest);
    if known {
      FindRecord(entries, req.record);
    }
    assert Agrees(entries, known, req.record);
    PreparedSorts(Updated(entries, known, req.record), entries, req.record);
  }

  lemma {:induction false} LoadToSign(h: Content -> Digest, st: Store, req: Request, packages: seq<Record>)
    requires InPlace(h, st, req.record) && Prepared(packages, Entries(st.manifest), req.record) && !st.manifest.Alien?
    ensures Complete(h, st, req, Load) == Complete(h, st, req, Sign(packages))
  {
    hide Find, Updated, Project;
    var known: bool :| Agrees(Entries(st.manifest), known, req.record)
        && packages == Updated(Entries(st.manifest), known, req.record);
    assert Advance(h, st, req, Load) == (st, Inspect(Entries(st.manifest), known));
    assert Advance(h, st, req, Inspect(Entries(st.manifest), known)) == (st, Sign(packages));
  }

  lemma {:induction false} SignToPublish(h: Content -> Digest, st: Store, req: Request, packages: seq<Record>)
    requires Signed(st, req.record)
    ensures Complete(h, st, req, Sign(packages)) == Complete(h, st, req, Publish(packages))
  {
    assert st.signatures[req.record.path := req.record.sha256] == st.signatures;
    assert Advance(h, st, req, Sign(packages)) == (st, Publish(packages));
  }

  lemma {:induction false} Prepares(h: Content -> Digest, st: Store, req: Request)
    requires Consistent(h, st) && req.record in Entries(st.manifest)
    ensures Prepared(Entries(st.manifest), Entries(st.manifest), req.record)
  {
    FindRecord(Entries(st.manifest), req.record);
    SortKeepsSorted(Entries(st.manifest));
    assert Agrees(Entries(st.manifest), true, req.record);
  }

  lemma {:induction false} Restart(h: Content -> Digest, st: Store, req: Request, phase: Phase)
    requires Consistent(h, st) && PhaseInv(h, st, req, phase) && !phase.Finished?
    requires req.source in st.sources && (phase.Place? ==> phase.copy == st.sources[req.source])
    ensures Complete(h, st, req, Load) == Complete(h, st, req, phase)
  {
    hide Find, Updated, Project, Complete;
    match phase {
      case Load =>
      case Inspect(packages, known) =>
        LoadToInspect(h, st, req, known);
      case Copy(packages, known) =>
        LoadToInspect(h, st, req, known);
        OneStep(h, st, req, Inspect(packages, known));
      case Place(packages, known, copy) =>
        LoadToInspect(h, st, req, known);
        OneStep(h, st, req, Inspect(packages, known));
        OneStep(h, st, req, Copy(packages, known));
      case Sign(packages) => LoadToSign(h, st, req, packages);
      case Publish(packages) =>
        LoadToSign(h, st, req, packages);
        SignToPublish(h, st, req, packages);
      case Sum(packages) => LoadToSum(h, st, req);
      case Remove =>
        LoadToSum(h, st, req);
        OneStep(h, st, req, Sum(Entries(st.manifest)));
    }
  }

  lemma {:induction false} OneStep(h: Content -> Digest, st: Store, req: Request, phase: Phase)
    ensures Complete(h, st, req, phase) == Complete(h, Advance(h, st, req, phase).0, req, Advance(h, st, req, phase).1)
  {
  }

  lemma {:induction false} LoadToInspect(h: Content -> Digest, st: Store, req: Request, known: bool)
    requires !st.manifest.Alien? && Agrees(Entries(st.manifest), known, req.record)
    ensures Complete(h, st, req, Load) == Complete(h, st, req, Inspect(Entries(st.manifest), known))
  {
    hide Find, Complete;
    OneStep(h, st, req, Load);
  }

  lemma {:induction false} LoadToSum(h: Content -> Digest, st: Store, req: Request)
    requires Consistent(h, st) && st.manifest.Listed? && req.record in st.manifest.packages
    ensures Complete(h, st, req, Load) == Complete(h, st, req, Sum(st.manifest.packages))
  {
    hide Find, Updated, Project, Complete;
    var packages := st.manifest.packages;
    Prepares(h, st, req);
    assert InPlace(h, st, req.record) && Signed(st, req.record);
    LoadToSign(h, st, req, packages);
    SignToPublish(h, st, req, packages);
    OneStep(h, st, req, Publish(packages));
  }

  /** Wherever a call is cut off before its last effect, running it again, with its
      source as it was, has the outcome that going on would have had. */
  lemma {:induction false} RestartReachesTheSame(h: Content -> Digest, s: State)
    requires Reachable(Directory(h), s) && s.call.Active? && !s.call.phase.Finished?
    requires var req := s.call.request;
             && req.source in s.store.sources && h(s.store.sources[req.source]) == req.record.sha256
             && (s.call.phase.Place? ==> s.call.phase.copy == s.store.sources[req.source])
    ensures Complete(h, s.store, s.call.request, Load) == Complete(h, s.store, s.call.request, s.call.phase)
  {
    ReachableInv(h, s);
    hide Complete, Consistent, PhaseInv;
    Restart(h, s.store, s.call.request, s.call.phase);
  }

  // ------------------------------------------------------- the call on the files

  class Collection {
    const digest: Content -> Digest
    var sources: map<Path, Content>
    var packages: map<Path, Content>
    var signatures: map<Path, Digest>
    var manifest: Manifest
    var sums: Option<seq<Line>>

    ghost function View(): Store
      reads this
    {
      Store(sources, packages, signatures, manifest, sums)
    }

    constructor (digest: Content -> Digest, sources: map<Path, Content>)
      ensures this.digest == digest && View() == Store(sources, map[], map[], Absent, None)
    {
      this.digest, this.sources := digest, sources;
      packages, signatures, manifest, sums := map[], map[], Absent, None;
    }

    /** Puts the package in place unless it is there. */
    method PutPackage(req: Request) returns (ok: bool)
      modifies `packages
      ensures ok <==> if req.record.path in old(packages)
          then digest(old(packages)[req.record.path]) == req.record.sha256
                      else req.source in sources && digest(sources[req.source]) == req.record.sha256
      ensures packages == if ok && req.record.path !in old(packages)
                          then old(packages)[req.record.path := sources[req.source]] else old(packages)
    {
      var path := req.record.path;
      if path in packages {
        return digest(packages[path]) == req.record.sha256;
      }
      if req.source !in sources {
        return false;
      }
      var copy := sources[req.source];
      if digest(copy) != req.record.sha256 {
        return false;
      }
      packages := packages[path := copy];
      return true;
    }

    /** An uninterrupted call. */
    method Collect(req: Request) returns (ok: bool)
      modifies this
      ensures (View(), ok) == Complete(digest, old(View()), req, Load)
    {
      hide Find, Updated, Project, Complete;
      ghost var st := View();
      var path, sha256 := req.record.path, req.record.sha256;
      OneStep(digest, st, req, Load);
      if manifest.Alien? {
        assert (st, false) == Complete(digest, st, req, Finished(false)) by { Ended(digest, st, req, false); }
        return false;
      }
      var list := Entries(manifest);
      var previous := Find(list, path);
      if previous.Some? && previous.value != req.record {
        assert (st, false) == Complete(digest, st, req, Finished(false)) by { Ended(digest, st, req, false); }
        return false;
      }
      var placed := PutPackage(req);
      PlacingSteps(digest, st, req, list, previous.Some?);
      if !placed {
        return false;
      }
      list := Updated(list, previous.Some?, req.record);
      FinalSteps(digest, View(), req, list);
      signatures := signatures[path := sha256];
      manifest := Listed(list);
      sums := Some(Project(list));
      if req.move {
        if req.source !in sources || digest(sources[req.source]) != sha256 {
          return false;
        }
        sources := sources - {req.source};
      }
      return true;
    }
  }

  lemma {:induction false} Ended(h: Content -> Digest, st: Store, req: Request, ok: bool)
    ensures Complete(h, st, req, Finished(ok)) == (st, ok)
  {
  }

  lemma {:induction false} PlacingSteps(h: Content -> Digest, st: Store, req: Request, packages: seq<Record>,
                                        known: bool)
    ensures var path, sha256 := req.record.path, req.record.sha256;
            Complete(h, st, req, Inspect(packages, known)) ==
              if path in st.packages && h(st.packages[path]) == sha256 then
                Complete(h, st, req, Sign(Updated(packages, known, req.record)))
              else if path !in st.packages && req.source in st.sources && h(st.sources[req.source]) == sha256 then
                Complete(h, st.(packages := st.packages[path := st.sources[req.source]]), req,
                         Sign(Updated(packages, known, req.record)))
              else (st, false)
  {
    hide Find, Updated, Project, Complete;
    Ended(h, st, req, false);
    OneStep(h, st, req, Inspect(packages, known));
    OneStep(h, st, req, Copy(packages, known));
    if req.source in st.sources {
      OneStep(h, st, req, Place(packages, known, st.sources[req.source]));
    }
  }

  lemma {:induction false} FinalSteps(h: Content -> Digest, st: Store, req: Request, list: seq<Record>)
    ensures var done := st.(signatures := st.signatures[req.record.path := req.record.sha256],
                            manifest := Listed(list), sums := Some(Project(list)));
            Complete(h, st, req, Sign(list)) ==
              if !req.move then (done, true)
              else if req.source in st.sources && h(st.sources[req.source]) == req.record.sha256 then
                (done.(sources := st.sources - {req.source}), true)
              else (done, false)
  {
    hide Find, Updated, Project, Complete;
    var signed := st.(signatures := st.signatures[req.record.path := req.record.sha256]);
    var listed := signed.(manifest := Listed(list));
    var done := listed.(sums := Some(Project(list)));
    OneStep(h, st, req, Sign(list));
    OneStep(h, signed, req, Publish(list));
    OneStep(h, listed, req, Sum(list));
    OneStep(h, done, req, Remove);
    Ended(h, done, req, true);
    Ended(h, done, req, false);
    Ended(h, done.(sources := st.sources - {req.source}), req, true);
  }
}
