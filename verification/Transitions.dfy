/** Transition systems: runs, reachability, the two induction principles (invariance
    and bounded length) used by every concurrent part of the model, and traces, which
    also say by which action every step was taken.
 */
module Transitions {

  datatype System<!S> = System(init: S -> bool, next: (S, S) -> bool)

  /** A finite run: it starts in an initial state and every hop is a step. */
  ghost predicate IsRun<S>(sys: System<S>, run: seq<S>) {
    && |run| > 0
    && sys.init(run[0])
    && forall i, j | 0 <= i < j < |run| && j == i + 1 :: sys.next(run[i], run[j])
  }

  ghost predicate Reachable<S(!new)>(sys: System<S>, s: S) {
    exists run: seq<S> :: IsRun(sys, run) && run[|run| - 1] == s
  }

  ghost predicate Inductive<S(!new)>(sys: System<S>, inv: S -> bool) {
    && (forall s: S | sys.init(s) :: inv(s))
    && (forall s: S, t: S | inv(s) && sys.next(s, t) :: inv(t))
  }

  lemma {:induction false} Start<S(!new)>(sys: System<S>, s: S)
    requires sys.init(s)
    ensures Reachable(sys, s)
  {
    assert IsRun(sys, [s]);
  }

  lemma {:induction false} Extend<S(!new)>(sys: System<S>, s: S, t: S)
    requires Reachable(sys, s) && sys.next(s, t)
    ensures Reachable(sys, t)
  {
    var run :| IsRun(sys, run) && run[|run| - 1] == s;
    var longer := run + [t];
    assert IsRun(sys, longer);
    assert longer[|longer| - 1] == t;
  }

  /** Whatever holds initially and is kept by every step holds all along a run. */
  lemma {:induction false} HoldsAlong<S(!new)>(sys: System<S>, inv: S -> bool, run: seq<S>, i: nat)
    requires Inductive(sys, inv) && IsRun(sys, run) && i < |run|
    ensures inv(run[i])
  {
    if i > 0 {
      HoldsAlong(sys, inv, run, i - 1);
      assert sys.next(run[i - 1], run[i]);
    }
  }

  lemma {:induction false} Invariance<S(!new)>(sys: System<S>, inv: S -> bool, s: S)
    requires Inductive(sys, inv) && Reachable(sys, s)
    ensures inv(s)
  {
    var run :| IsRun(sys, run) && run[|run| - 1] == s;
    HoldsAlong(sys, inv, run, |run| - 1);
  }

  /** When every step from an invariant state lowers a natural-number rank,
      no run has more steps than the rank it started with. */
  lemma {:induction false} RankBounds<S(!new)>(sys: System<S>, inv: S -> bool, rank: S -> nat, run: seq<S>, i: nat)
    requires Inductive(sys, inv) && IsRun(sys, run) && i < |run|
    requires forall s: S, t: S | inv(s) && sys.next(s, t) :: rank(t) < rank(s)
    ensures i + rank(run[i]) <= rank(run[0])
  {
    if i > 0 {
      RankBounds(sys, inv, rank, run, i - 1);
      HoldsAlong(sys, inv, run, i - 1);
      assert sys.next(run[i - 1], run[i]);
    }
  }

  // -------------------------------------------------------------------- traces

  datatype Machine<!S, !A> = Machine(init: S -> bool, step: (S, A, S) -> bool)

  /** A step of a trace: where it starts and what is done. */
  datatype Hop<S, A> = Hop(state: S, action: A)

  /** The hops lead from an initial state to s. */
  ghost predicate IsTrace<S, A>(m: Machine<S, A>, trace: seq<Hop<S, A>>, s: S) {
    if trace == [] then m.init(s)
    else
      var n := |trace| - 1;
      m.step(trace[n].state, trace[n].action, s) && IsTrace(m, trace[..n], trace[n].state)
  }

  /** The machine has the steps of the system. */
  ghost predicate Labels<S(!new), A(!new)>(m: Machine<S, A>, sys: System<S>) {
    && (forall s: S :: m.init(s) <==> sys.init(s))
    && (forall s: S, t: S :: sys.next(s, t) <==> exists a: A :: m.step(s, a, t))
  }

  lemma {:induction false} TraceReaches<S(!new), A(!new)>(m: Machine<S, A>, sys: System<S>,
                                                          trace: seq<Hop<S, A>>, s: S)
    requires Labels(m, sys) && IsTrace(m, trace, s)
    ensures Reachable(sys, s)
  {
    if trace == [] {
      Start(sys, s);
    } else {
      var n := |trace| - 1;
      TraceReaches(m, sys, trace[..n], trace[n].state);
      Extend(sys, trace[n].state, s);
    }
  }

  /** Whatever is reachable is reached by some trace. */
  lemma {:induction false} ReachedByTrace<S(!new), A(!new)>(m: Machine<S, A>, sys: System<S>, s: S)
    returns (trace: seq<Hop<S, A>>)
    requires Labels(m, sys) && Reachable(sys, s)
    ensures IsTrace(m, trace, s)
  {
    var run :| IsRun(sys, run) && run[|run| - 1] == s;
    trace := RunTrace(m, sys, run, |run| - 1);
  }

  lemma {:induction false} RunTrace<S(!new), A(!new)>(m: Machine<S, A>, sys: System<S>, run: seq<S>, i: nat)
    returns (trace: seq<Hop<S, A>>)
    requires Labels(m, sys) && IsRun(sys, run) && i < |run|
    ensures IsTrace(m, trace, run[i])
  {
    if i == 0 {
      trace := [];
    } else {
      var before := RunTrace(m, sys, run, i - 1);
      assert sys.next(run[i - 1], run[i]);
      var a: A :| m.step(run[i - 1], a, run[i]);
      trace := before + [Hop(run[i - 1], a)];
      assert trace[..|before|] == before;
    }
  }
}
