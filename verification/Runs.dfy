/**
 Runs of a step system. A system is given by its `next` function: the successor of a state
 under a label, or `None` if the step is not enabled.
 */
module Runs {
  import opened TrustTypes

  /** The state after the steps `ls`, or `None` if one of them is not enabled. */
  function Run<S, L>(next: (S, L) -> Option<S>, s: S, ls: seq<L>): Option<S>
    decreases |ls|
  {
    if ls == [] then Some(s)
    else if next(s, ls[0]).None? then None
    else Run(next, next(s, ls[0]).value, ls[1..])
  }

  lemma RunCons<S, L>(next: (S, L) -> Option<S>, s: S, l: L, ls: seq<L>)
    requires next(s, l).Some?
    ensures Run(next, s, [l] + ls) == Run(next, next(s, l).value, ls)
  {
    assert ([l] + ls)[1..] == ls;
  }

  lemma {:induction false} RunAppend<S, L>(next: (S, L) -> Option<S>, s: S, ls: seq<L>, ms: seq<L>)
    requires Run(next, s, ls).Some?
    ensures Run(next, s, ls + ms) == Run(next, Run(next, s, ls).value, ms)
    decreases |ls|
  {
    if ls == [] {
      assert ls + ms == ms;
    } else {
      assert (ls + ms)[1..] == ls[1..] + ms;
      RunAppend(next, next(s, ls[0]).value, ls[1..], ms);
    }
  }

  predicate StepsTo<S(==), L>(next: (S, L) -> Option<S>, s: S, l: L, t: S) {
    next(s, l) == Some(t)
  }

  /** `trace` lists the states a run passes through, one more than it has steps. */
  ghost predicate IsTrace<S, L>(next: (S, L) -> Option<S>, trace: seq<S>, ls: seq<L>) {
    |trace| == |ls| + 1 && forall i :: 0 <= i < |ls| ==> StepsTo(next, trace[i], ls[i], trace[i + 1])
  }

  lemma {:induction false} TraceIsRun<S, L>(next: (S, L) -> Option<S>, trace: seq<S>, ls: seq<L>)
    requires IsTrace(next, trace, ls)
    ensures Run(next, trace[0], ls) == Some(trace[|ls|])
    decreases |ls|
  {
    if ls != [] {
      assert StepsTo(next, trace[0], ls[0], trace[0 + 1]);
      forall i | 0 <= i < |ls| - 1 ensures StepsTo(next, trace[1..][i], ls[1..][i], trace[1..][i + 1]) {
        assert StepsTo(next, trace[i + 1], ls[i + 1], trace[i + 1 + 1]);
      }
      TraceIsRun(next, trace[1..], ls[1..]);
    }
  }

  /** Some run leads from `s` to `t`. */
  ghost predicate Reaches<S(!new), L(!new)>(next: (S, L) -> Option<S>, s: S, t: S) {
    exists ls :: Run(next, s, ls) == Some(t)
  }

  lemma ReachesItself<S(!new), L(!new)>(next: (S, L) -> Option<S>, s: S)
    ensures Reaches(next, s, s)
  {
    assert Run(next, s, []) == Some(s);
  }

  lemma ReachesAfter<S(!new), L(!new)>(next: (S, L) -> Option<S>, s: S, l: L, t: S)
    requires next(s, l).Some? && Reaches(next, next(s, l).value, t)
    ensures Reaches(next, s, t)
  {
    var ls :| Run(next, next(s, l).value, ls) == Some(t);
    RunCons(next, s, l, ls);
  }

  lemma ReachesOnward<S(!new), L(!new)>(next: (S, L) -> Option<S>, s: S, t: S, u: S)
    requires Reaches(next, s, t) && Reaches(next, t, u)
    ensures Reaches(next, s, u)
  {
    var before :| Run(next, s, before) == Some(t);
    var after :| Run(next, t, after) == Some(u);
    RunAppend(next, s, before, after);
  }

  /** What every step keeps, every run keeps. */
  lemma {:induction false} RunKeeps<S(!new), L(!new)>(next: (S, L) -> Option<S>, kept: S -> bool, s: S, ls: seq<L>)
    requires kept(s) && Run(next, s, ls).Some?
    requires forall t, l :: kept(t) && next(t, l).Some? ==> kept(next(t, l).value)
    ensures kept(Run(next, s, ls).value)
    decreases |ls|
  {
    if ls != [] {
      RunKeeps(next, kept, next(s, ls[0]).value, ls[1..]);
    }
  }

  lemma ReachesKeeps<S(!new), L(!new)>(next: (S, L) -> Option<S>, kept: S -> bool, s: S)
    requires kept(s)
    requires forall t, l :: kept(t) && next(t, l).Some? ==> kept(next(t, l).value)
    ensures forall t :: Reaches(next, s, t) ==> kept(t)
  {
    forall t | Reaches(next, s, t) ensures kept(t) {
      var ls :| Run(next, s, ls) == Some(t);
      RunKeeps(next, kept, s, ls);
    }
  }

  /** A system that allows more steps reaches no less. */
  lemma {:induction false} RunMore<S, L>(next: (S, L) -> Option<S>, more: (S, L) -> Option<S>, s: S, ls: seq<L>)
    requires Run(next, s, ls).Some?
    requires forall t, l :: next(t, l).Some? ==> more(t, l) == next(t, l)
    ensures Run(more, s, ls) == Run(next, s, ls)
    decreases |ls|
  {
    if ls != [] { RunMore(next, more, next(s, ls[0]).value, ls[1..]); }
  }

  lemma ReachesMore<S(!new), L(!new)>(next: (S, L) -> Option<S>, more: (S, L) -> Option<S>, s: S, t: S)
    requires Reaches(next, s, t)
    requires forall u, l :: next(u, l).Some? ==> more(u, l) == next(u, l)
    ensures Reaches(more, s, t)
  {
    var ls :| Run(next, s, ls) == Some(t);
    RunMore(next, more, s, ls);
  }
}
