/** Sequences of states in which each follows from the one before. */
module Paths {

  ghost predicate Chain<S(!new)>(run: seq<S>, next: (S, S) -> bool) {
    run != [] && forall i :: 0 < i < |run| ==> next(run[i - 1], run[i])
  }

  ghost predicate Leads<S(!new)>(run: seq<S>, s: S, t: S, next: (S, S) -> bool) {
    Chain(run, next) && run[0] == s && run[|run| - 1] == t
  }

  /** Some steps lead from `s` to `t`. */
  ghost predicate Reaches<S(!new)>(s: S, t: S, next: (S, S) -> bool) {
    exists run :: Leads(run, s, t, next)
  }

  lemma ReachesSelf<S(!new)>(s: S, next: (S, S) -> bool)
    ensures Reaches(s, s, next)
  {
    assert Leads([s], s, s, next);
  }

  lemma ChainMore<S(!new)>(run: seq<S>, t: S, next: (S, S) -> bool)
    requires Chain(run, next) && next(run[|run| - 1], t)
    ensures Chain(run + [t], next)
  {
    var r := run + [t];
    forall i | 0 < i < |r| ensures next(r[i - 1], r[i]) {
      if i < |run| {
        assert r[i - 1] == run[i - 1] && r[i] == run[i];
      }
    }
  }

  lemma ChainPrepend<S(!new)>(s: S, run: seq<S>, next: (S, S) -> bool)
    requires Chain(run, next) && next(s, run[0])
    ensures Chain([s] + run, next)
  {
  }

  lemma ReachesNext<S(!new)>(s: S, t: S, u: S, next: (S, S) -> bool)
    requires Reaches(s, t, next) && next(t, u)
    ensures Reaches(s, u, next)
  {
    var run :| Leads(run, s, t, next);
    ChainMore(run, u, next);
    assert Leads(run + [u], s, u, next);
  }

  lemma {:induction false} ReachesTrans<S(!new)>(s: S, t: S, u: S, next: (S, S) -> bool)
    requires Reaches(s, t, next) && Reaches(t, u, next)
    ensures Reaches(s, u, next)
  {
    var run :| Leads(run, t, u, next);
    ReachesAlong(s, run, |run| - 1, next);
  }

  lemma {:induction false} ReachesAlong<S(!new)>(s: S, run: seq<S>, i: nat, next: (S, S) -> bool)
    requires Chain(run, next) && i < |run| && Reaches(s, run[0], next)
    ensures Reaches(s, run[i], next)
  {
    if i > 0 {
      ReachesAlong(s, run, i - 1, next);
      ReachesNext(s, run[i - 1], run[i], next);
    }
  }
}
