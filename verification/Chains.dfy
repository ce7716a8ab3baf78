/** States reached by steps of one kind, whatever a step is. */
module Chains {

  ghost predicate Chain<S(!new)>(step: (S, S) -> bool, path: seq<S>) {
    path != [] && forall i | 0 <= i < |path| - 1 :: step(path[i], path[i + 1])
  }

  /** Steps of this kind, any number of them, lead from s to t. */
  ghost predicate Reaches<S(!new)>(step: (S, S) -> bool, s: S, t: S) {
    exists path :: Chain(step, path) && path[0] == s && path[|path| - 1] == t
  }

  lemma Stays<S(!new)>(step: (S, S) -> bool, s: S)
    ensures Reaches(step, s, s)
  {
    assert Chain(step, [s]) && [s][0] == s;
  }

  lemma Once<S(!new)>(step: (S, S) -> bool, s: S, t: S)
    requires step(s, t)
    ensures Reaches(step, s, t)
  {
    assert Chain(step, [s, t]) && [s, t][0] == s && [s, t][1] == t;
  }

  lemma Then<S(!new)>(step: (S, S) -> bool, s: S, t: S, u: S)
    requires Reaches(step, s, t) && Reaches(step, t, u)
    ensures Reaches(step, s, u)
  {
    var p :| Chain(step, p) && p[0] == s && p[|p| - 1] == t;
    var q :| Chain(step, q) && q[0] == t && q[|q| - 1] == u;
    var path := p + q[1..];
    forall i | 0 <= i < |path| - 1
      ensures step(path[i], path[i + 1])
    {
      if i < |p| - 1 {
        assert step(p[i], p[i + 1]);
      } else {
        assert step(q[i - |p| + 1], q[i - |p| + 2]);
      }
    }
    assert Chain(step, path) && path[0] == s && path[|path| - 1] == u;
  }

  /** What every step keeps holds wherever they lead. */
  lemma Keeps<S(!new)>(step: (S, S) -> bool, inv: S -> bool, s: S, t: S)
    requires Reaches(step, s, t) && inv(s)
    requires forall a, b | inv(a) && step(a, b) :: inv(b)
    ensures inv(t)
  {
    var p :| Chain(step, p) && p[0] == s && p[|p| - 1] == t;
    KeepsUpTo(step, inv, p, |p| - 1);
  }

  lemma {:induction false} KeepsUpTo<S(!new)>(step: (S, S) -> bool, inv: S -> bool, p: seq<S>, i: nat)
    requires Chain(step, p) && i < |p| && inv(p[0])
    requires forall a, b | inv(a) && step(a, b) :: inv(b)
    ensures inv(p[i])
  {
    if i == 0 {
    } else {
      KeepsUpTo(step, inv, p, i - 1);
      assert step(p[i - 1], p[i - 1 + 1]);
    }
  }

  /** Steps of one kind that are steps of another lead as far. */
  lemma Widens<S(!new)>(step: (S, S) -> bool, wider: (S, S) -> bool, s: S, t: S)
    requires Reaches(step, s, t)
    requires forall a, b | step(a, b) :: wider(a, b)
    ensures Reaches(wider, s, t)
  {
    var p :| Chain(step, p) && p[0] == s && p[|p| - 1] == t;
    assert Chain(wider, p);
  }
}
