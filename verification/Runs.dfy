/**
  Runs of any step function, and how an invariant of single steps carries over to them.
 */
module Runs {

  function Run<S, A>(next: (S, A) -> S, s: S, actions: seq<A>): S
    decreases actions
  {
    if actions == [] then s else Run(next, next(s, actions[0]), actions[1..])
  }

  /** The state holds before, between and after the actions. */
  ghost predicate Always<S, A>(next: (S, A) -> S, s: S, actions: seq<A>, holds: S -> bool) {
    forall i :: 0 <= i <= |actions| ==> holds(Run(next, s, actions[..i]))
  }

  ghost predicate All<A>(actions: seq<A>, ok: A -> bool) {
    forall i :: 0 <= i < |actions| ==> ok(actions[i])
  }

  lemma {:induction false} RunConcat<S, A>(next: (S, A) -> S, s: S, a: seq<A>, b: seq<A>)
    ensures Run(next, s, a + b) == Run(next, Run(next, s, a), b)
    decreases a
  {
    if a == [] {
      assert a + b == b;
    } else {
      assert (a + b)[1..] == a[1..] + b;
      RunConcat(next, next(s, a[0]), a[1..], b);
    }
  }

  lemma RunTail<S, A>(next: (S, A) -> S, s: S, actions: seq<A>, i: nat)
    requires 0 < i <= |actions|
    ensures Run(next, s, actions[..i]) == Run(next, next(s, actions[0]), actions[1..][..i - 1])
  {
    assert actions[..i][1..] == actions[1..][..i - 1];
  }

  lemma AlwaysTail<S, A>(next: (S, A) -> S, s: S, actions: seq<A>, holds: S -> bool)
    requires actions != [] && Always(next, s, actions, holds)
    ensures holds(s) && holds(next(s, actions[0])) && Always(next, next(s, actions[0]), actions[1..], holds)
  {
    forall i | 0 <= i <= |actions| - 1 ensures holds(Run(next, next(s, actions[0]), actions[1..][..i])) {
      RunTail(next, s, actions, i + 1);
    }
    assert actions[..0] == [] && actions[1..][..0] == [];
  }

  lemma AlwaysHead<S, A>(next: (S, A) -> S, s: S, actions: seq<A>, holds: S -> bool)
    requires actions != [] && holds(s) && Always(next, next(s, actions[0]), actions[1..], holds)
    ensures Always(next, s, actions, holds)
  {
    forall i | 0 <= i <= |actions| ensures holds(Run(next, s, actions[..i])) {
      if i > 0 {
        RunTail(next, s, actions, i);
      } else {
        assert actions[..0] == [];
      }
    }
  }

  lemma AlwaysConcat<S, A>(next: (S, A) -> S, s: S, a: seq<A>, b: seq<A>, holds: S -> bool)
    requires Always(next, s, a, holds) && Always(next, Run(next, s, a), b, holds)
    ensures Always(next, s, a + b, holds)
  {
    forall i | 0 <= i <= |a + b| ensures holds(Run(next, s, (a + b)[..i])) {
      if i <= |a| {
        assert (a + b)[..i] == a[..i];
      } else {
        assert (a + b)[..i] == a + b[..i - |a|];
        RunConcat(next, s, a, b[..i - |a|]);
      }
    }
  }

  /** Each allowed step from a good state to a state that holds leads to a good state, and is fine itself. */
  ghost predicate Keeps<S(!new), A(!new)>(
      next: (S, A) -> S, ok: A -> bool, holds: S -> bool, good: S -> bool, fine: (S, A) -> bool)
  {
    forall s, a {:trigger next(s, a)} :: good(s) && ok(a) && holds(next(s, a)) ==> good(next(s, a)) && fine(s, a)
  }

  /** Then so does every run while it holds, and all its steps are fine. */
  lemma {:induction false} RunKeeps<S(!new), A(!new)>(
      next: (S, A) -> S, ok: A -> bool, holds: S -> bool, good: S -> bool, fine: (S, A) -> bool, s: S, actions: seq<A>)
    requires Keeps(next, ok, holds, good, fine) && good(s) && All(actions, ok) && Always(next, s, actions, holds)
    ensures good(Run(next, s, actions))
    ensures forall i :: 0 <= i < |actions| ==> fine(Run(next, s, actions[..i]), actions[i])
    decreases actions
  {
    if actions != [] {
      AlwaysTail(next, s, actions, holds);
      var t := next(s, actions[0]);
      RunKeeps(next, ok, holds, good, fine, t, actions[1..]);
      forall i | 0 <= i < |actions| ensures fine(Run(next, s, actions[..i]), actions[i]) {
        if i > 0 {
          RunTail(next, s, actions, i);
          assert actions[1..][i - 1] == actions[i];
        } else {
          assert actions[..0] == [];
        }
      }
    }
  }

  /** From a state at stage n, two allowed steps through a state that holds lead to stage n + 1. */
  ghost predicate Advances<S, A(!new)>(
      next: (S, A) -> S, ok: A -> bool, holds: S -> bool, stage: (S, nat) -> bool, s: S, n: nat)
  {
    exists a, b :: AdvancesBy(next, ok, holds, stage, s, n, a, b)
  }

  ghost predicate AdvancesBy<S, A>(
      next: (S, A) -> S, ok: A -> bool, holds: S -> bool, stage: (S, nat) -> bool, s: S, n: nat, a: A, b: A)
  {
    ok(a) && ok(b) && holds(next(s, a)) && stage(next(next(s, a), b), n + 1)
  }

  /** Every stage holds, and every stage below the bound can be advanced. */
  ghost predicate AllAdvance<S(!new), A(!new)>(
      next: (S, A) -> S, ok: A -> bool, holds: S -> bool, stage: (S, nat) -> bool, bound: nat)
  {
    forall s, n: nat {:trigger stage(s, n)} ::
      stage(s, n) ==> holds(s) && (n < bound ==> Advances(next, ok, holds, stage, s, n))
  }

  lemma TwoSteps<S, A>(next: (S, A) -> S, s: S, a: A, b: A, rest: seq<A>, holds: S -> bool)
    requires holds(s) && holds(next(s, a)) && Always(next, next(next(s, a), b), rest, holds)
    ensures Always(next, s, [a, b] + rest, holds)
    ensures Run(next, s, [a, b] + rest) == Run(next, next(next(s, a), b), rest)
  {
    var tail, whole := [b] + rest, [a, b] + rest;
    assert tail[1..] == rest && whole[1..] == tail;
    AlwaysHead(next, next(s, a), tail, holds);
    AlwaysHead(next, s, whole, holds);
  }

  /** If every stage below a bound can be advanced, the bound can be reached through states that hold. */
  lemma {:induction false} Reaches<S(!new), A(!new)>(
      next: (S, A) -> S, ok: A -> bool, holds: S -> bool, stage: (S, nat) -> bool, s: S, n: nat, bound: nat)
    returns (actions: seq<A>)
    requires AllAdvance(next, ok, holds, stage, bound) && stage(s, n) && n <= bound
    ensures All(actions, ok) && Always(next, s, actions, holds) && stage(Run(next, s, actions), bound)
    decreases bound - n
  {
    if n == bound {
      actions := [];
    } else {
      var a, b :| AdvancesBy(next, ok, holds, stage, s, n, a, b);
      var rest := Reaches(next, ok, holds, stage, next(next(s, a), b), n + 1, bound);
      TwoSteps(next, s, a, b, rest, holds);
      actions := [a, b] + rest;
    }
  }

  /** A step function seen through a projection runs as the projected one. */
  lemma {:induction false} RunProjected<S(!new), T(!new), A(!new)>(
      next: (S, A) -> S, through: S -> T, below: (T, A) -> T, s: S, actions: seq<A>)
    requires forall x, a {:trigger next(x, a)} :: through(next(x, a)) == below(through(x), a)
    ensures through(Run(next, s, actions)) == Run(below, through(s), actions)
    decreases actions
  {
    if actions != [] {
      RunProjected(next, through, below, next(s, actions[0]), actions[1..]);
    }
  }
}
