/**
 * Finite paths of a machine, step by step: a path is a list of steps that takes one state to another, whatever the
 * states between them.
 */
module Paths {

  /** The steps, one after the other, take s to s'. */
  ghost predicate Leads<S(!new), L(!new)>(next: (S, L, S) -> bool, s: S, steps: seq<L>, s': S)
    decreases |steps|
  {
    if steps == [] then s == s'
    else exists between :: next(s, steps[0], between) && Leads(next, between, steps[1..], s')
  }

  lemma {:induction false} First<S(!new), L(!new)>(next: (S, L, S) -> bool, s: S, l: L, between: S,
          steps: seq<L>, s': S)
    requires next(s, l, between) && Leads(next, between, steps, s')
    ensures Leads(next, s, [l] + steps, s')
  {
    assert ([l] + steps)[1..] == steps;
  }

  lemma {:induction false} Through<S(!new), L(!new)>(next: (S, L, S) -> bool, s: S, a: seq<L>, between: S,
          b: seq<L>, s': S)
    requires Leads(next, s, a, between) && Leads(next, between, b, s')
    ensures Leads(next, s, a + b, s')
    decreases |a|
  {
    if a == [] {
      assert a + b == b;
    } else {
      var after :| next(s, a[0], after) && Leads(next, after, a[1..], between);
      Through(next, after, a[1..], between, b, s');
      First(next, s, a[0], after, a[1..] + b, s');
      assert [a[0]] + (a[1..] + b) == a + b;
    }
  }

  lemma {:induction false} Then<S(!new), L(!new)>(next: (S, L, S) -> bool, s: S, steps: seq<L>, between: S, l: L, s': S)
    requires Leads(next, s, steps, between) && next(between, l, s')
    ensures Leads(next, s, steps + [l], s')
  {
    assert Leads(next, s', [], s');
    First(next, between, l, s', [], s');
    assert [l] + [] == [l];
    Through(next, s, steps, between, [l], s');
  }

  /** What a narrower machine can do, a wider one can. */
  lemma {:induction false} Widen<S(!new), L(!new)>(next: (S, L, S) -> bool, wider: (S, L, S) -> bool, s: S,
          steps: seq<L>, s': S)
    requires Leads(next, s, steps, s') && forall s, l, s' :: next(s, l, s') ==> wider(s, l, s')
    ensures Leads(wider, s, steps, s')
    decreases |steps|
  {
    if steps != [] {
      var between :| next(s, steps[0], between) && Leads(next, between, steps[1..], s');
      Widen(next, wider, between, steps[1..], s');
    }
  }
}
