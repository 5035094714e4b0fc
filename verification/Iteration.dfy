/** A step function applied over and over: the state it leads to, what the steps produce, what holds on the way. */
module Iteration {

  // The state after `n` steps.
  function Iterate<S>(f: S -> S, s: S, n: nat): S
    decreases n
  {
    if n == 0 then s else Iterate(f, f(s), n - 1)
  }

  // What `g` produces at each of the `n` states that a step starts from.
  function Gather<S, T>(f: S -> S, g: S -> seq<T>, s: S, n: nat): seq<T>
    decreases n
  {
    if n == 0 then [] else g(s) + Gather(f, g, f(s), n - 1)
  }

  // `p` holds at each of these states.
  predicate Along<S>(f: S -> S, p: S -> bool, s: S, n: nat)
    decreases n
  {
    n == 0 || (p(s) && Along(f, p, f(s), n - 1))
  }

  lemma GatherFirst<S, T>(f: S -> S, g: S -> seq<T>, s: S, n: nat)
    ensures Gather(f, g, s, 1 + n) == g(s) + Gather(f, g, f(s), n)
  {
  }

  lemma {:induction false} IterateConcat<S>(f: S -> S, s: S, m: nat, n: nat)
    ensures Iterate(f, s, m + n) == Iterate(f, Iterate(f, s, m), n)
    decreases m
  {
    if m > 0 {
      IterateConcat(f, f(s), m - 1, n);
    }
  }

  lemma {:induction false} GatherConcat<S, T>(f: S -> S, g: S -> seq<T>, s: S, m: nat, n: nat)
    ensures Gather(f, g, s, m + n) == Gather(f, g, s, m) + Gather(f, g, Iterate(f, s, m), n)
    decreases m
  {
    if m > 0 {
      GatherConcat(f, g, f(s), m - 1, n);
    }
  }

  lemma {:induction false} AlongConcat<S>(f: S -> S, p: S -> bool, s: S, m: nat, n: nat)
    ensures Along(f, p, s, m + n) <==> Along(f, p, s, m) && Along(f, p, Iterate(f, s, m), n)
    decreases m
  {
    if m > 0 {
      AlongConcat(f, p, f(s), m - 1, n);
    }
  }

  // An invariant of every step from a state with `p`.
  lemma {:induction false} Keeps<S(!new)>(f: S -> S, p: S -> bool, inv: S -> bool, s: S, n: nat)
    requires inv(s) && Along(f, p, s, n)
    requires forall x :: inv(x) && p(x) ==> inv(f(x))
    ensures inv(Iterate(f, s, n)) && Along(f, inv, s, n)
    decreases n
  {
    if n > 0 {
      Keeps(f, p, inv, f(s), n - 1);
    }
  }

  // An invariant of every step.
  lemma {:induction false} Invariant<S(!new)>(f: S -> S, inv: S -> bool, s: S, n: nat)
    requires inv(s) && forall x :: inv(x) ==> inv(f(x))
    ensures inv(Iterate(f, s, n))
    decreases n
  {
    if n > 0 {
      Invariant(f, inv, f(s), n - 1);
    }
  }

  // An invariant of every step, and something that grows by one with each.
  lemma {:induction false} Counts<S(!new)>(f: S -> S, inv: S -> bool, count: S -> int, s: S, n: nat)
    requires inv(s)
    requires forall x :: inv(x) ==> inv(f(x)) && count(f(x)) == count(x) + 1
    ensures inv(Iterate(f, s, n)) && count(Iterate(f, s, n)) == count(s) + n
    decreases n
  {
    if n > 0 {
      Counts(f, inv, count, f(s), n - 1);
    }
  }

  // Two conditions that agree on an invariant agree all along.
  lemma {:induction false} SameAlong<S(!new)>(f: S -> S, p: S -> bool, q: S -> bool, inv: S -> bool, s: S, n: nat)
    requires inv(s)
    requires forall x :: inv(x) ==> (p(x) <==> q(x)) && inv(f(x))
    ensures Along(f, p, s, n) <==> Along(f, q, s, n)
    decreases n
  {
    if n > 0 {
      SameAlong(f, p, q, inv, f(s), n - 1);
    }
  }

  lemma {:induction false} BothAlong<S(!new)>(f: S -> S, p: S -> bool, q: S -> bool, r: S -> bool, s: S, n: nat)
    requires Along(f, p, s, n) && Along(f, q, s, n)
    requires forall x :: p(x) && q(x) ==> r(x)
    ensures Along(f, r, s, n)
    decreases n
  {
    if n > 0 {
      BothAlong(f, p, q, r, f(s), n - 1);
    }
  }

  // What holds with `k` steps to go holds until there are none.
  lemma {:induction false} Countdown<S(!new)>(f: S -> S, p: S -> bool, inv: (S, nat) -> bool, s: S, n: nat)
    requires inv(s, n)
    requires forall x, k: nat :: k > 0 && inv(x, k) ==> p(x) && inv(f(x), k - 1)
    ensures Along(f, p, s, n)
    decreases n
  {
    if n > 0 {
      Countdown(f, p, inv, f(s), n - 1);
    }
  }
}
