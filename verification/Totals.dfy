/** Sums over sequences. */
module Totals {

  function Total<T>(weight: T -> nat, s: seq<T>): nat {
    if s == [] then 0 else weight(s[0]) + Total(weight, s[1..])
  }

  lemma {:induction false} TotalConcat<T>(weight: T -> nat, a: seq<T>, b: seq<T>)
    ensures Total(weight, a + b) == Total(weight, a) + Total(weight, b)
  {
    if a == [] {
      assert a + b == b;
    } else {
      assert (a + b)[1..] == a[1..] + b;
      TotalConcat(weight, a[1..], b);
    }
  }

  lemma TotalOne<T>(weight: T -> nat, x: T)
    ensures Total(weight, [x]) == weight(x)
  {
    assert [x][1..] == [];
  }
}
