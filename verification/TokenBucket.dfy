/**
 The token bucket of tsf_segment and tsf_enqueue on its own: how a balance is refilled and charged, and
 what any sequence of charges it admits can cost.  Times and costs are nanoseconds.
 */
module TokenBucket {

  // `tokens` is the balance at the time check-point `tc`.
  datatype Bucket = Bucket(tokens: int, tc: int)

  datatype Charge = Charge(time: int, cost: nat)

  function Min(a: int, b: int): int {
    if a < b then a else b
  }

  // The balance at `now`, never more than the depth of the bucket.
  function Refill(depth: nat, b: Bucket, now: int): int {
    var toks := Min(now - b.tc, depth) + b.tokens;
    if toks > depth then depth else toks
  }

  ghost predicate BucketInv(depth: nat, b: Bucket) {
    0 <= b.tokens <= depth
  }

  function Spend(depth: nat, b: Bucket, ch: Charge): Bucket {
    Bucket(Refill(depth, b, ch.time) - ch.cost, ch.time)
  }

  // Every charge comes no earlier than the check-point and is covered by the balance it finds.
  ghost predicate Legal(depth: nat, b: Bucket, log: seq<Charge>)
    decreases |log|
  {
    log == [] ||
    (b.tc <= log[0].time && log[0].cost <= Refill(depth, b, log[0].time)
     && Legal(depth, Spend(depth, b, log[0]), log[1..]))
  }

  function After(depth: nat, b: Bucket, log: seq<Charge>): Bucket
    decreases |log|
  {
    if log == [] then b else After(depth, Spend(depth, b, log[0]), log[1..])
  }

  function TotalCost(log: seq<Charge>): nat {
    if log == [] then 0 else log[0].cost + TotalCost(log[1..])
  }

  lemma {:induction false} TotalCostConcat(a: seq<Charge>, b: seq<Charge>)
    ensures TotalCost(a + b) == TotalCost(a) + TotalCost(b)
  {
    if a == [] {
      assert a + b == b;
    } else {
      assert (a + b)[1..] == a[1..] + b;
      TotalCostConcat(a[1..], b);
    }
  }

  lemma {:induction false} LegalConcat(depth: nat, b: Bucket, log: seq<Charge>, more: seq<Charge>)
    ensures Legal(depth, b, log + more) <==> Legal(depth, b, log) && Legal(depth, After(depth, b, log), more)
    ensures After(depth, b, log + more) == After(depth, After(depth, b, log), more)
    decreases |log|
  {
    if log == [] {
      assert log + more == more;
    } else {
      assert (log + more)[1..] == log[1..] + more;
      LegalConcat(depth, Spend(depth, b, log[0]), log[1..], more);
    }
  }

  // The balance stays between zero and the depth, and the check-point follows the last charge.
  lemma {:induction false} LegalKeepsInv(depth: nat, b: Bucket, log: seq<Charge>)
    requires BucketInv(depth, b) && Legal(depth, b, log)
    ensures BucketInv(depth, After(depth, b, log))
    ensures b.tc <= After(depth, b, log).tc
    ensures log != [] ==> After(depth, b, log).tc == log[|log|-1].time
    decreases |log|
  {
    if log != [] {
      LegalKeepsInv(depth, Spend(depth, b, log[0]), log[1..]);
    }
  }

  // From a given balance, what is spent is at most that balance plus the time that passes.
  lemma {:induction false} SpentFrom(depth: nat, b: Bucket, log: seq<Charge>)
    requires BucketInv(depth, b) && Legal(depth, b, log)
    ensures TotalCost(log) + After(depth, b, log).tokens <= b.tokens + After(depth, b, log).tc - b.tc
    decreases |log|
  {
    if log != [] {
      SpentFrom(depth, Spend(depth, b, log[0]), log[1..]);
    }
  }

  // Conformance: any consecutive charges, the first at time a and the last at time b, cost at most the
  // depth of the bucket plus b - a, whatever came before them.
  lemma Conformance(depth: nat, b: Bucket, log: seq<Charge>, i: nat, j: nat)
    requires BucketInv(depth, b) && Legal(depth, b, log)
    requires i <= j < |log|
    ensures TotalCost(log[i..j + 1]) <= depth + log[j].time - log[i].time
  {
    var before, slice := log[..i], log[i..j + 1];
    assert log == (before + slice) + log[j + 1..];
    LegalConcat(depth, b, before + slice, log[j + 1..]);
    LegalConcat(depth, b, before, slice);
    LegalKeepsInv(depth, b, before);
    var b0 := After(depth, b, before);
    var b1 := Spend(depth, b0, slice[0]);
    SpentFrom(depth, b1, slice[1..]);
    LegalKeepsInv(depth, b0, slice);
    assert b1.tc == log[i].time && slice[|slice|-1] == log[j];
  }

  /* ---------- what the refilled balance is ---------- */

  // The two caps of the code come to one: the balance plus the time passed, and at most the depth.
  lemma RefillIs(depth: nat, b: Bucket, now: int)
    requires BucketInv(depth, b) && b.tc <= now
    ensures Refill(depth, b, now) == Min(depth, b.tokens + now - b.tc)
    ensures b.tokens <= Refill(depth, b, now) <= depth
  {
  }

  // Charges that cost nothing, and so refills at any times in between, change no later balance.
  lemma {:induction false} RefillOften(depth: nat, b: Bucket, log: seq<Charge>, now: int)
    requires BucketInv(depth, b) && Legal(depth, b, log) && After(depth, b, log).tc <= now
    requires forall i :: 0 <= i < |log| ==> log[i].cost == 0
    ensures Refill(depth, After(depth, b, log), now) == Refill(depth, b, now)
    decreases |log|
  {
    if log != [] {
      var b1 := Spend(depth, b, log[0]);
      LegalKeepsInv(depth, b1, log[1..]);
      RefillOften(depth, b1, log[1..], now);
    }
  }

  /* ---------- leaving charges out ---------- */

  // What a balance is worth at time zero.
  function Credit(b: Bucket): int {
    b.tokens - b.tc
  }

  // `sub` is a part of the charges `log` that would be admitted on its own, and leaves no less.
  ghost predicate Sublog(depth: nat, b: Bucket, log: seq<Charge>, sub: seq<Charge>) {
    && Legal(depth, b, log) && Legal(depth, b, sub)
    && After(depth, b, sub).tc <= After(depth, b, log).tc
    && Credit(After(depth, b, sub)) >= Credit(After(depth, b, log))
    && TotalCost(sub) <= TotalCost(log)
  }

  // A covered charge can be added to the log, and to the part or not.
  lemma {:induction false} SublogCharge(depth: nat, b: Bucket, log: seq<Charge>, sub: seq<Charge>, ch: Charge)
    requires BucketInv(depth, b) && Sublog(depth, b, log, sub)
    requires After(depth, b, log).tc <= ch.time && ch.cost <= Refill(depth, After(depth, b, log), ch.time)
    ensures After(depth, b, log + [ch]) == Spend(depth, After(depth, b, log), ch)
    ensures Sublog(depth, b, log + [ch], sub) && Sublog(depth, b, log + [ch], sub + [ch])
  {
    var l, s := After(depth, b, log), After(depth, b, sub);
    assert [ch][1..] == [];
    LegalConcat(depth, b, log, [ch]);
    LegalConcat(depth, b, sub, [ch]);
    TotalCostConcat(log, [ch]);
    TotalCostConcat(sub, [ch]);
    LegalKeepsInv(depth, b, log);
    LegalKeepsInv(depth, b, sub);
    RefillIs(depth, l, ch.time);
    RefillIs(depth, s, ch.time);
    OneLegal(depth, l, ch);
    OneLegal(depth, s, ch);
  }

  lemma OneLegal(depth: nat, b: Bucket, ch: Charge)
    ensures Legal(depth, b, [ch]) <==> b.tc <= ch.time && ch.cost <= Refill(depth, b, ch.time)
    ensures After(depth, b, [ch]) == Spend(depth, b, ch)
    ensures TotalCost([ch]) == ch.cost
  {
    assert [ch][1..] == [];
  }

  // A charge is admitted at the earliest moment the balance covers it, and from then on: waiting for the
  // shortfall is exactly enough, provided the bucket can hold that much at all.
  lemma ShortfallWait(depth: nat, b: Bucket, now: int, cost: nat, later: int)
    requires BucketInv(depth, b) && b.tc <= now <= later
    requires Refill(depth, b, now) < cost
    ensures Refill(depth, b, later) >= cost <==> cost <= depth && later >= now + cost - Refill(depth, b, now)
  {
  }
}
