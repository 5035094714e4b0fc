/**
 in_ring: which of the queued packets enter the timing wheel, what it does to the wheel, when it leaves a packet
 waiting in spite of room, and when it overruns a row.
 */
module WheelEntry {
  import opened Totals
  import opened TimingWheel

  /* ---------- in_ring ---------- */

  // What in_ring makes of its input queue: the wheel, the packets still queued, those admitted, and
  // whether it wrote past the end of a slot's row; what happens from then on is undefined.
  datatype Entry = Entry(wheel: Wheel, queue: seq<Packet>, admitted: seq<Packet>, overrun: bool)

  const LATENCY: real := 40.0

  // The rate of the only ring in the program, in kilobytes a second.
  const RATE: real := 128.0

  predicate Expired(p: Packet, round: nat) {
    p.arrival + LATENCY < round as real * 0.1
  }

  predicate TooBig(rate: real, p: Packet)
    requires rate > 0.0
  {
    p.len as real / rate / 1024.0 > 1.0
  }

  function InRing(rate: real, w: Wheel, queue: seq<Packet>, round: nat): (r: Entry)
    requires rate > 0.0 && Shape(w) && w.total >= 0
    ensures Shape(r.wheel) && r.wheel.total >= 0
    decreases |queue|
  {
    if queue == [] then Entry(w, [], [], false)
    else
      var p, rest := queue[0], queue[1..];
      if Expired(p, round) then InRing(rate, w, rest, round)
      else if TooBig(rate, p) then Entry(w, rest, [], false)
      else
        TargetNonNegative(rate, p.len + w.total);
        var target := Target(rate, p.len + w.total);
        if target > BLOCK then Entry(w, queue, [], false)
        else if target <= w.lead && |w.slots[w.lead]| >= QLEN then Entry(w, queue, [], true)
        else
          var r := InRing(rate, Enter(w, p, target), rest, round);
          r.(admitted := [p] + r.admitted)
  }

  lemma TargetNonNegative(rate: real, bytes: nat)
    requires rate > 0.0
    ensures Target(rate, bytes) >= 0
  {
    var x := bytes as real / (rate * 1024.0) * BLOCK as real;
    assert bytes as real / (rate * 1024.0) >= 0.0;
    assert x >= 0.0;
  }

  lemma Multiplied(x: real, y: real, d: real)
    requires d > 0.0
    ensures x <= y <==> x * d <= y * d
  {
    if x <= y {
      assert (y - x) * d >= 0.0;
    } else {
      assert (x - y) * d > 0.0;
    }
  }

  lemma Bracket(x: real, d: real, m: real, lo: real, hi: real)
    requires d > 0.0 && x * d == m
    ensures lo <= x < hi <==> lo * d <= m < hi * d
  {
    Multiplied(lo, x, d);
    Multiplied(hi, x, d);
  }

  lemma FloorIs(x: real, d: real, m: real, k: int)
    requires d > 0.0 && x * d == m
    ensures k == x.Floor <==> k as real * d <= m < (k + 1) as real * d
  {
    Bracket(x, d, m, k as real, (k + 1) as real);
    assert k == x.Floor <==> k as real <= x < (k + 1) as real;
  }

  // A packet is aimed at the slot in whose time the last of the bytes is sent, a slot being a thousandth of what the
  // rate allows in a second.
  lemma TargetIs(rate: real, bytes: int, k: int)
    requires rate > 0.0
    ensures k == Target(rate, bytes) <==>
              k as real * (rate * 1024.0) <= (bytes * BLOCK) as real < (k + 1) as real * (rate * 1024.0)
  {
    var d := rate * 1024.0;
    var x := bytes as real / d * BLOCK as real;
    SlotsOf(bytes, d, x);
    FloorIs(x, d, (bytes * BLOCK) as real, k);
  }

  lemma SlotsOf(bytes: int, d: real, x: real)
    requires d > 0.0 && x == bytes as real / d * BLOCK as real
    ensures x * d == (bytes * BLOCK) as real
  {
    var y := bytes as real / d;
    assert y * d == bytes as real;
  }

  // One that is more than a second's worth is filtered out.
  lemma TooBigIff(rate: real, p: Packet)
    requires rate > 0.0
    ensures TooBig(rate, p) <==> p.len as real > rate * 1024.0
  {
    var y := p.len as real / rate;
    var x := y / 1024.0;
    assert x * 1024.0 == y && y * rate == p.len as real;
    Multiplied(x, 1.0, 1024.0);
    Multiplied(y, 1024.0, rate);
  }

  // The packets of `ps` that in_ring neither drops for age nor filters for size.
  function Fit(rate: real, ps: seq<Packet>, round: nat): seq<Packet>
    requires rate > 0.0
  {
    if ps == [] then []
    else (if Expired(ps[0], round) || TooBig(rate, ps[0]) then [] else [ps[0]]) + Fit(rate, ps[1..], round)
  }

  // It consumes a prefix of its queue and admits, in order, exactly the fit packets of that prefix.
  lemma {:induction false} InRingTakesPrefix(rate: real, w: Wheel, queue: seq<Packet>, round: nat)
    requires rate > 0.0 && Shape(w) && w.total >= 0
    ensures var r := InRing(rate, w, queue, round);
            var k := |queue| - |r.queue|;
            && 0 <= k && r.queue == queue[k..] && r.admitted == Fit(rate, queue[..k], round)
    decreases |queue|
  {
    if queue != [] {
      var p, rest := queue[0], queue[1..];
      var r := InRing(rate, w, queue, round);
      var k := |queue| - |r.queue|;
      TargetNonNegative(rate, p.len + w.total);
      var target := Target(rate, p.len + w.total);
      if Expired(p, round) {
        InRingTakesPrefix(rate, w, rest, round);
        assert queue[..k][1..] == rest[..k - 1];
      } else if TooBig(rate, p) {
        assert queue[..1][1..] == [];
      } else if target > BLOCK || (target <= w.lead && |w.slots[w.lead]| >= QLEN) {
        assert queue[..0] == [];
      } else {
        InRingTakesPrefix(rate, Enter(w, p, target), rest, round);
        assert queue[..k][1..] == rest[..k - 1];
      }
    }
  }

  function Entries(ps: seq<Packet>): seq<Event> {
    seq(|ps|, i requires 0 <= i < |ps| => Entering(ps[i]))
  }

  // The packet at the front of the queue is the first to be admitted, or none is or it is expired.
  lemma InRingTurn(rate: real, w: Wheel, queue: seq<Packet>, round: nat)
    requires rate > 0.0 && Shape(w) && w.total >= 0
    requires InRing(rate, w, queue, round).admitted != [] && !Expired(queue[0], round)
    ensures var r := InRing(rate, w, queue, round);
            var target := Target(rate, queue[0].len + w.total);
            && 0 <= target <= BLOCK
            && var r' := InRing(rate, Enter(w, queue[0], target), queue[1..], round);
               r == r'.(admitted := [queue[0]] + r'.admitted)
  {
    TargetNonNegative(rate, queue[0].len + w.total);
  }

  // Admitting `ps` leads to the wheel `w`.
  ghost predicate Leads(aim: int -> int, s: Run, ps: seq<Packet>, w: Wheel) {
    && Shape(s.wheel) && Runnable(aim, s, Entries(ps))
    && Play(aim, s, Entries(ps)) == Run(w, s.admitted + ps, s.released)
  }

  lemma LeadsMore(aim: int -> int, s: Run, p: Packet, ps: seq<Packet>, w: Wheel)
    requires Shape(s.wheel) && Allowed(aim, s, Entering(p))
    requires Leads(aim, Step(aim, s, Entering(p)), ps, w)
    ensures Leads(aim, s, [p] + ps, w)
  {
    assert Entries([p] + ps)[0] == Entering(p) && Entries([p] + ps)[1..] == Entries(ps);
    assert s.admitted + ([p] + ps) == (s.admitted + [p]) + ps;
  }

  // The effect of in_ring on the wheel is the run that admits those packets, so the results on runs cover it.
  lemma {:induction false} InRingIsPlayed(rate: real, s: Run, queue: seq<Packet>, round: nat)
    requires rate > 0.0 && Shape(s.wheel) && s.wheel.total >= 0
    ensures var r := InRing(rate, s.wheel, queue, round); Leads(Aim(rate), s, r.admitted, r.wheel) == true
    decreases |queue|
  {
    var r := InRing(rate, s.wheel, queue, round);
    if r.admitted == [] {
      NothingAdmitted(rate, s.wheel, queue, round);
    } else if Expired(queue[0], round) {
      InRingIsPlayed(rate, s, queue[1..], round);
    } else {
      var p := queue[0];
      InRingTurn(rate, s.wheel, queue, round);
      var w1 := Enter(s.wheel, p, Target(rate, p.len + s.wheel.total));
      var s1 := Run(w1, s.admitted + [p], s.released);
      InRingIsPlayed(rate, s1, queue[1..], round);
      LeadsMore(Aim(rate), s, p, r.admitted[1..], r.wheel);
    }
  }

  lemma {:induction false} NothingAdmitted(rate: real, w: Wheel, queue: seq<Packet>, round: nat)
    requires rate > 0.0 && Shape(w) && w.total >= 0
    requires InRing(rate, w, queue, round).admitted == []
    ensures InRing(rate, w, queue, round).wheel == w
    decreases |queue|
  {
    if queue != [] && Expired(queue[0], round) {
      NothingAdmitted(rate, w, queue[1..], round);
    }
  }

  /* ---------- the byte counter never runs short ---------- */

  // A packet that wraps may overwrite others, whose bytes then stay in the counter for good.
  ghost predicate Sane(w: Wheel) {
    Shape(w) && w.total >= Bytes(Held(w))
  }

  lemma SetSlot(slots: seq<seq<Packet>>, d: nat, ps: seq<Packet>)
    requires d < |slots|
    ensures Bytes(Concat(slots[d := ps])) + Bytes(slots[d]) == Bytes(Concat(slots)) + Bytes(ps)
  {
    var before, after := slots[..d], slots[d + 1..];
    ConcatAt(slots, d);
    ConcatAt(slots[d := ps], d);
    assert slots[d := ps][..d] == before && slots[d := ps][d + 1..] == after;
    BytesThree(Concat(before), slots[d], Concat(after));
    BytesThree(Concat(before), ps, Concat(after));
  }

  lemma BytesThree(a: seq<Packet>, b: seq<Packet>, c: seq<Packet>)
    ensures Bytes(a + b + c) == Bytes(a) + Bytes(b) + Bytes(c)
  {
    TotalConcat(Length, a + b, c);
    TotalConcat(Length, a, b);
  }

  lemma EnterSane(w: Wheel, p: Packet, target: int)
    requires Sane(w) && 0 <= target <= BLOCK
    ensures Sane(Enter(w, p, target))
  {
    TotalOne(Length, p);
    if target <= w.lead {
      SetSlot(w.slots, w.lead, w.slots[w.lead] + [p]);
      TotalConcat(Length, w.slots[w.lead], [p]);
    } else {
      SetSlot(w.slots, if target < BLOCK then target else 0, [p]);
    }
  }

  lemma TickSane(w: Wheel)
    requires Sane(w)
    ensures Sane(Tick(w))
  {
    ConcatAt(w.slots, 0);
    TotalConcat(Length, w.slots[0], Concat(w.slots[1..]));
    assert Tick(w).slots == w.slots[1..] + [[]];
    ConcatConcat(w.slots[1..], [[]]);
    ConcatOne([]);
    assert Held(w) == w.slots[0] + Concat(w.slots[1..]);
    assert Held(Tick(w)) == Concat(w.slots[1..]);
  }

  lemma {:induction false} InRingSane(rate: real, w: Wheel, queue: seq<Packet>, round: nat)
    requires rate > 0.0 && Sane(w)
    ensures Sane(InRing(rate, w, queue, round).wheel)
    decreases |queue|
  {
    var r := InRing(rate, w, queue, round);
    if r.admitted == [] {
      NothingAdmitted(rate, w, queue, round);
    } else if Expired(queue[0], round) {
      InRingSane(rate, w, queue[1..], round);
    } else {
      InRingTurn(rate, w, queue, round);
      EnterSane(w, queue[0], Target(rate, queue[0].len + w.total));
      InRingSane(rate, Enter(w, queue[0], Target(rate, queue[0].len + w.total)), queue[1..], round);
    }
  }

  lemma EmptySane()
    ensures Sane(EMPTY) && Held(EMPTY) == []
  {
    ConcatEmpty(EMPTY.slots);
  }

  /* ---------- loads and targets ---------- */

  // The bytes of those packets that are not expired.
  function Load(ps: seq<Packet>, round: nat): nat {
    if ps == [] then 0 else (if Expired(ps[0], round) then 0 else ps[0].len) + Load(ps[1..], round)
  }

  lemma LoadShift(ps: seq<Packet>, round: nat, j: nat)
    requires j < |ps|
    ensures Load(ps[..j + 1], round) == Load(ps[..1], round) + Load(ps[1..][..j], round)
    ensures Load(ps[..1], round) == if Expired(ps[0], round) then 0 else ps[0].len
  {
    assert ps[..j + 1][1..] == ps[1..][..j] && ps[..1][1..] == [];
  }

  lemma TargetGrows(rate: real, a: int, b: int)
    requires rate > 0.0 && a <= b
    ensures Target(rate, a) <= Target(rate, b)
  {
    var d := rate * 1024.0;
    var x, y := a as real / d, b as real / d;
    assert x * d == a as real && y * d == b as real;
    assert (y - x) * d >= 0.0;
    assert y - x >= 0.0;
    assert x * BLOCK as real <= y * BLOCK as real;
  }

  /* ---------- overrunning a row ---------- */

  // Fewer packets than a row has places cannot overrun it.
  lemma {:induction false} NoOverrun(rate: real, w: Wheel, queue: seq<Packet>, round: nat)
    requires rate > 0.0 && Shape(w) && w.total >= 0 && |w.slots[w.lead]| + |queue| <= QLEN
    ensures !InRing(rate, w, queue, round).overrun
    decreases |queue|
  {
    if queue != [] {
      var target := Target(rate, queue[0].len + w.total);
      TargetNonNegative(rate, queue[0].len + w.total);
      if Expired(queue[0], round) {
        NoOverrun(rate, w, queue[1..], round);
      } else if !TooBig(rate, queue[0]) && target <= BLOCK {
        NoOverrun(rate, Enter(w, queue[0], target), queue[1..], round);
      }
    }
  }

  // The slot that packet `j` is aimed at once all unexpired packets before it are in the wheel.
  function Aimed(rate: real, total: int, ps: seq<Packet>, round: nat, j: nat): int
    requires rate > 0.0 && j < |ps|
  {
    Target(rate, total + Load(ps[..j], round) + ps[j].len)
  }

  // The unexpired packets of `ps` that are aimed at slot `level` or beyond.
  function Joining(rate: real, total: int, ps: seq<Packet>, round: nat, level: int): nat
    requires rate > 0.0
    decreases |ps|
  {
    if ps == [] then 0
    else if Expired(ps[0], round) then Joining(rate, total, ps[1..], round, level)
    else
      (if Target(rate, total + ps[0].len) >= level then 1 else 0)
      + Joining(rate, total + ps[0].len, ps[1..], round, level)
  }

  // Packet `j` is dropped for age, or enters the wheel less than a round ahead.
  predicate Enters(rate: real, total: int, ps: seq<Packet>, round: nat, j: nat)
    requires rate > 0.0 && j < |ps|
  {
    Expired(ps[j], round) || (!TooBig(rate, ps[j]) && Aimed(rate, total, ps, round, j) < BLOCK)
  }

  // So do all packets before packet `i`.
  ghost predicate AllEnter(rate: real, total: int, ps: seq<Packet>, round: nat, i: nat)
    requires rate > 0.0 && i <= |ps|
  {
    forall j :: 0 <= j < i ==> Enters(rate, total, ps, round, j)
  }

  // Packet `i` finds the row it joins full: the `held` packets that were in the row of the insertion pointer, if
  // that is the one, and those before it in the queue that go there.
  ghost predicate OverrunsAt(rate: real, total: int, lead: nat, held: nat, ps: seq<Packet>, round: nat, i: nat)
    requires rate > 0.0
  {
    && i < |ps| && !Expired(ps[i], round) && !TooBig(rate, ps[i])
    && AllEnter(rate, total, ps, round, i)
    && Filling(rate, total, lead, held, ps[..i], round, Aimed(rate, total, ps, round, i)) >= QLEN
  }

  // The packets in the row that a packet aimed at `target` joins behind `ps`.
  function Filling(rate: real, total: int, lead: nat, held: nat, ps: seq<Packet>, round: nat, target: int): nat
    requires rate > 0.0
  {
    if target <= lead then held + Joining(rate, total, ps, round, 0) else Joining(rate, total, ps, round, target)
  }

  ghost predicate Overruns(rate: real, total: int, lead: nat, held: nat, ps: seq<Packet>, round: nat)
    requires rate > 0.0
  {
    exists i: nat :: OverrunsAt(rate, total, lead, held, ps, round, i)
  }

  // Once every packet is aimed at `level` or beyond, all of them count.
  lemma {:induction false} JoiningAll(rate: real, total: int, ps: seq<Packet>, round: nat, level: int)
    requires rate > 0.0 && 0 <= level <= Target(rate, total)
    ensures Joining(rate, total, ps, round, level) == Joining(rate, total, ps, round, 0)
    decreases |ps|
  {
    if ps != [] {
      TargetGrows(rate, total, total + ps[0].len);
      JoiningAll(rate, if Expired(ps[0], round) then total else total + ps[0].len, ps[1..], round, level);
    }
  }

  lemma AimedShift(rate: real, total: int, ps: seq<Packet>, round: nat, j: nat)
    requires rate > 0.0 && j + 1 < |ps|
    ensures Aimed(rate, total, ps, round, j + 1)
            == Aimed(rate, total + Load(ps[..1], round), ps[1..], round, j)
    ensures Target(rate, total + Load(ps[..1], round)) <= Aimed(rate, total, ps, round, j + 1)
  {
    LoadShift(ps, round, j);
    TargetGrows(rate, total + Load(ps[..1], round), total + Load(ps[..j + 1], round) + ps[j + 1].len);
  }

  // The insertion pointer and its row once a packet aimed at `target` is in.
  function NextLead(lead: nat, target: nat): nat {
    if target <= lead then lead else target
  }

  function NextHeld(lead: nat, held: nat, target: nat): nat {
    if target <= lead then held + 1 else 1
  }

  // A row fills in the same way when the first packet has already been put in.
  lemma FillingShift(rate: real, total: nat, lead: nat, held: nat, p: Packet, ps: seq<Packet>,
                     round: nat, first: nat, target: int)
    requires rate > 0.0 && !Expired(p, round)
    requires first == Target(rate, total + p.len) <= target
    ensures Filling(rate, total, lead, held, [p] + ps, round, target)
            == Filling(rate, total + p.len, NextLead(lead, first), NextHeld(lead, held, first), ps, round, target)
  {
    assert ([p] + ps)[1..] == ps;
    if lead < target <= first {
      JoiningAll(rate, total + p.len, ps, round, target);
    }
  }

  lemma OverrunsShift(rate: real, total: nat, lead: nat, held: nat, ps: seq<Packet>, round: nat,
                      first: nat, i: nat)
    requires rate > 0.0 && ps != [] && !Expired(ps[0], round)
    requires first == Target(rate, total + ps[0].len) && Enters(rate, total, ps, round, 0)
    ensures OverrunsAt(rate, total, lead, held, ps, round, i + 1)
            <==> OverrunsAt(rate, total + ps[0].len, NextLead(lead, first), NextHeld(lead, held, first), ps[1..],
                            round, i)
  {
    if i + 1 < |ps| {
      var rest, total' := ps[1..], total + ps[0].len;
      LoadShift(ps, round, 0);
      EntersShift(rate, total, ps, round, i);
      AimedShift(rate, total, ps, round, i);
      assert ps[..i + 1] == [ps[0]] + rest[..i];
      FillingShift(rate, total, lead, held, ps[0], rest[..i], round, first, Aimed(rate, total, ps, round, i + 1));
    }
  }

  lemma EntersShift(rate: real, total: int, ps: seq<Packet>, round: nat, i: nat)
    requires rate > 0.0 && i + 1 < |ps| && Enters(rate, total, ps, round, 0)
    ensures AllEnter(rate, total, ps, round, i + 1)
            <==> AllEnter(rate, total + Load(ps[..1], round), ps[1..], round, i)
  {
    var rest, behind := ps[1..], total + Load(ps[..1], round);
    forall j | 0 <= j < i
      ensures Enters(rate, behind, rest, round, j) <==> Enters(rate, total, ps, round, j + 1)
    {
      AimedShift(rate, total, ps, round, j);
    }
    if AllEnter(rate, behind, rest, round, i) {
      forall j | 0 <= j < i + 1 ensures Enters(rate, total, ps, round, j) {
        assert j > 0 ==> Enters(rate, behind, rest, round, j - 1);
      }
    }
  }

  // An expired packet changes nothing.
  lemma OverrunsSkip(rate: real, total: nat, lead: nat, held: nat, ps: seq<Packet>, round: nat,
                     i: nat)
    requires rate > 0.0 && ps != [] && Expired(ps[0], round)
    ensures OverrunsAt(rate, total, lead, held, ps, round, i + 1)
            <==> OverrunsAt(rate, total, lead, held, ps[1..], round, i)
  {
    if i + 1 < |ps| {
      LoadShift(ps, round, 0);
      EntersShift(rate, total, ps, round, i);
      AimedShift(rate, total, ps, round, i);
      assert ps[..i + 1][0] == ps[0] && ps[..i + 1][1..] == ps[1..][..i];
    }
  }

  // Behind a packet that has wrapped, nothing joins a row any more.
  lemma {:induction false} NoneBeyond(rate: real, w: Wheel, queue: seq<Packet>, round: nat)
    requires rate > 0.0 && Shape(w) && w.total >= 0 && Target(rate, w.total) >= BLOCK
    ensures !InRing(rate, w, queue, round).overrun
    decreases |queue|
  {
    if queue != [] {
      var total := queue[0].len + w.total;
      TargetGrows(rate, w.total, total);
      if Expired(queue[0], round) {
        NoneBeyond(rate, w, queue[1..], round);
      } else if !TooBig(rate, queue[0]) && Target(rate, total) <= BLOCK {
        NoneBeyond(rate, Enter(w, queue[0], Target(rate, total)), queue[1..], round);
      }
    }
  }

  ghost predicate RowOverruns(rate: real, w: Wheel, ps: seq<Packet>, round: nat)
    requires rate > 0.0 && Shape(w)
  {
    Overruns(rate, w.total, w.lead, |w.slots[w.lead]|, ps, round)
  }

  // Nothing bounds the packets that join one row.  On any wheel and with any queue, in_ring overruns a row exactly
  // when it reaches a packet whose row is filled by what was in it and by the packets before it in the queue.
  lemma {:induction false} RowOverrunIff(rate: real, w: Wheel, ps: seq<Packet>, round: nat)
    requires rate > 0.0 && Shape(w) && w.total >= 0
    ensures InRing(rate, w, ps, round).overrun <==> RowOverruns(rate, w, ps, round)
    decreases |ps|
  {
    var held := |w.slots[w.lead]|;
    if ps != [] {
      var p, rest := ps[0], ps[1..];
      var target := Target(rate, p.len + w.total);
      TargetNonNegative(rate, p.len + w.total);
      FirstOverruns(rate, w.total, w.lead, held, ps, round);
      if Expired(p, round) {
        RowOverrunIff(rate, w, rest, round);
        SkipAll(rate, w.total, w.lead, held, ps, round);
      } else if TooBig(rate, p) || target > BLOCK {
        NoneBehind(rate, w.total, w.lead, held, ps, round);
      } else if target == BLOCK {
        NoneBeyond(rate, Enter(w, p, target), rest, round);
        NoneBehind(rate, w.total, w.lead, held, ps, round);
      } else if target > w.lead || held < QLEN {
        RowOverrunIff(rate, Enter(w, p, target), rest, round);
        ShiftAll(rate, w.total, w.lead, held, ps, round, target);
      }
    }
  }

  lemma FirstOverruns(rate: real, total: nat, lead: nat, held: nat, ps: seq<Packet>, round: nat)
    requires rate > 0.0 && ps != []
    ensures OverrunsAt(rate, total, lead, held, ps, round, 0)
            <==> !Expired(ps[0], round) && !TooBig(rate, ps[0])
                 && Target(rate, total + ps[0].len) <= lead && held >= QLEN
    ensures Enters(rate, total, ps, round, 0)
            <==> Expired(ps[0], round) || (!TooBig(rate, ps[0]) && Target(rate, total + ps[0].len) < BLOCK)
  {
    assert ps[..0] == [];
  }

  lemma NoneBehind(rate: real, total: nat, lead: nat, held: nat, ps: seq<Packet>, round: nat)
    requires rate > 0.0 && ps != [] && !Enters(rate, total, ps, round, 0)
    requires !OverrunsAt(rate, total, lead, held, ps, round, 0)
    ensures !Overruns(rate, total, lead, held, ps, round)
  {
  }

  lemma SkipAll(rate: real, total: nat, lead: nat, held: nat, ps: seq<Packet>, round: nat)
    requires rate > 0.0 && ps != [] && Expired(ps[0], round)
    ensures Overruns(rate, total, lead, held, ps, round) <==> Overruns(rate, total, lead, held, ps[1..], round)
  {
    if Overruns(rate, total, lead, held, ps, round) {
      var i: nat :| OverrunsAt(rate, total, lead, held, ps, round, i);
      OverrunsSkip(rate, total, lead, held, ps, round, i - 1);
    }
    if Overruns(rate, total, lead, held, ps[1..], round) {
      var i: nat :| OverrunsAt(rate, total, lead, held, ps[1..], round, i);
      OverrunsSkip(rate, total, lead, held, ps, round, i);
    }
  }

  lemma ShiftAll(rate: real, total: nat, lead: nat, held: nat, ps: seq<Packet>, round: nat,
                 first: nat)
    requires rate > 0.0 && ps != [] && !Expired(ps[0], round)
    requires first == Target(rate, total + ps[0].len) && Enters(rate, total, ps, round, 0)
    requires !OverrunsAt(rate, total, lead, held, ps, round, 0)
    ensures Overruns(rate, total, lead, held, ps, round)
            <==> Overruns(rate, total + ps[0].len, NextLead(lead, first), NextHeld(lead, held, first), ps[1..], round)
  {
    var rest, lead', held' := ps[1..], NextLead(lead, first), NextHeld(lead, held, first);
    if Overruns(rate, total, lead, held, ps, round) {
      var i: nat :| OverrunsAt(rate, total, lead, held, ps, round, i);
      OverrunsShift(rate, total, lead, held, ps, round, first, i - 1);
    }
    if Overruns(rate, total + ps[0].len, lead', held', rest, round) {
      var i: nat :| OverrunsAt(rate, total + ps[0].len, lead', held', rest, round, i);
      OverrunsShift(rate, total, lead, held, ps, round, first, i);
    }
  }

  // In the program any 81 packets of at most 131 bytes together overrun a row of the empty wheel.
  lemma RowOverrun(ps: seq<Packet>, round: nat)
    requires |ps| == QLEN + 1 && Bytes(ps) <= 131
    requires forall i :: 0 <= i < |ps| ==> !Expired(ps[i], round)
    ensures InRing(RATE, EMPTY, ps, round).overrun
  {
    forall j | 0 <= j < |ps| ensures !TooBig(RATE, ps[j]) && Aimed(RATE, 0, ps, round, j) == 0 {
      LoadWithin(ps, round, j);
      TargetNonNegative(RATE, Load(ps[..j], round) + ps[j].len);
    }
    JoiningFirst(RATE, 0, ps[..QLEN], round);
    assert OverrunsAt(RATE, 0, 0, 0, ps, round, QLEN);
    RowOverrunIff(RATE, EMPTY, ps, round);
  }

  lemma {:induction false} LoadWithin(ps: seq<Packet>, round: nat, j: nat)
    requires j < |ps|
    ensures Load(ps[..j], round) + ps[j].len <= Bytes(ps)
  {
    if j > 0 {
      LoadShift(ps, round, j - 1);
      LoadWithin(ps[1..], round, j - 1);
      assert ps[1..][j - 1] == ps[j];
    } else {
      assert ps[..0] == [];
    }
  }

  lemma {:induction false} JoiningFirst(rate: real, total: nat, ps: seq<Packet>, round: nat)
    requires rate > 0.0 && forall i :: 0 <= i < |ps| ==> !Expired(ps[i], round)
    ensures Joining(rate, total, ps, round, 0) == |ps|
    decreases |ps|
  {
    if ps != [] {
      TargetNonNegative(rate, total + ps[0].len);
      JoiningFirst(rate, total + ps[0].len, ps[1..], round);
    }
  }

  /* ---------- packets that find room ---------- */

  // There is room for the packet when the wheel holds `total` bytes.
  predicate Fits(rate: real, total: int, p: Packet)
    requires rate > 0.0
  {
    Target(rate, p.len + total) <= BLOCK
  }

  // No queued packet waits while there is room for it.
  ghost predicate Served(rate: real, total: int, queue: seq<Packet>)
    requires rate > 0.0
  {
    forall k :: 0 <= k < |queue| ==> !Fits(rate, total, queue[k])
  }

  // The packet at the front of the queue does not.
  predicate FrontServed(rate: real, total: int, queue: seq<Packet>)
    requires rate > 0.0
  {
    queue == [] || !Fits(rate, total, queue[0])
  }

  // Once all before it are through, packet `j` does not stop in_ring.
  predicate Passes(rate: real, total: int, ps: seq<Packet>, round: nat, j: nat)
    requires rate > 0.0 && j < |ps|
  {
    Expired(ps[j], round) || (!TooBig(rate, ps[j]) && Fits(rate, total + Load(ps[..j], round), ps[j]))
  }

  // Packet `i` is the first that does, or there is none.
  ghost predicate StopsAt(rate: real, total: int, ps: seq<Packet>, round: nat, i: nat)
    requires rate > 0.0
  {
    && i <= |ps| && (forall j :: 0 <= j < i ==> Passes(rate, total, ps, round, j))
    && (i < |ps| ==> !Passes(rate, total, ps, round, i))
  }

  lemma StopsOnce(rate: real, total: int, ps: seq<Packet>, round: nat, i: nat, j: nat)
    requires rate > 0.0 && StopsAt(rate, total, ps, round, i) && StopsAt(rate, total, ps, round, j)
    ensures i == j
  {
  }

  lemma {:induction false} StopsShift(rate: real, total: int, ps: seq<Packet>, round: nat, i: nat)
    requires rate > 0.0 && ps != [] && Passes(rate, total, ps, round, 0)
    requires StopsAt(rate, total + Load(ps[..1], round), ps[1..], round, i)
    ensures StopsAt(rate, total, ps, round, i + 1)
  {
    var rest, behind := ps[1..], total + Load(ps[..1], round);
    forall j | 0 <= j < |rest|
      ensures Passes(rate, behind, rest, round, j) <==> Passes(rate, total, ps, round, j + 1)
    {
      LoadShift(ps, round, j);
    }
    forall j | 0 <= j < i + 1 ensures Passes(rate, total, ps, round, j) {
      assert j > 0 ==> Passes(rate, behind, rest, round, j - 1);
    }
    assert i < |rest| ==> !Passes(rate, behind, rest, round, i);
  }

  // What a call of in_ring that overruns no row leaves behind: a packet that is too big for the wheel is gone, one
  // that finds no room is not.
  function Left(rate: real, ps: seq<Packet>, i: nat): seq<Packet>
    requires rate > 0.0 && i <= |ps|
  {
    if i < |ps| && TooBig(rate, ps[i]) then ps[i + 1..] else ps[i..]
  }

  lemma InRingStopped(rate: real, w: Wheel, queue: seq<Packet>, round: nat)
    requires rate > 0.0 && Shape(w) && w.total >= 0 && !InRing(rate, w, queue, round).overrun
    requires StopsAt(rate, w.total, queue, round, 0)
    ensures InRing(rate, w, queue, round).wheel == w && InRing(rate, w, queue, round).queue == Left(rate, queue, 0)
  {
    assert queue[..0] == [] && queue[0..] == queue;
  }

  // in_ring goes on behind a packet that passes.
  lemma InRingPasses(rate: real, w: Wheel, queue: seq<Packet>, round: nat) returns (w': Wheel)
    requires rate > 0.0 && Shape(w) && w.total >= 0 && !InRing(rate, w, queue, round).overrun
    requires queue != [] && Passes(rate, w.total, queue, round, 0)
    ensures Shape(w') && w'.total == w.total + Load(queue[..1], round)
    ensures var r, r' := InRing(rate, w, queue, round), InRing(rate, w', queue[1..], round);
            !r'.overrun && r.wheel == r'.wheel && r.queue == r'.queue
  {
    var p := queue[0];
    assert queue[..0] == [];
    LoadShift(queue, round, 0);
    TargetNonNegative(rate, p.len + w.total);
    w' := if Expired(p, round) then w else Enter(w, p, Target(rate, p.len + w.total));
  }

  lemma {:induction false} InRingStops(rate: real, w: Wheel, queue: seq<Packet>, round: nat) returns (i: nat)
    requires rate > 0.0 && Shape(w) && w.total >= 0 && !InRing(rate, w, queue, round).overrun
    ensures StopsAt(rate, w.total, queue, round, i)
    ensures var r := InRing(rate, w, queue, round);
            r.wheel.total == w.total + Load(queue[..i], round) && r.queue == Left(rate, queue, i)
    decreases |queue|
  {
    if queue != [] && Passes(rate, w.total, queue, round, 0) {
      var w' := InRingPasses(rate, w, queue, round);
      i := InRingStops(rate, w', queue[1..], round);
      StopsShift(rate, w.total, queue, round, i);
      LoadShift(queue, round, i);
      LeftShift(rate, queue, i);
      i := i + 1;
    } else {
      i := 0;
      InRingStopped(rate, w, queue, round);
    }
  }

  lemma LeftShift(rate: real, ps: seq<Packet>, i: nat)
    requires rate > 0.0 && i < |ps|
    ensures Left(rate, ps, i + 1) == Left(rate, ps[1..], i)
  {
  }

  // There is room for a packet behind packet `i`.
  ghost predicate RoomBehind(rate: real, total: int, ps: seq<Packet>, round: nat, i: nat)
    requires rate > 0.0 && i <= |ps|
  {
    exists k :: i < k < |ps| && Fits(rate, total + Load(ps[..i], round), ps[k])
  }

  lemma {:induction false} LeftServed(rate: real, total: int, ps: seq<Packet>, round: nat, i: nat)
    requires rate > 0.0 && StopsAt(rate, total, ps, round, i)
    ensures Served(rate, total + Load(ps[..i], round), Left(rate, ps, i)) <==> !RoomBehind(rate, total, ps, round, i)
  {
    var left, room := Left(rate, ps, i), total + Load(ps[..i], round);
    var d := |ps| - |left|;
    assert forall k :: 0 <= k < |left| ==> left[k] == ps[k + d];
    if RoomBehind(rate, total, ps, round, i) {
      var k :| i < k < |ps| && Fits(rate, room, ps[k]);
      assert left[k - d] == ps[k];
    }
  }

  // Behind the packet at which in_ring stops there is one that would fit.
  ghost predicate Strands(rate: real, total: int, ps: seq<Packet>, round: nat)
    requires rate > 0.0
  {
    exists i: nat :: StopsAt(rate, total, ps, round, i) && RoomBehind(rate, total, ps, round, i)
  }

  // A call of in_ring that overruns no row leaves no packet waiting in spite of room exactly when none behind the
  // packet at which it stops would fit.
  lemma {:induction false} ServedIff(rate: real, w: Wheel, queue: seq<Packet>, round: nat)
    requires rate > 0.0 && Shape(w) && w.total >= 0 && !RowOverruns(rate, w, queue, round)
    ensures var r := InRing(rate, w, queue, round);
            Served(rate, r.wheel.total, r.queue) == !Strands(rate, w.total, queue, round)
  {
    RowOverrunIff(rate, w, queue, round);
    var i := InRingStops(rate, w, queue, round);
    LeftServed(rate, w.total, queue, round, i);
    if Strands(rate, w.total, queue, round) {
      var i': nat :| StopsAt(rate, w.total, queue, round, i') && RoomBehind(rate, w.total, queue, round, i');
      StopsOnce(rate, w.total, queue, round, i, i');
    }
  }

  // Packet `i` is the first to stop in_ring, being too big, and the one behind it would fit.
  ghost predicate Breaks(rate: real, total: int, ps: seq<Packet>, round: nat)
    requires rate > 0.0
  {
    exists i: nat :: i + 1 < |ps| && StopsAt(rate, total, ps, round, i) && TooBig(rate, ps[i])
                     && Fits(rate, total + Load(ps[..i], round), ps[i + 1])
  }

  // The front of the queue alone is served exactly when the call does not stop at a packet that is too big with
  // one behind it that would fit.
  lemma {:induction false} FrontServedIff(rate: real, w: Wheel, queue: seq<Packet>, round: nat)
    requires rate > 0.0 && Shape(w) && w.total >= 0 && !RowOverruns(rate, w, queue, round)
    ensures var r := InRing(rate, w, queue, round);
            FrontServed(rate, r.wheel.total, r.queue) <==> !Breaks(rate, w.total, queue, round)
  {
    RowOverrunIff(rate, w, queue, round);
    var i := InRingStops(rate, w, queue, round);
    if Breaks(rate, w.total, queue, round) {
      var i': nat :| i' + 1 < |queue| && StopsAt(rate, w.total, queue, round, i') && TooBig(rate, queue[i'])
                     && Fits(rate, w.total + Load(queue[..i'], round), queue[i' + 1]);
      StopsOnce(rate, w.total, queue, round, i, i');
    }
  }
}
