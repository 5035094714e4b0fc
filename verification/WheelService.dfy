/**
 What the timing wheel promises its packets: a packet that has waited too long is dropped, and one that finds
 room is taken in.  The code keeps these promises only while packets arrive; the lemmas say exactly when.
 */
module WheelService {
  import opened Totals
  import opened Iteration
  import opened TimingWheel
  import opened WheelEntry
  import opened WheelTimer

  /* ---------- signals without arrivals ---------- */

  ghost function Quietly(): Driver -> bool {
    (s: Driver) => Incoming(s) == []
  }

  // Nothing arrives in the next `n` rounds.
  ghost predicate QuietFor(rate: real, s: Driver, n: nat)
    requires rate > 0.0
  {
    Along(Next(rate), Quietly(), s, n)
  }

  // The wheel after `k` ticks without admissions.
  function Turned(w: Wheel, k: nat): (w': Wheel)
    requires Shape(w)
    ensures Shape(w')
    decreases k
  {
    if k == 0 then w else Turned(Tick(w), k - 1)
  }

  // The wheel `w'` is `w` after the ticks of the rounds from `m` to `n`, without admissions.
  ghost predicate TurnedSince(w: Wheel, m: nat, w': Wheel, n: nat) {
    Shape(w) && TickCount(n) >= TickCount(m) && w' == Turned(w, TickCount(n) - TickCount(m))
  }

  lemma TurnedStep(w: Wheel, m: nat, w': Wheel, n: nat)
    requires TurnedSince(w, m, w', n)
    ensures TurnedSince(w, m, if Turns(n + 1) then Tick(w') else w', n + 1)
  {
    TickOf(n);
    TurnedMore(w, TickCount(n) - TickCount(m), 1);
    assert Turned(w', 1) == Turned(Tick(w'), 0);
  }

  // `s'` is `s` some rounds later: only the wheel has turned.
  ghost predicate QuietSince(s: Driver, s': Driver) {
    Sane(s'.wheel) && s'.queue == s.queue && TurnedSince(s.wheel, s.round, s'.wheel, s'.round)
  }

  lemma QuietSignal(rate: real, s: Driver)
    requires rate > 0.0 && Sane(s.wheel) && Incoming(s) == []
    ensures var (s', out, overrun) := Signal(rate, s);
            && s'.queue == s.queue && s'.input == Remaining(s) && s'.round == s.round + 1 && !overrun
            && s'.wheel == if Turns(s.round + 1) then Tick(s.wheel) else s.wheel
  {
  }

  lemma QuietStep(rate: real, s: Driver, d: Driver)
    requires rate > 0.0 && QuietSince(s, d) && Incoming(d) == []
    ensures QuietSince(s, Next(rate)(d)) == true
  {
    NextKeeps(rate, d);
    QuietSignal(rate, d);
    TurnedStep(s.wheel, s.round, d.wheel, d.round);
  }

  // Until the next packet arrives the queue stays as it is, whatever its packets' age and whatever room there
  // is, while the wheel turns and empties.
  lemma QuietSignals(rate: real, s: Driver, n: nat)
    requires rate > 0.0 && Sane(s.wheel) && QuietFor(rate, s, n)
    ensures QuietSince(s, Signals(rate, s, n)) == true
    ensures Signals(rate, s, n).round == s.round + n
    ensures RowsHold(rate, s, n)
  {
    var inv, hold := (d: Driver) => QuietSince(s, d), Holding(rate);
    forall d: Driver | inv(d) && Quietly()(d) ensures inv(Next(rate)(d)) {
      QuietStep(rate, s, d);
    }
    Keeps(Next(rate), Quietly(), inv, s, n);
    forall d: Driver | Quietly()(d) && inv(d) ensures hold(d) {
    }
    BothAlong(Next(rate), Quietly(), inv, hold, s, n);
    SignalsPass(rate, s, n);
  }

  lemma {:induction false} TurnedMore(w: Wheel, j: nat, k: nat)
    requires Shape(w)
    ensures Turned(Turned(w, j), k) == Turned(w, j + k)
    decreases j
  {
    if j > 0 {
      TurnedMore(Tick(w), j - 1, k);
    }
  }

  // The front of the input arrives in more than `n` rounds.
  ghost predicate Early(s: Driver, n: nat) {
    Sane(s.wheel) && (s.input == [] || !Arrived(s.input[0], s.round + n))
  }

  // No packet arrives before the one at the front of the input does.
  lemma NoneYet(rate: real, s: Driver, n: nat)
    requires rate > 0.0 && Early(s, n)
    ensures QuietFor(rate, s, n)
  {
    var inv := (d: Driver, k: nat) => Early(d, k);
    forall d: Driver, k: nat | k > 0 && inv(d, k) ensures Quietly()(d) && inv(Next(rate)(d), k - 1) {
      NotYet(d, k);
      NextKeeps(rate, d);
      QuietSignal(rate, d);
    }
    Countdown(Next(rate), Quietly(), inv, s, n);
  }

  lemma NotYet(s: Driver, n: nat)
    requires n > 0 && (s.input == [] || !Arrived(s.input[0], s.round + n))
    ensures Incoming(s) == [] && Remaining(s) == s.input
  {
    assert s.input[0..] == s.input;
  }

  // A round of ticks empties the wheel.
  lemma {:induction false} TurnedSlots(w: Wheel, k: nat)
    requires Shape(w)
    ensures forall d :: 0 <= d < BLOCK ==> Turned(w, k).slots[d] == if d + k < BLOCK then w.slots[d + k] else []
    decreases k
  {
    if k > 0 {
      TurnedSlots(Tick(w), k - 1);
    }
  }

  lemma {:induction false} TurnedInv(w: Wheel, k: nat)
    requires Inv(w)
    ensures Inv(Turned(w, k))
    decreases k
  {
    if k > 0 {
      TickKeeps(w);
      TurnedInv(Tick(w), k - 1);
    }
  }

  lemma TurnedEmpty(w: Wheel, k: nat)
    requires Inv(w) && k >= BLOCK
    ensures Held(Turned(w, k)) == [] && Turned(w, k).total == 0
  {
    TurnedSlots(w, k);
    TurnedInv(w, k);
    ConcatEmpty(Turned(w, k).slots);
  }

  /* ---------- packets that wait too long ---------- */

  ghost predicate Sorted(ps: seq<Packet>) {
    forall i, j :: 0 <= i < j < |ps| ==> ps[i].arrival <= ps[j].arrival
  }

  ghost predicate NoneExpired(ps: seq<Packet>, round: nat) {
    forall i :: 0 <= i < |ps| ==> !Expired(ps[i], round)
  }

  lemma FrontDecides(ps: seq<Packet>, round: nat)
    requires Sorted(ps)
    ensures NoneExpired(ps, round) <==> ps == [] || !Expired(ps[0], round)
  {
  }

  // in_ring leaves no expired packet behind.
  lemma {:induction false} InRingDrops(rate: real, w: Wheel, queue: seq<Packet>, round: nat)
    requires rate > 0.0 && Shape(w) && w.total >= 0 && Sorted(queue)
    ensures NoneExpired(InRing(rate, w, queue, round).queue, round)
    decreases |queue|
  {
    if queue != [] {
      if Expired(queue[0], round) {
        InRingDrops(rate, w, queue[1..], round);
      } else {
        FrontDecides(queue, round);
        var r := InRing(rate, w, queue, round);
        InRingTakesPrefix(rate, w, queue, round);
        assert forall i :: 0 <= i < |r.queue| ==> r.queue[i] == queue[|queue| - |r.queue| + i];
      }
    }
  }

  // Of packets that come in order of arrival, none is queued longer than the latency after a signal exactly when
  // a packet arrived in that round, or the packet at the front of the queue had not waited that long.
  lemma NoneExpiredIff(rate: real, s: Driver)
    requires rate > 0.0 && Sane(s.wheel) && Sorted(s.queue + s.input)
    ensures NoneExpired(Signal(rate, s).0.queue, s.round + 1)
            <==> Incoming(s) != [] || s.queue == [] || !Expired(s.queue[0], s.round + 1)
  {
    if Incoming(s) == [] {
      PrefixSorted(s.queue, s.input);
      FrontDecides(s.queue, s.round + 1);
    } else {
      Queueing(s);
      PrefixSorted(s.queue + Incoming(s), Remaining(s));
      InRingDrops(rate, s.wheel, s.queue + Incoming(s), s.round + 1);
    }
  }

  lemma SortedSlice(ps: seq<Packet>, i: nat, j: nat)
    requires Sorted(ps) && i <= j <= |ps|
    ensures Sorted(ps[i..j])
  {
  }

  lemma WithoutMiddle(ps: seq<Packet>, qs: seq<Packet>, k: nat)
    requires Sorted(ps + qs) && k <= |qs|
    ensures Sorted(ps + qs[k..])
  {
    var all, some := ps + qs, ps + qs[k..];
    forall i, j | 0 <= i < j < |some| ensures some[i].arrival <= some[j].arrival {
      var i', j' := if i < |ps| then i else i + k, if j < |ps| then j else j + k;
      assert some[i] == all[i'] && some[j] == all[j'];
    }
  }

  lemma PrefixSorted(ps: seq<Packet>, qs: seq<Packet>)
    requires Sorted(ps + qs)
    ensures Sorted(ps)
  {
    assert forall i :: 0 <= i < |ps| ==> ps[i] == (ps + qs)[i];
  }

  lemma Queueing(s: Driver)
    requires Sorted(s.queue + s.input)
    ensures Sorted((s.queue + Incoming(s)) + Remaining(s))
  {
    var a := FirstFresh(s.input, s.round + 1, 0);
    var b := FirstLate(s.input, s.round + 1, a);
    WithoutMiddle(s.queue, s.input, a);
    Halves(s.queue, s.input, a, b);
  }

  lemma Halves(ps: seq<Packet>, qs: seq<Packet>, a: nat, b: nat)
    requires a <= b <= |qs|
    ensures (ps + qs[a..b]) + qs[b..] == ps + qs[a..]
  {
  }

  lemma SuffixSorted(ps: seq<Packet>, qs: seq<Packet>, k: nat)
    requires Sorted(ps + qs) && k <= |ps|
    ensures Sorted(ps[k..] + qs)
  {
    assert ps[k..] + qs == (ps + qs)[k..|ps + qs|];
    SortedSlice(ps + qs, k, |ps + qs|);
  }

  lemma ReceiveTakes(rate: real, s: Driver)
    requires rate > 0.0 && Sane(s.wheel)
    ensures var all, left := s.queue + Incoming(s), Receive(rate, s).queue;
            |left| <= |all| && left == all[|all| - |left|..]
  {
    if Incoming(s) != [] {
      InRingTakesPrefix(rate, s.wheel, s.queue + Incoming(s), s.round + 1);
    }
  }

  // The order of arrival is kept.
  lemma SignalSorted(rate: real, s: Driver)
    requires rate > 0.0 && Sane(s.wheel) && Sorted(s.queue + s.input)
    ensures var s' := Signal(rate, s).0; Sorted(s'.queue + s'.input)
  {
    var all := s.queue + Incoming(s);
    Queueing(s);
    ReceiveTakes(rate, s);
    SuffixSorted(all, Remaining(s), |all| - |Receive(rate, s).queue|);
  }

  lemma SignalsSorted(rate: real, s: Driver, n: nat)
    requires rate > 0.0 && Sane(s.wheel) && Sorted(s.queue + s.input)
    ensures var s' := Signals(rate, s, n); Sorted(s'.queue + s'.input)
  {
    var inv := (d: Driver) => Sane(d.wheel) && Sorted(d.queue + d.input);
    forall d: Driver | inv(d) ensures inv(Next(rate)(d)) {
      NextKeeps(rate, d);
      SignalSorted(rate, d);
    }
    Invariant(Next(rate), inv, s, n);
  }

  /* ---------- packets that find room ---------- */

  // After a signal, up to its tick, no packet waits in spite of room exactly when none behind the packet at which
  // in_ring stops would fit; without arrivals nothing is taken in, and the answer is the one before the signal.
  lemma RoomIff(rate: real, s: Driver)
    requires rate > 0.0 && Sane(s.wheel) && SignalHolds(rate, s)
    ensures var e := Receive(rate, s);
            Served(rate, e.wheel.total, e.queue)
            == if Incoming(s) == [] then Served(rate, s.wheel.total, s.queue)
               else !Strands(rate, s.wheel.total, s.queue + Incoming(s), s.round + 1)
  {
    if Incoming(s) != [] {
      ServedIff(rate, s.wheel, s.queue + Incoming(s), s.round + 1);
    }
  }

  // The front of the queue waits in spite of room exactly when in_ring stops at a packet that is too big.
  lemma FrontRoomIff(rate: real, s: Driver)
    requires rate > 0.0 && Sane(s.wheel) && SignalHolds(rate, s)
    ensures var e := Receive(rate, s);
            FrontServed(rate, e.wheel.total, e.queue)
            == if Incoming(s) == [] then FrontServed(rate, s.wheel.total, s.queue)
               else !Breaks(rate, s.wheel.total, s.queue + Incoming(s), s.round + 1)
  {
    if Incoming(s) != [] {
      FrontServedIff(rate, s.wheel, s.queue + Incoming(s), s.round + 1);
    }
  }

  /* ---------- runs from the start that break the promises ---------- */

  // Two packets that arrive at once, the second of which finds the wheel full.
  const FILLS := Packet(0.0, 131_000)
  const WAITS := Packet(0.0, 1_000)
  const BOTH := Driver([FILLS, WAITS], [], 0, EMPTY)
  const FULL := Wheel(EMPTY.slots[999 := [FILLS]], 999, 131_000)

  lemma BothArrive(a: Packet, b: Packet)
    requires a.arrival == b.arrival == 0.0
    ensures var s := Driver([a, b], [], 0, EMPTY); Incoming(s) == [a, b] && Remaining(s) == []
  {
    var s := Driver([a, b], [], 0, EMPTY);
    assert Arrived(a, 1) && Arrived(b, 1);
    assert FirstLate(s.input, 1, 2) == FirstLate(s.input, 1, 1) == 2;
    assert FirstFresh(s.input, 1, 0) == 0 && s.input[0..2] == s.input;
  }

  lemma FirstSignal()
    ensures Sane(EMPTY) && Signal(RATE, BOTH) == (Driver([], [WAITS], 1, FULL), [], false)
  {
    EmptySane();
    BothArrive(FILLS, WAITS);
    assert Target(RATE, 131_000) == 999 && Target(RATE, 132_000) == 1_007;
    assert [FILLS, WAITS][1..] == [WAITS] && [] + [FILLS, WAITS] == [FILLS, WAITS];
    assert !Expired(FILLS, 1) && !Expired(WAITS, 1) && !TooBig(RATE, FILLS) && !TooBig(RATE, WAITS);
    assert InRing(RATE, FULL, [WAITS], 1) == Entry(FULL, [WAITS], [], false);
    assert InRing(RATE, EMPTY, [FILLS, WAITS], 1) == Entry(FULL, [WAITS], [FILLS], false);
  }

  lemma FullInv()
    ensures Inv(FULL) && Sane(FULL)
  {
    EmptySane();
    EnterKeeps(EMPTY, FILLS, 999);
    TotalOne(Length, FILLS);
  }

  const STUCK := Driver([], [WAITS], 1, FULL)

  lemma StuckForGood(n: nat)
    requires n >= 9_999
    ensures var s := Signals(RATE, STUCK, n);
            s.queue == [WAITS] && s.round == n + 1 && Held(s.wheel) == [] && s.wheel.total == 0
  {
    FullInv();
    NoneYet(RATE, STUCK, n);
    QuietSignals(RATE, STUCK, n);
    TurnedEmpty(FULL, TickCount(n + 1) - TickCount(1));
  }

  // The second packet is still queued when its latency is long over and the wheel is empty, however many
  // signals come.
  lemma Stranded(n: nat)
    requires n >= 10_000
    ensures var s := Signals(RATE, BOTH, n);
            && s.queue == [WAITS] && Expired(WAITS, s.round)
            && Held(s.wheel) == [] && Fits(RATE, s.wheel.total, WAITS)
  {
    FirstSignal();
    assert Next(RATE)(BOTH) == STUCK;
    StuckForGood(n - 1);
    assert Target(RATE, 1_000) == 7;
  }

  // A small packet waits in front of an empty wheel, because the one before it was too big.
  lemma BehindTooBig()
    ensures var big, small := Packet(0.0, 131_073), Packet(0.0, 64);
            && Sane(EMPTY) && Fits(RATE, EMPTY.total, small)
            && Signal(RATE, Driver([big, small], [], 0, EMPTY)) == (Driver([], [small], 1, EMPTY), [], false)
  {
    var big, small := Packet(0.0, 131_073), Packet(0.0, 64);
    EmptySane();
    BothArrive(big, small);
    assert [] + [big, small] == [big, small] && [big, small][1..] == [small];
    assert !Expired(big, 1) && TooBig(RATE, big);
    assert InRing(RATE, EMPTY, [big, small], 1) == Entry(EMPTY, [small], [], false);
    assert Target(RATE, 64) == 0;
  }

  // A small packet waits although there is room for it, because the one before it has none.
  const SMALL := Packet(0.0, 5)
  const THREE := Driver([FILLS, WAITS, SMALL], [], 0, EMPTY)

  lemma BehindLong()
    ensures Sane(EMPTY) && Signal(RATE, THREE) == (Driver([], [WAITS, SMALL], 1, FULL), [], false)
    ensures FrontServed(RATE, FULL.total, [WAITS, SMALL]) && Fits(RATE, FULL.total, SMALL)
  {
    EmptySane();
    ThreeArrive();
    assert Target(RATE, 131_000) == 999 && Target(RATE, 132_000) == 1_007 && Target(RATE, 131_005) == 999;
    assert !Expired(FILLS, 1) && !Expired(WAITS, 1) && !TooBig(RATE, FILLS) && !TooBig(RATE, WAITS);
    assert [FILLS, WAITS, SMALL][1..] == [WAITS, SMALL] && [] + [FILLS, WAITS, SMALL] == [FILLS, WAITS, SMALL];
    assert InRing(RATE, FULL, [WAITS, SMALL], 1) == Entry(FULL, [WAITS, SMALL], [], false);
    assert InRing(RATE, EMPTY, [FILLS, WAITS, SMALL], 1) == Entry(FULL, [WAITS, SMALL], [FILLS], false);
  }

  lemma ThreeArrive()
    ensures Incoming(THREE) == [FILLS, WAITS, SMALL] && Remaining(THREE) == []
  {
    var all := THREE.input;
    assert Arrived(FILLS, 1) && Arrived(WAITS, 1) && Arrived(SMALL, 1);
    assert FirstLate(all, 1, 3) == FirstLate(all, 1, 2) == FirstLate(all, 1, 1) == 3;
    assert FirstFresh(all, 1, 0) == 0 && all[0..3] == all;
  }

  // A packet that fills the round exactly wraps onto the one before it: both are admitted, one is held.
  lemma WrapExample()
    ensures var a, b := Packet(0.0, 1), Packet(0.0, 131_071);
            && Sane(EMPTY)
            && var (s, out, overrun) := Signal(RATE, Driver([a, b], [], 0, EMPTY));
               && Receive(RATE, Driver([a, b], [], 0, EMPTY)).admitted == [a, b] && out == [] && !overrun
               && Held(s.wheel) == [b] && s.wheel.total == 131_072
  {
    var a, b := Packet(0.0, 1), Packet(0.0, 131_071);
    EmptySane();
    BothArrive(a, b);
    assert [] + [a, b] == [a, b] && [a, b][1..] == [b] && [b][1..] == [];
    assert Target(RATE, 1) == 0 && Target(RATE, 131_072) == BLOCK;
    assert !Expired(a, 1) && !Expired(b, 1) && !TooBig(RATE, a) && !TooBig(RATE, b);
    var w1, w2 := Enter(EMPTY, a, 0), Enter(Enter(EMPTY, a, 0), b, BLOCK);
    assert InRing(RATE, w2, [], 1) == Entry(w2, [], [], false);
    assert InRing(RATE, w1, [b], 1) == Entry(w2, [], [b], false);
    assert InRing(RATE, EMPTY, [a, b], 1) == Entry(w2, [], [a, b], false);
    OnlyIn(w2.slots, b);
  }

  lemma OnlyIn(slots: seq<seq<Packet>>, p: Packet)
    requires slots != [] && slots[0] == [p] && forall d :: 0 < d < |slots| ==> slots[d] == []
    ensures Concat(slots) == [p]
  {
    ConcatEmpty(slots[1..]);
  }
}
