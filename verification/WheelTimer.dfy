/**
 What drives the timing wheel: the timer handler, which queues the packets that have arrived, lets in_ring admit
 them, and turns the wheel.  These functions are the specification of class `Timer`.
 */
module WheelTimer {
  import opened Iteration
  import opened TimingWheel
  import opened WheelEntry

  /* ---------- the timer handler ---------- */

  // The packets still to come, those that have arrived but are not in the wheel, and the round counter.
  datatype Driver = Driver(input: seq<Packet>, queue: seq<Packet>, round: nat, wheel: Wheel)

  predicate Arrived(p: Packet, round: nat) {
    p.arrival <= round as real * 0.1
  }

  // The first packet of the input from number `i` on that is not expired.
  function FirstFresh(input: seq<Packet>, round: nat, i: nat): (k: nat)
    requires i <= |input|
    ensures i <= k <= |input|
    ensures k < |input| ==> !Expired(input[k], round)
    decreases |input| - i
  {
    if i == |input| || !Expired(input[i], round) then i else FirstFresh(input, round, i + 1)
  }

  // The first from number `i` on that has not arrived.
  function FirstLate(input: seq<Packet>, round: nat, i: nat): (k: nat)
    requires i <= |input|
    ensures i <= k <= |input|
    ensures k < |input| ==> !Arrived(input[k], round)
    decreases |input| - i
  {
    if i == |input| || !Arrived(input[i], round) then i else FirstLate(input, round, i + 1)
  }

  // The packets that the next signal queues, and those it leaves in the input; expired ones at the front are
  // skipped.
  function Incoming(s: Driver): seq<Packet> {
    var a := FirstFresh(s.input, s.round + 1, 0);
    s.input[a..FirstLate(s.input, s.round + 1, a)]
  }

  function Remaining(s: Driver): seq<Packet> {
    s.input[FirstLate(s.input, s.round + 1, FirstFresh(s.input, s.round + 1, 0))..]
  }

  // There are ten rounds to a millisecond.
  function Round(time: real): real {
    10.0 * time
  }

  // Of the input, the packets up to number `a` are expired, and those from there up to number `b` have arrived; the
  // packets behind each of these are no longer so.
  ghost predicate TakenApart(input: seq<Packet>, round: nat, a: nat, b: nat) {
    && a <= b <= |input|
    && (forall i :: 0 <= i < a ==> Round(input[i].arrival + 40.0) < round as real)
    && (a < |input| ==> Round(input[a].arrival + 40.0) >= round as real)
    && (forall i :: a <= i < b ==> Round(input[i].arrival) <= round as real)
    && (b < |input| ==> Round(input[b].arrival) > round as real)
  }

  // That is how the input is taken apart; when the packets come in order of arrival, none of those left behind has
  // arrived.
  lemma IncomingIs(s: Driver) returns (a: nat, b: nat)
    ensures TakenApart(s.input, s.round + 1, a, b)
    ensures Incoming(s) == s.input[a..b] && Remaining(s) == s.input[b..]
    ensures (forall i, j :: 0 <= i < j < |s.input| ==> s.input[i].arrival <= s.input[j].arrival) ==>
              forall i :: b <= i < |s.input| ==> Round(s.input[i].arrival) > (s.round + 1) as real
  {
    a := FirstFresh(s.input, s.round + 1, 0);
    b := FirstLate(s.input, s.round + 1, a);
    FreshIs(s.input, s.round + 1, 0);
    LateIs(s.input, s.round + 1, a);
  }

  lemma {:induction false} FreshIs(input: seq<Packet>, round: nat, i: nat)
    requires i <= |input|
    ensures forall j :: i <= j < FirstFresh(input, round, i) ==> Expired(input[j], round)
    decreases |input| - i
  {
    if i < |input| && Expired(input[i], round) {
      FreshIs(input, round, i + 1);
    }
  }

  lemma {:induction false} LateIs(input: seq<Packet>, round: nat, i: nat)
    requires i <= |input|
    ensures forall j :: i <= j < FirstLate(input, round, i) ==> Arrived(input[j], round)
    decreases |input| - i
  {
    if i < |input| && Arrived(input[i], round) {
      LateIs(input, round, i + 1);
    }
  }

  // Arrived packets are queued and, only if there are any, in_ring runs.
  function Receive(rate: real, s: Driver): (e: Entry)
    requires rate > 0.0 && Shape(s.wheel) && s.wheel.total >= 0
    ensures Shape(e.wheel)
  {
    if Incoming(s) == [] then Entry(s.wheel, s.queue, [], false)
    else InRing(rate, s.wheel, s.queue + Incoming(s), s.round + 1)
  }

  // Every tenth round the current slot is released and the position moves on.
  predicate Turns(round: nat) {
    round % 10 == 0
  }

  // One timer signal: the state after it, what it released, and whether a row was overrun.
  function Signal(rate: real, s: Driver): (r: (Driver, seq<Packet>, bool))
    requires rate > 0.0 && Shape(s.wheel) && s.wheel.total >= 0
  {
    var e, round := Receive(rate, s), s.round + 1;
    if e.overrun || !Turns(round) then (Driver(Remaining(s), e.queue, round, e.wheel), [], e.overrun)
    else (Driver(Remaining(s), e.queue, round, Tick(e.wheel)), e.wheel.slots[0], false)
  }

  lemma SignalSane(rate: real, s: Driver)
    requires rate > 0.0 && Sane(s.wheel)
    ensures Sane(Signal(rate, s).0.wheel)
  {
    InRingSane(rate, s.wheel, s.queue + Incoming(s), s.round + 1);
    TickSane(Receive(rate, s).wheel);
  }

  /* ---------- many signals ---------- */

  // One signal after the other; a wheel in disorder stays as it is.
  ghost function Next(rate: real): Driver -> Driver
    requires rate > 0.0
  {
    (s: Driver) => if Sane(s.wheel) then Signal(rate, s).0 else s
  }

  // The state after `n` signals.
  ghost function Signals(rate: real, s: Driver, n: nat): Driver
    requires rate > 0.0
  {
    Iterate(Next(rate), s, n)
  }

  // The wheel is in order, and `n` rounds have passed since round `from`.
  ghost predicate Passed(from: nat, n: nat, s: Driver) {
    Sane(s.wheel) && s.round == from + n
  }

  lemma NextKeeps(rate: real, s: Driver)
    requires rate > 0.0 && Sane(s.wheel)
    ensures Sane(Next(rate)(s).wheel) && Next(rate)(s).round == s.round + 1
  {
    SignalSane(rate, s);
  }

  lemma SignalsPass(rate: real, s: Driver, n: nat)
    requires rate > 0.0 && Sane(s.wheel)
    ensures Passed(s.round, n, Signals(rate, s, n))
  {
    var inv, count := (d: Driver) => Sane(d.wheel), (d: Driver) => d.round;
    forall d: Driver | inv(d) ensures inv(Next(rate)(d)) && count(Next(rate)(d)) == count(d) + 1 {
      NextKeeps(rate, d);
    }
    Counts(Next(rate), inv, count, s, n);
  }

  /* ---------- overrun rows ---------- */

  // What the next signal admits overruns no row.
  ghost predicate SignalHolds(rate: real, s: Driver)
    requires rate > 0.0
  {
    Sane(s.wheel) && (Incoming(s) == [] || !RowOverruns(rate, s.wheel, s.queue + Incoming(s), s.round + 1))
  }

  ghost predicate SignalClean(rate: real, s: Driver)
    requires rate > 0.0
  {
    Sane(s.wheel) && !Signal(rate, s).2
  }

  ghost function Holding(rate: real): Driver -> bool
    requires rate > 0.0
  {
    (s: Driver) => SignalHolds(rate, s)
  }

  ghost function Cleanly(rate: real): Driver -> bool
    requires rate > 0.0
  {
    (s: Driver) => SignalClean(rate, s)
  }

  // Told from the state before each of the next `n` signals, none of them overruns a row.
  ghost predicate RowsHold(rate: real, s: Driver, n: nat)
    requires rate > 0.0
  {
    Along(Next(rate), Holding(rate), s, n)
  }

  lemma SignalHoldsIff(rate: real, s: Driver)
    requires rate > 0.0 && Sane(s.wheel)
    ensures SignalHolds(rate, s) <==> SignalClean(rate, s)
  {
    RowOverrunIff(rate, s.wheel, s.queue + Incoming(s), s.round + 1);
  }

  // That is exactly when none of them does.
  lemma RowsHoldIff(rate: real, s: Driver, n: nat)
    requires rate > 0.0 && Sane(s.wheel)
    ensures RowsHold(rate, s, n) <==> Along(Next(rate), Cleanly(rate), s, n)
  {
    var inv := (d: Driver) => Sane(d.wheel);
    forall d | inv(d) ensures (Holding(rate)(d) <==> Cleanly(rate)(d)) && inv(Next(rate)(d)) {
      SignalHoldsIff(rate, d);
      NextKeeps(rate, d);
    }
    SameAlong(Next(rate), Holding(rate), Cleanly(rate), inv, s, n);
  }

  /* ---------- whole runs of the handler are runs of the wheel ---------- */

  ghost function SignalEvents(rate: real, s: Driver): seq<Event>
    requires rate > 0.0
  {
    if Sane(s.wheel) then Entries(Receive(rate, s).admitted) + if Turns(s.round + 1) then [Ticking] else [] else []
  }

  ghost function SignalOutput(rate: real, s: Driver): seq<Packet>
    requires rate > 0.0
  {
    if Sane(s.wheel) then Signal(rate, s).1 else []
  }

  ghost function ToEvents(rate: real): Driver -> seq<Event>
    requires rate > 0.0
  {
    (s: Driver) => SignalEvents(rate, s)
  }

  ghost function ToOutput(rate: real): Driver -> seq<Packet>
    requires rate > 0.0
  {
    (s: Driver) => SignalOutput(rate, s)
  }

  ghost function SignalAdmissions(rate: real, s: Driver): seq<Packet>
    requires rate > 0.0
  {
    if Sane(s.wheel) then Receive(rate, s).admitted else []
  }

  ghost function ToAdmissions(rate: real): Driver -> seq<Packet>
    requires rate > 0.0
  {
    (s: Driver) => SignalAdmissions(rate, s)
  }

  // What `n` signals admit to the wheel.
  ghost function Admissions(rate: real, s: Driver, n: nat): seq<Packet>
    requires rate > 0.0
  {
    Gather(Next(rate), ToAdmissions(rate), s, n)
  }

  ghost function HandlerEvents(rate: real, s: Driver, n: nat): seq<Event>
    requires rate > 0.0
  {
    Gather(Next(rate), ToEvents(rate), s, n)
  }

  // What the handler prints.
  ghost function Outputs(rate: real, s: Driver, n: nat): seq<Packet>
    requires rate > 0.0
  {
    Gather(Next(rate), ToOutput(rate), s, n)
  }

  // The run `es` admits `ins`, leads to the wheel `w` and releases `out`.
  ghost predicate Plays(aim: int -> int, run: Run, es: seq<Event>, w: Wheel, ins: seq<Packet>, out: seq<Packet>) {
    && Shape(run.wheel) && Runnable(aim, run, es)
    && Play(aim, run, es) == Run(w, run.admitted + ins, run.released + out)
  }

  lemma {:induction false} PlaysConcat(aim: int -> int, run: Run,
                                       es: seq<Event>, w: Wheel, ins: seq<Packet>, out: seq<Packet>,
                                       fs: seq<Event>, w': Wheel, ins': seq<Packet>, out': seq<Packet>)
    requires Plays(aim, run, es, w, ins, out) && Plays(aim, Play(aim, run, es), fs, w', ins', out')
    ensures Plays(aim, run, es + fs, w', ins + ins', out + out')
  {
    PlayConcat(aim, run, es, fs);
    assert run.admitted + ins + ins' == run.admitted + (ins + ins');
    assert run.released + out + out' == run.released + (out + out');
  }

  lemma SignalIsPlayed(rate: real, s: Driver, run: Run)
    requires rate > 0.0 && run.wheel == s.wheel && SignalHolds(rate, s)
    ensures Plays(Aim(rate), run, SignalEvents(rate, s), Signal(rate, s).0.wheel, Receive(rate, s).admitted,
                  Signal(rate, s).1)
  {
    var e := Receive(rate, s);
    SignalHoldsIff(rate, s);
    ReceiveIsPlayed(rate, s, run);
    if Turns(s.round + 1) {
      assert [Ticking][1..] == [];
      PlayConcat(Aim(rate), run, Entries(e.admitted), [Ticking]);
    } else {
      assert Entries(e.admitted) + [] == Entries(e.admitted);
      assert run.released + [] == run.released;
    }
  }

  lemma ReceiveIsPlayed(rate: real, s: Driver, run: Run)
    requires rate > 0.0 && Sane(s.wheel) && run.wheel == s.wheel
    ensures var e := Receive(rate, s); Leads(Aim(rate), run, e.admitted, e.wheel)
  {
    if Incoming(s) == [] {
      assert Entries([]) == [] && run.admitted + [] == run.admitted;
    } else {
      InRingIsPlayed(rate, run, s.queue + Incoming(s), s.round + 1);
    }
  }

  // Steps that are each a run of the wheel are one run together.
  lemma {:induction false} PlaysAlong(aim: int -> int, f: Driver -> Driver, hold: Driver -> bool,
                                      ev: Driver -> seq<Event>, ins: Driver -> seq<Packet>,
                                      out: Driver -> seq<Packet>, s: Driver, run: Run, n: nat)
    requires run.wheel == s.wheel && Shape(run.wheel) && Along(f, hold, s, n)
    requires forall d: Driver, r: Run :: hold(d) && r.wheel == d.wheel ==>
      Plays(aim, r, ev(d), f(d).wheel, ins(d), out(d))
    ensures Plays(aim, run, Gather(f, ev, s, n), Iterate(f, s, n).wheel, Gather(f, ins, s, n), Gather(f, out, s, n))
    decreases n
  {
    if n == 0 {
      assert run.admitted + [] == run.admitted && run.released + [] == run.released;
    } else {
      assert Plays(aim, run, ev(s), f(s).wheel, ins(s), out(s));
      PlaysAlong(aim, f, hold, ev, ins, out, f(s), Play(aim, run, ev(s)), n - 1);
      PlaysConcat(aim, run, ev(s), f(s).wheel, ins(s), out(s),
                  Gather(f, ev, f(s), n - 1), Iterate(f, f(s), n - 1).wheel,
                  Gather(f, ins, f(s), n - 1), Gather(f, out, f(s), n - 1));
    }
  }

  // As long as no row is overrun, what the handler does to the wheel is a run of the wheel, and prints what that
  // run releases.
  lemma HandlerIsPlayed(rate: real, s: Driver, run: Run, n: nat)
    requires rate > 0.0 && Sane(s.wheel) && run.wheel == s.wheel && RowsHold(rate, s, n)
    ensures Plays(Aim(rate), run, HandlerEvents(rate, s, n),
                  Signals(rate, s, n).wheel, Admissions(rate, s, n), Outputs(rate, s, n)) == true
  {
    forall d: Driver, r: Run | Holding(rate)(d) && r.wheel == d.wheel
      ensures Plays(Aim(rate), r, ToEvents(rate)(d),
                    Next(rate)(d).wheel, ToAdmissions(rate)(d), ToOutput(rate)(d)) == true
    {
      SignalIsPlayed(rate, d, r);
    }
    PlaysAlong(Aim(rate), Next(rate), Holding(rate), ToEvents(rate), ToAdmissions(rate), ToOutput(rate), s, run, n);
  }

  // The ticks among the rounds up to round `n`.
  function TickCount(n: nat): nat {
    n / 10
  }

  lemma TickOf(n: nat)
    ensures TickCount(n + 1) == TickCount(n) + if Turns(n + 1) then 1 else 0
  {
  }

  // The ticks of many steps, counted by a clock that moves on with each of them.
  lemma {:induction false} TicksAlong(f: Driver -> Driver, ev: Driver -> seq<Event>, inv: Driver -> bool,
                                      clock: Driver -> int, s: Driver, n: nat)
    requires inv(s) && forall d :: inv(d) ==> inv(f(d)) && clock(d) + Ticks(ev(d)) == clock(f(d))
    ensures clock(s) + Ticks(Gather(f, ev, s, n)) == clock(Iterate(f, s, n))
    decreases n
  {
    if n > 0 {
      TicksAlong(f, ev, inv, clock, f(s), n - 1);
      TicksConcat(ev(s), Gather(f, ev, f(s), n - 1));
    }
  }

  // That run has a tick for every tenth round.
  lemma HandlerTicks(rate: real, s: Driver, n: nat)
    requires rate > 0.0 && Sane(s.wheel)
    ensures TickCount(s.round) + Ticks(HandlerEvents(rate, s, n)) == TickCount(s.round + n)
  {
    var inv, clock := (d: Driver) => Sane(d.wheel), (d: Driver) => TickCount(d.round);
    forall d: Driver | inv(d)
      ensures inv(Next(rate)(d)) && clock(d) + Ticks(ToEvents(rate)(d)) == clock(Next(rate)(d))
    {
      NextKeeps(rate, d);
      SignalTicks(rate, d);
    }
    TicksAlong(Next(rate), ToEvents(rate), inv, clock, s, n);
    SignalsPass(rate, s, n);
  }

  lemma SignalTicks(rate: real, s: Driver)
    requires rate > 0.0 && Sane(s.wheel)
    ensures TickCount(s.round) + Ticks(SignalEvents(rate, s)) == TickCount(s.round + 1)
    ensures Signal(rate, s).0.round == s.round + 1
  {
    TickOf(s.round);
    var tick := if Turns(s.round + 1) then [Ticking] else [];
    TicksConcat(Entries(Receive(rate, s).admitted), tick);
    NoTicks(Receive(rate, s).admitted);
    assert [Ticking][1..] == [];
  }

  lemma {:induction false} TicksConcat(es: seq<Event>, fs: seq<Event>)
    ensures Ticks(es + fs) == Ticks(es) + Ticks(fs)
  {
    if es == [] {
      assert es + fs == fs;
    } else {
      assert (es + fs)[1..] == es[1..] + fs;
      TicksConcat(es[1..], fs);
    }
  }

  lemma {:induction false} NoTicks(ps: seq<Packet>)
    ensures Ticks(Entries(ps)) == 0
  {
    if ps != [] {
      assert Entries(ps)[1..] == Entries(ps[1..]);
      NoTicks(ps[1..]);
    }
  }

  // A wheel without a past: what it holds is what has been admitted.
  function Fresh(w: Wheel): Run {
    Run(w, Held(w), [])
  }

  lemma FreshInv(w: Wheel)
    requires Inv(w)
    ensures RunInv(Fresh(w)) && Sane(w)
  {
    assert [] + Held(w) == Held(w);
  }

  // No admission of the next `n` signals wraps onto a wheel that holds packets.
  ghost predicate HandlerSafe(rate: real, s: Driver, n: nat)
    requires rate > 0.0 && Sane(s.wheel) && RowsHold(rate, s, n)
  {
    HandlerIsPlayed(rate, s, Fresh(s.wheel), n);
    SafeRun(Aim(rate), Fresh(s.wheel), HandlerEvents(rate, s, n))
  }

  // So whatever the input: as long as no row is overrun and nothing wraps onto packets, the handler prints what the
  // wheel held and what is admitted in order, each packet once, up to those the wheel still holds.
  lemma HandlerConserves(rate: real, s: Driver, n: nat)
    requires rate > 0.0 && Inv(s.wheel) && Sane(s.wheel) && RowsHold(rate, s, n) && HandlerSafe(rate, s, n)
    ensures Held(s.wheel) + Admissions(rate, s, n) == Outputs(rate, s, n) + Held(Signals(rate, s, n).wheel)
  {
    FreshInv(s.wheel);
    HandlerIsPlayed(rate, s, Fresh(s.wheel), n);
    PlayKeeps(Aim(rate), Fresh(s.wheel), HandlerEvents(rate, s, n));
    assert [] + Outputs(rate, s, n) == Outputs(rate, s, n);
  }

  /* ---------- delay in signals ---------- */

  lemma {:induction false} EntriesPlayed(aim: int -> int, run: Run, ps: seq<Packet>)
    requires Shape(run.wheel) && Runnable(aim, run, Entries(ps))
    ensures var end := Play(aim, run, Entries(ps));
            end.admitted == run.admitted + ps && end.wheel.total == run.wheel.total + Bytes(ps)
    decreases |ps|
  {
    if ps == [] {
      assert run.admitted + ps == run.admitted;
    } else {
      assert Entries(ps)[1..] == Entries(ps[1..]);
      EntriesPlayed(aim, Step(aim, run, Entering(ps[0])), ps[1..]);
      assert run.admitted + ps == (run.admitted + [ps[0]]) + ps[1..];
    }
  }

  // A packet admitted behind the events `a` and the packets `qs`, and before the events `c`.
  ghost function Around(a: seq<Event>, qs: seq<Packet>, p: Packet, c: seq<Event>): seq<Event> {
    a + (Entries(qs) + ([Entering(p)] + c))
  }

  // More bytes are aimed no earlier.
  ghost predicate Rises(aim: int -> int) {
    forall a: int, b: int :: a <= b ==> aim(a) <= aim(b)
  }

  lemma AimRises(rate: real)
    requires rate > 0.0
    ensures Rises(Aim(rate))
  {
    forall a: int, b: int | a <= b ensures Aim(rate)(a) <= Aim(rate)(b) {
      TargetGrows(rate, a, b);
    }
  }

  // The packets admitted before it in the same signal are aimed no later, and so make no difference to its slot.
  lemma {:induction false} DueBehind(aim: int -> int, x: Run, qs: seq<Packet>, target: int)
    requires RunInv(x) && Runnable(aim, x, Entries(qs)) && SafeRun(aim, x, Entries(qs)) && Rises(aim)
    requires aim(x.wheel.total + Bytes(qs)) <= target <= BLOCK
    ensures Due(Play(aim, x, Entries(qs)).wheel, target) == Due(x.wheel, target)
    decreases |qs|
  {
    if qs != [] && target < BLOCK {
      var x1 := Step(aim, x, Entering(qs[0]));
      assert Entries(qs)[1..] == Entries(qs[1..]);
      assert aim(x.wheel.total + qs[0].len) <= aim(x.wheel.total + Bytes(qs));
      StepKeepsIff(aim, x, Entering(qs[0]));
      LeadIsLastHeld(x.wheel);
      LeadIsLastHeld(x1.wheel);
      DueBehind(aim, x1, qs[1..], target);
    }
  }

  lemma {:induction false} DelayAround(aim: int -> int, run: Run, a: seq<Event>, w: Wheel, ins: seq<Packet>,
                                       out: seq<Packet>, qs: seq<Packet>, p: Packet, c: seq<Event>)
    requires RunInv(run) && Plays(aim, run, a, w, ins, out) && Rises(aim)
    requires Runnable(aim, run, Around(a, qs, p, c)) && SafeRun(aim, run, Around(a, qs, p, c))
    ensures Delayed(Play(aim, run, Around(a, qs, p, c)).released, |run.admitted| + |ins| + |qs|, p,
                    Due(w, aim(p.len + (w.total + Bytes(qs)))), Ticks(c)) == true
  {
    SafeConcat(aim, run, a, Entries(qs) + ([Entering(p)] + c));
    PlayKeeps(aim, run, a);
    DelayBehind(aim, Play(aim, run, a), w, |run.admitted| + |ins|, qs, p, c);
  }

  lemma {:induction false} DelayBehind(aim: int -> int, x: Run, w: Wheel, n: nat,
                                       qs: seq<Packet>, p: Packet, c: seq<Event>)
    requires RunInv(x) && Runnable(aim, x, Entries(qs) + ([Entering(p)] + c)) && Rises(aim)
    requires SafeRun(aim, x, Entries(qs) + ([Entering(p)] + c)) && w == x.wheel && n == |x.admitted|
    ensures Delayed(Play(aim, x, Entries(qs) + ([Entering(p)] + c)).released, n + |qs|, p,
                    Due(w, aim(p.len + (w.total + Bytes(qs)))), Ticks(c)) == true
  {
    SafeConcat(aim, x, Entries(qs), [Entering(p)] + c);
    PlayKeeps(aim, x, Entries(qs));
    EntriesPlayed(aim, x, qs);
    DelayNext(aim, Play(aim, x, Entries(qs)), p, c, n + |qs|, aim(p.len + (w.total + Bytes(qs))));
    DueBehind(aim, x, qs, aim(p.len + (w.total + Bytes(qs))));
  }

  lemma DelayNext(aim: int -> int, y: Run, p: Packet, c: seq<Event>, n: nat, target: int)
    requires RunInv(y) && Runnable(aim, y, [Entering(p)] + c) && SafeRun(aim, y, [Entering(p)] + c)
    requires target == TargetIn(aim, y.wheel, p) && n == |y.admitted|
    ensures 0 <= target <= BLOCK
    ensures Delayed(Play(aim, y, [Entering(p)] + c).released, n, p, Due(y.wheel, target), Ticks(c)) == true
  {
    assert ([Entering(p)] + c)[1..] == c;
    DelayFrom(aim, y, p, c);
  }

  lemma TicksAround(a: seq<Event>, qs: seq<Packet>, p: Packet, c: seq<Event>)
    ensures Ticks(Around(a, qs, p, c)) == Ticks(a) + Ticks(c)
  {
    TicksConcat(a, Entries(qs) + ([Entering(p)] + c));
    TicksConcat(Entries(qs), [Entering(p)] + c);
    NoTicks(qs);
    assert ([Entering(p)] + c)[1..] == c;
  }

  // The events of `n` signals, around packet number `j` of those that the one after the first `m` admits.
  lemma SplitAt(rate: real, s: Driver, m: nat, j: nat, n: nat) returns (c: seq<Event>)
    requires rate > 0.0 && m < n && j < |AdmittedAt(rate, s, m)|
    ensures HandlerEvents(rate, s, n)
            == Around(HandlerEvents(rate, s, m), AdmittedAt(rate, s, m)[..j], AdmittedAt(rate, s, m)[j], c)
  {
    var d := Signals(rate, s, m);
    var ps := SignalAdmissions(rate, d);
    var k := n - m - 1;
    var tick, more := if Turns(d.round + 1) then [Ticking] else [], HandlerEvents(rate, Next(rate)(d), k);
    GatherConcat(Next(rate), ToEvents(rate), s, m, 1 + k);
    FirstSignalOf(rate, d, k);
    EntriesAt(ps, j);
    c := Entries(ps[j + 1..]) + (tick + more);
    Regroup(Entries(ps[..j]), [Entering(ps[j])], Entries(ps[j + 1..]), tick, more);
  }

  lemma FirstSignalOf(rate: real, d: Driver, n: nat)
    requires rate > 0.0 && SignalAdmissions(rate, d) != []
    ensures HandlerEvents(rate, d, 1 + n)
            == (Entries(SignalAdmissions(rate, d)) + if Turns(d.round + 1) then [Ticking] else [])
               + HandlerEvents(rate, Next(rate)(d), n)
  {
    EventsOfSignal(rate, d);
    GatherFirst(Next(rate), ToEvents(rate), d, n);
  }

  lemma EventsOfSignal(rate: real, d: Driver)
    requires rate > 0.0 && SignalAdmissions(rate, d) != []
    ensures ToEvents(rate)(d) == Entries(SignalAdmissions(rate, d)) + if Turns(d.round + 1) then [Ticking] else []
  {
  }

  lemma EntriesAt(ps: seq<Packet>, j: nat)
    requires j < |ps|
    ensures Entries(ps) == Entries(ps[..j]) + ([Entering(ps[j])] + Entries(ps[j + 1..]))
  {
  }

  lemma Regroup(b: seq<Event>, c: seq<Event>, d: seq<Event>, e: seq<Event>, f: seq<Event>)
    ensures ((b + (c + d)) + e) + f == b + (c + (d + (e + f)))
  {
  }

  lemma TicksBehind(rate: real, s: Driver, m: nat, n: nat, qs: seq<Packet>, p: Packet, c: seq<Event>)
    requires rate > 0.0 && Sane(s.wheel)
    requires HandlerEvents(rate, s, n) == Around(HandlerEvents(rate, s, m), qs, p, c)
    ensures TickCount(s.round + n) - TickCount(s.round + m) == Ticks(c)
  {
    HandlerTicks(rate, s, n);
    HandlerTicks(rate, s, m);
    TicksAround(HandlerEvents(rate, s, m), qs, p, c);
  }

  // What the signal after the first `m` admits, and the bytes in the wheel when the first `j` of these are in.
  ghost function AdmittedAt(rate: real, s: Driver, m: nat): seq<Packet>
    requires rate > 0.0
  {
    SignalAdmissions(rate, Signals(rate, s, m))
  }

  ghost function BytesAt(rate: real, s: Driver, m: nat, qs: seq<Packet>): int
    requires rate > 0.0
  {
    Signals(rate, s, m).wheel.total + Bytes(qs)
  }

  // The slot of the packet `p` behind these.
  ghost function DueAt(rate: real, s: Driver, m: nat, qs: seq<Packet>, p: Packet): int
    requires rate > 0.0
  {
    Due(Signals(rate, s, m).wheel, Aim(rate)(p.len + BytesAt(rate, s, m, qs)))
  }

  lemma DelayTold(aim: int -> int, run: Run, a: seq<Event>, w: Wheel, ins: seq<Packet>,
                  out: seq<Packet>, all: seq<Event>, w': Wheel, ins': seq<Packet>,
                  out': seq<Packet>, qs: seq<Packet>, p: Packet, c: seq<Event>,
                  n: nat, slot: int, ticks: nat)
    requires RunInv(run) && run.released == [] && all == Around(a, qs, p, c) && Rises(aim)
    requires Plays(aim, run, a, w, ins, out) && Plays(aim, run, all, w', ins', out') && SafeRun(aim, run, all)
    requires n == |run.admitted| + |ins| + |qs| && ticks == Ticks(c)
    requires slot == Due(w, aim(p.len + (w.total + Bytes(qs))))
    ensures Delayed(out', n, p, slot, ticks) == true
  {
    DelayAround(aim, run, a, w, ins, out, qs, p, c);
    assert [] + out' == out';
  }

  // The packet that the signal after the first `m` admits behind the packets `qs` is printed with the tick behind its
  // slot, told from the wheel before that signal: there is one tick for every tenth round.
  lemma HandlerDelay(rate: real, s: Driver, m: nat, n: nat, qs: seq<Packet>, p: Packet)
    requires rate > 0.0 && Inv(s.wheel) && Sane(s.wheel) && m < n
    requires RowsHold(rate, s, n) && HandlerSafe(rate, s, n)
    requires qs + [p] <= AdmittedAt(rate, s, m)
    ensures TickCount(s.round + n) >= TickCount(s.round + m)
    ensures Delayed(Outputs(rate, s, n), |Held(s.wheel)| + |Admissions(rate, s, m)| + |qs|, p,
                    DueAt(rate, s, m, qs, p), TickCount(s.round + n) - TickCount(s.round + m)) == true
  {
    var c := SplitBehind(rate, s, m, n, qs, p);
    DelayBy(rate, s, m, n, qs, p, c);
  }

  lemma SplitBehind(rate: real, s: Driver, m: nat, n: nat, qs: seq<Packet>, p: Packet)
    returns (c: seq<Event>)
    requires rate > 0.0 && Sane(s.wheel) && m < n && qs + [p] <= AdmittedAt(rate, s, m)
    ensures HandlerEvents(rate, s, n) == Around(HandlerEvents(rate, s, m), qs, p, c)
    ensures TickCount(s.round + n) - TickCount(s.round + m) == Ticks(c)
  {
    var ps := AdmittedAt(rate, s, m);
    assert (qs + [p])[..|qs|] == qs && ps[..|qs|] == qs && ps[|qs|] == p;
    c := SplitAt(rate, s, m, |qs|, n);
    TicksBehind(rate, s, m, n, qs, p, c);
  }

  // In terms of the events behind it.
  lemma DelayBy(rate: real, s: Driver, m: nat, n: nat, qs: seq<Packet>, p: Packet, c: seq<Event>)
    requires rate > 0.0 && Inv(s.wheel) && Sane(s.wheel) && m <= n
    requires RowsHold(rate, s, n) && HandlerSafe(rate, s, n)
    requires HandlerEvents(rate, s, n) == Around(HandlerEvents(rate, s, m), qs, p, c)
    ensures Delayed(Outputs(rate, s, n), |Held(s.wheel)| + |Admissions(rate, s, m)| + |qs|, p,
                    DueAt(rate, s, m, qs, p), Ticks(c)) == true
  {
    var k, slot := |Held(s.wheel)| + |Admissions(rate, s, m)| + |qs|, DueAt(rate, s, m, qs, p);
    HandlerDelayTold(rate, s, m, n, qs, p, c, k, slot, Ticks(c));
  }

  lemma RowsHeld(rate: real, s: Driver, m: nat, n: nat)
    requires rate > 0.0 && m <= n && RowsHold(rate, s, n)
    ensures RowsHold(rate, s, m) == true
  {
    AlongConcat(Next(rate), Holding(rate), s, m, n - m);
  }

  lemma HandlerDelayTold(rate: real, s: Driver, m: nat, n: nat, qs: seq<Packet>, p: Packet,
                         c: seq<Event>, k: nat, slot: int, ticks: nat)
    requires rate > 0.0 && Inv(s.wheel) && Sane(s.wheel) && m <= n
    requires RowsHold(rate, s, n) && HandlerSafe(rate, s, n)
    requires HandlerEvents(rate, s, n) == Around(HandlerEvents(rate, s, m), qs, p, c)
    requires k == |Held(s.wheel)| + |Admissions(rate, s, m)| + |qs| && ticks == Ticks(c)
    requires slot == DueAt(rate, s, m, qs, p)
    ensures Delayed(Outputs(rate, s, n), k, p, slot, ticks) == true
  {
    AimRises(rate);
    FreshInv(s.wheel);
    HandlerIsPlayed(rate, s, Fresh(s.wheel), n);
    RowsHeld(rate, s, m, n);
    HandlerIsPlayed(rate, s, Fresh(s.wheel), m);
    DelayTold(Aim(rate), Fresh(s.wheel), HandlerEvents(rate, s, m), Signals(rate, s, m).wheel,
              Admissions(rate, s, m), Outputs(rate, s, m), HandlerEvents(rate, s, n), Signals(rate, s, n).wheel,
              Admissions(rate, s, n), Outputs(rate, s, n), qs, p, c, k, slot, ticks);
  }

}
