/**
 Whole runs of the kfifo: any interleaving of kfifo_enqueue and tsf_dequeue from the state that
 kfifo_init leaves.  The main results are FIFO order, the pacing bound and the bounded drain.
 */
module Pacing {
  import opened Wrappers
  import opened SlotWindow

  datatype Event = Offered(p: Packet) | Polling

  // `delay` is the total time handed to tsf_delay so far.
  datatype Run = Run(fifo: Fifo, accepted: seq<Packet>, released: seq<Packet>, delay: nat)

  const START := Run(EMPTY, [], [], 0)

  function Step(c: Config, s: Run, e: Event): (s': Run)
    requires |s.fifo.win| > 0
    ensures |s'.fifo.win| > 0
  {
    match e
    case Offered(p) =>
      (match Offer(c, s.fifo, p)
       case None => s
       case Some(f) => s.(fifo := f, accepted := s.accepted + [p]))
    case Polling =>
      var r := Poll(s.fifo);
      Run(r.fifo, s.accepted,
          if r.packet.Some? then s.released + [r.packet.value] else s.released, s.delay + r.delay)
  }

  function Exec(c: Config, s: Run, es: seq<Event>): (s': Run)
    requires |s.fifo.win| > 0
    ensures |s'.fifo.win| > 0
    decreases |es|
  {
    if es == [] then s else Exec(c, Step(c, s, es[0]), es[1..])
  }

  /* ---------- the largest transmission time and the debt it allows ---------- */

  function MaxTime(c: Config, ps: seq<Packet>): nat {
    if ps == [] then 0
    else
      var m := MaxTime(c, ps[..|ps|-1]);
      if m < Time(c, ps[|ps|-1]) then Time(c, ps[|ps|-1]) else m
  }

  lemma {:induction false} MaxTimeIs(c: Config, ps: seq<Packet>)
    ensures forall i :: 0 <= i < |ps| ==> Time(c, ps[i]) <= MaxTime(c, ps)
    ensures MaxTime(c, ps) > 0 ==> exists i :: 0 <= i < |ps| && Time(c, ps[i]) == MaxTime(c, ps)
  {
    if ps != [] {
      MaxTimeIs(c, ps[..|ps|-1]);
      assert forall i :: 0 <= i < |ps| - 1 ==> ps[i] == ps[..|ps|-1][i];
      if Time(c, ps[|ps|-1]) < MaxTime(c, ps) {
        var i :| 0 <= i < |ps| - 1 && Time(c, ps[..|ps|-1][i]) == MaxTime(c, ps);
        assert Time(c, ps[i]) == MaxTime(c, ps);
      }
    }
  }

  function Debt(c: Config, ps: seq<Packet>): nat {
    RoundUp(MaxTime(c, ps))
  }

  lemma DebtGrows(c: Config, ps: seq<Packet>, p: Packet)
    ensures Debt(c, ps) <= Debt(c, ps + [p])
    ensures RoundUp(Time(c, p)) <= Debt(c, ps + [p])
  {
    assert (ps + [p])[..|ps|] == ps;
    RoundUpGrows(MaxTime(c, ps), MaxTime(c, ps + [p]));
    RoundUpGrows(Time(c, p), MaxTime(c, ps + [p]));
  }

  ghost predicate SlotsWithin(win: seq<Slot>, bound: nat) {
    forall i :: 0 <= i < |win| ==> win[i].left + win[i].sleep <= bound
  }

  /* ---------- the invariant of a run ---------- */

  ghost predicate RunInv(c: Config, s: Run) {
    && Inv(c, s.fifo)
    && s.accepted == s.released + Queued(s.fifo.win)
    && Cost(c, s.accepted) == s.delay + Owed(s.fifo.win)
    && SlotsWithin(s.fifo.win, Debt(c, s.accepted))
  }

  lemma StartInv(c: Config)
    requires c.slots >= 2
    ensures RunInv(c, START)
  {
    EmptySlots([FRESH]);
  }

  lemma StepKeepsInv(c: Config, s: Run, e: Event)
    requires RunInv(c, s)
    ensures RunInv(c, Step(c, s, e))
  {
    match e
    case Offered(p) => OfferStep(c, s, p);
    case Polling => PollStep(c, s);
  }

  lemma OfferStep(c: Config, s: Run, p: Packet)
    requires RunInv(c, s)
    ensures RunInv(c, Step(c, s, Offered(p)))
  {
    if Offer(c, s.fifo, p).Some? {
      var g := Offer(c, s.fifo, p).value;
      OfferAppends(c, s.fifo, p);
      OfferWithin(c, s, p);
      CostConcat(c, s.accepted, [p]);
      One(c, p);
      assert s.accepted + [p] == s.released + Queued(g.win);
    }
  }

  // A poll of a non-empty queue delivers, or leaves a fresh read slot in front of the same packets.
  ghost predicate Delivers(c: Config, s: Run, s': Run) {
    && RunInv(c, s')
    && s'.accepted == s.accepted
    && |s'.released| + |Queued(s'.fifo.win)| == |s.released| + |Queued(s.fifo.win)|
    && (Queued(s.fifo.win) == [] || |s'.released| > |s.released|
        || (|s.fifo.win| > 0 && s.fifo.win[0].sleep > 0 && s'.fifo.win[0] == FRESH))
  }

  lemma PollStep(c: Config, s: Run)
    requires RunInv(c, s)
    ensures Delivers(c, s, Step(c, s, Polling))
  {
    PollTakesHead(c, s.fifo);
    PollWithin(s.fifo, Debt(c, s.accepted));
    ServedStep(c, s, Poll(s.fifo));
  }

  lemma ServedStep(c: Config, s: Run, r: Polled)
    requires RunInv(c, s)
    requires Served(c, s.fifo, r) && SlotsWithin(r.fifo.win, Debt(c, s.accepted))
    ensures Delivers(c, s, Run(r.fifo, s.accepted,
              if r.packet.Some? then s.released + [r.packet.value] else s.released, s.delay + r.delay)) == true
  {
    if r.packet.Some? {
      MoveFront(s.released, r.packet.value, Queued(r.fifo.win));
      ServedPacket(c, s, r);
    } else {
      ServedNone(c, s, r);
    }
  }

  lemma MoveFront(a: seq<Packet>, p: Packet, b: seq<Packet>)
    ensures a + ([p] + b) == (a + [p]) + b
  {
  }

  lemma ServedPacket(c: Config, s: Run, r: Polled)
    requires RunInv(c, s) && r.packet.Some?
    requires Served(c, s.fifo, r) && SlotsWithin(r.fifo.win, Debt(c, s.accepted))
    requires s.released + ([r.packet.value] + Queued(r.fifo.win))
             == (s.released + [r.packet.value]) + Queued(r.fifo.win)
    ensures Delivers(c, s, Run(r.fifo, s.accepted, s.released + [r.packet.value], s.delay + r.delay))
  {
  }

  lemma ServedNone(c: Config, s: Run, r: Polled)
    requires RunInv(c, s) && r.packet.None?
    requires Served(c, s.fifo, r) && SlotsWithin(r.fifo.win, Debt(c, s.accepted))
    ensures Delivers(c, s, Run(r.fifo, s.accepted, s.released, s.delay + r.delay))
  {
    assert [] + Queued(r.fifo.win) == Queued(r.fifo.win);
  }

  lemma OfferWithin(c: Config, s: Run, p: Packet)
    requires RunInv(c, s) && Offer(c, s.fifo, p).Some?
    ensures SlotsWithin(Offer(c, s.fifo, p).value.win, Debt(c, s.accepted + [p]))
  {
    DebtGrows(c, s.accepted, p);
    var t := Time(c, p);
    RoundUpIs(t);
  }

  lemma PollWithin(f: Fifo, bound: nat)
    requires |f.win| > 0 && SlotsWithin(f.win, bound) && bound >= UNIT_TIME
    ensures SlotsWithin(Poll(f).fifo.win, bound)
  {
    var w := Advance(f.win);
    forall i | 0 <= i < |w| ensures w[i].left + w[i].sleep <= bound {
      assert w[i] == f.win[|f.win| - |w| + i];
    }
  }

  lemma {:induction false} ExecKeepsInv(c: Config, s: Run, es: seq<Event>)
    requires RunInv(c, s)
    ensures RunInv(c, Exec(c, s, es))
    decreases |es|
  {
    if es != [] {
      StepKeepsInv(c, s, es[0]);
      ExecKeepsInv(c, Step(c, s, es[0]), es[1..]);
    }
  }

  lemma {:induction false} ExecConcat(c: Config, s: Run, es: seq<Event>, fs: seq<Event>)
    requires |s.fifo.win| > 0
    ensures Exec(c, s, es + fs) == Exec(c, Exec(c, s, es), fs)
    decreases |es|
  {
    if es == [] {
      assert es + fs == fs;
    } else {
      assert (es + fs)[1..] == es[1..] + fs;
      ExecConcat(c, Step(c, s, es[0]), es[1..], fs);
    }
  }

  /* ---------- main results ---------- */

  // Released packets are a prefix of the accepted ones, in order, and the rest is what is still held.
  lemma FifoOrder(c: Config, es: seq<Event>)
    requires c.slots >= 2
    ensures var s := Exec(c, START, es);
            s.accepted == s.released + Queued(s.fifo.win) && Bytes(Queued(s.fifo.win)) <= c.capacity
  {
    StartInv(c);
    ExecKeepsInv(c, START, es);
  }

  // In every reachable state the counters of every slot and of the queue are right, every slot has its time
  // budget in order, slots skipped over are fresh and the write slot holds a packet unless it is being read.
  lemma ReachableSlots(c: Config, es: seq<Event>)
    requires c.slots >= 2
    ensures var f := Exec(c, START, es).fifo;
            && 1 <= |f.win| <= c.slots
            && f.slen == Bytes(Queued(f.win))
            && (forall i :: 0 <= i < |f.win| ==> SlotInv(f.win[i]))
            && (forall i :: 1 <= i < |f.win| && f.win[i].pkt == 0 ==> f.win[i] == FRESH)
            && (|f.win| > 1 ==> f.win[|f.win|-1].pkt > 0)
  {
    StartInv(c);
    ExecKeepsInv(c, START, es);
    var f := Exec(c, START, es).fifo;
    forall i | 1 <= i < |f.win| && f.win[i].pkt == 0 ensures f.win[i] == FRESH {
      EmptyMeansFresh(c, f.win, i);
    }
  }

  // At every moment the transmission time released exceeds the delay requested by at least nothing
  // and at most one rounding of the largest accepted packet up to whole slots.
  lemma PacingBound(c: Config, es: seq<Event>)
    requires c.slots >= 2
    ensures var s := Exec(c, START, es);
            0 <= Cost(c, s.released) - s.delay <= Debt(c, s.accepted)
  {
    StartInv(c);
    ExecKeepsInv(c, START, es);
    InvPaces(c, Exec(c, START, es));
  }

  lemma InvPaces(c: Config, s: Run)
    requires RunInv(c, s)
    ensures 0 <= Cost(c, s.released) - s.delay <= Debt(c, s.accepted)
  {
    CostConcat(c, s.released, Queued(s.fifo.win));
    OwedCoversQueued(c, s.fifo.win);
  }

  // The same between any two moments of a run: the rate conformance of the released traffic.
  lemma {:induction false} PacingBetween(c: Config, es: seq<Event>, fs: seq<Event>)
    requires c.slots >= 2
    ensures var s, s' := Exec(c, START, es), Exec(c, START, es + fs);
            && s.released <= s'.released
            && -(Debt(c, s'.accepted) as int)
               <= Cost(c, s'.released[|s.released|..]) - (s'.delay - s.delay)
               <= Debt(c, s'.accepted)
  {
    var s, s' := Exec(c, START, es), Exec(c, START, es + fs);
    PacingBound(c, es);
    PacingBound(c, es + fs);
    ExecConcat(c, START, es, fs);
    ExecExtends(c, s, fs);
    assert s'.released == s.released + s'.released[|s.released|..];
    CostConcat(c, s.released, s'.released[|s.released|..]);
  }

  lemma {:induction false} ExecExtends(c: Config, s: Run, es: seq<Event>)
    requires |s.fifo.win| > 0
    ensures var s' := Exec(c, s, es);
            s.accepted <= s'.accepted && s.released <= s'.released && s.delay <= s'.delay
    ensures Debt(c, s.accepted) <= Debt(c, Exec(c, s, es).accepted)
    decreases |es|
  {
    if es != [] {
      if es[0].Offered? {
        DebtGrows(c, s.accepted, es[0].p);
      }
      ExecExtends(c, Step(c, s, es[0]), es[1..]);
    }
  }

  /* ---------- the bound cannot be improved ---------- */

  lemma ShareStep(c: Config, s: Run, p: Packet, s': Run)
    requires |s.fifo.win| > 0 && p.len + s.fifo.slen <= c.capacity
    requires |s.fifo.win| == 1 ==> s.fifo.win[0].pkt <= 0
    requires Time(c, p) <= s.fifo.win[|s.fifo.win|-1].left
    requires s'.fifo.win == s.fifo.win[|s.fifo.win|-1 := Share(s.fifo.win[|s.fifo.win|-1], p, Time(c, p))]
    requires s' == Run(Fifo(s'.fifo.win, s.fifo.slen + p.len), s.accepted + [p], s.released, s.delay)
    ensures Step(c, s, Offered(p)) == s'
  {
  }

  lemma PopStep(c: Config, s: Run, s': Run)
    requires |s.fifo.win| > 0 && s.fifo.win[0].pkt > 0 && s.fifo.win[0].pkts != []
    requires s'.fifo.win == s.fifo.win[0 := Popped(s.fifo.win[0])]
    requires s' == Run(Fifo(s'.fifo.win, s.fifo.slen - s.fifo.win[0].pkts[0].len), s.accepted,
                       s.released + [s.fifo.win[0].pkts[0]], s.delay)
    ensures Step(c, s, Polling) == s'
  {
  }

  // One nanosecond a byte, and room for what the run below puts in.
  function Linear(m: nat): Config {
    Config(Steps(m) + 3, RoundUp(m), n => n)
  }

  // All packets so far have left, none took longer than `m`, and no delay has been asked for them.
  ghost predicate Idling(m: nat, s: Run) {
    && s.released == s.accepted && s.delay == 0 && (forall i :: 0 <= i < |s.accepted| ==> s.accepted[i].len <= m)
    && |s.fifo.win| == 1 && s.fifo.win[0].left <= UNIT_TIME
    && s.fifo == Fifo([Slot([], 0, 0, s.fifo.win[0].left, UNIT_TIME - s.fifo.win[0].left)], 0)
  }

  // Packets of time `m` that leave at once use up the read slot.
  lemma {:induction false} UseUp(m: nat, s: Run) returns (es: seq<Event>)
    requires m >= 1 && Idling(m, s)
    ensures Idling(m, Exec(Linear(m), s, es)) && Exec(Linear(m), s, es).fifo.win[0].left < m
    decreases s.fifo.win[0].left
  {
    if s.fifo.win[0].left < m {
      es := [];
    } else {
      var p := Packet(0, m);
      var s2 := PassThrough(m, s, p);
      var more := UseUp(m, s2);
      es := [Offered(p), Polling] + more;
      ExecConcat(Linear(m), s, [Offered(p), Polling], more);
    }
  }

  lemma PassThrough(m: nat, s: Run, p: Packet) returns (s': Run)
    requires Idling(m, s) && p.len == m && s.fifo.win[0].left >= m
    ensures Idling(m, s') && s'.fifo.win[0].left == s.fifo.win[0].left - m
    ensures Exec(Linear(m), s, [Offered(p), Polling]) == s'
  {
    RoundUpGrows(m, m);
    var c, w := Linear(m), s.fifo.win[0];
    var taken := Slot([p], 1, m, w.left - m, UNIT_TIME - w.left + m);
    var s1 := Run(Fifo([taken], m), s.accepted + [p], s.released, 0);
    s' := Run(Fifo([taken.(pkts := [], pkt := 0, slen := 0)], 0), s.accepted + [p], s.released + [p], 0);
    assert [] + [p] == [p] && [p][1..] == [];
    ShareStep(c, s, p, s1);
    PopStep(c, s1, s');
    assert [Offered(p), Polling][1..] == [Polling] && [Polling][1..] == [];
  }

  // A packet of time `m` opened the last slot, which its followers are to fill.
  ghost predicate Filling(m: nat, s: Run) {
    && |s.fifo.win| > 1 && s.fifo.slen == s.fifo.win[|s.fifo.win|-1].sleep
    && s.fifo.win[|s.fifo.win|-1].left + s.fifo.win[|s.fifo.win|-1].sleep == RoundUp(m)
    && (forall i :: 0 <= i < |s.accepted| ==> s.accepted[i].len <= m)
    && (exists i :: 0 <= i < |s.accepted| && s.accepted[i].len == m)
  }

  lemma OpenLast(m: nat, s: Run) returns (e: Event)
    requires Idling(m, s) && s.fifo.win[0].left < m
    ensures Filling(m, Exec(Linear(m), s, [e]))
  {
    var c, q := Linear(m), Packet(0, m);
    e := Offered(q);
    RoundUpIs(m);
    assert Offer(c, s.fifo, q).Some?;
    var s' := Step(c, s, e);
    assert s'.fifo.win[|s'.fifo.win|-1] == Open(q, m);
    assert s'.accepted[|s.accepted|] == q;
    assert [e][1..] == [];
  }

  lemma {:induction false} FillUp(m: nat, s: Run) returns (es: seq<Event>)
    requires m >= 1 && Filling(m, s)
    ensures Filling(m, Exec(Linear(m), s, es))
    ensures var win := Exec(Linear(m), s, es).fifo.win; win[|win|-1].left == 0
    decreases s.fifo.win[|s.fifo.win|-1].left
  {
    var left := s.fifo.win[|s.fifo.win|-1].left;
    if left == 0 {
      es := [];
    } else {
      var p := Packet(0, if left < m then left else m);
      var s' := FillOne(m, s, p);
      var more := FillUp(m, s');
      es := [Offered(p)] + more;
      ExecConcat(Linear(m), s, [Offered(p)], more);
    }
  }

  lemma FillOne(m: nat, s: Run, p: Packet) returns (s': Run)
    requires Filling(m, s) && p.len <= m && p.len <= s.fifo.win[|s.fifo.win|-1].left
    ensures Filling(m, s') && Exec(Linear(m), s, [Offered(p)]) == s'
    ensures s'.fifo.win[|s'.fifo.win|-1].left == s.fifo.win[|s.fifo.win|-1].left - p.len
  {
    var n := |s.fifo.win| - 1;
    s' := Run(Fifo(s.fifo.win[n := Share(s.fifo.win[n], p, p.len)], s.fifo.slen + p.len), s.accepted + [p], s.released,
              s.delay);
    ShareStep(Linear(m), s, p, s');
    assert [Offered(p)][1..] == [];
    var i :| 0 <= i < |s.accepted| && s.accepted[i].len == m;
    assert s'.accepted[i] == s.accepted[i];
  }

  // What the last slot owes, and whether the read slot owes something.
  function LastOwes(s: Run): nat {
    if s.fifo.win == [] then 0 else s.fifo.win[|s.fifo.win|-1].sleep
  }

  function Unsettled(s: Run): nat {
    if s.fifo.win != [] && s.fifo.win[0].sleep > 0 then 1 else 0
  }

  lemma EmptyOutStep(c: Config, s: Run) returns (s': Run)
    requires RunInv(c, s) && Queued(s.fifo.win) != []
    ensures s' == Step(c, s, Polling) && RunInv(c, s') && s'.accepted == s.accepted && LastOwes(s') == LastOwes(s)
    ensures |Queued(s'.fifo.win)| < |Queued(s.fifo.win)|
            || (|Queued(s'.fifo.win)| == |Queued(s.fifo.win)| && Unsettled(s') < Unsettled(s))
  {
    s' := Step(c, s, Polling);
    PollStep(c, s);
    LastKept(c, s);
  }

  // Polls that empty the queue leave what the last slot owes.
  lemma {:induction false} EmptyOut(c: Config, s: Run) returns (es: seq<Event>)
    requires RunInv(c, s)
    ensures var s' := Exec(c, s, es);
            RunInv(c, s') && s'.accepted == s.accepted && Queued(s'.fifo.win) == [] && LastOwes(s') == LastOwes(s)
    decreases |Queued(s.fifo.win)|, Unsettled(s)
  {
    es := [];
    if Queued(s.fifo.win) != [] {
      var s1 := EmptyOutStep(c, s);
      var more := EmptyOut(c, s1);
      es := [Polling] + more;
      assert es[1..] == more;
    }
  }

  lemma LastKept(c: Config, s: Run)
    requires RunInv(c, s) && Queued(s.fifo.win) != []
    ensures var win, win' := s.fifo.win, Step(c, s, Polling).fifo.win;
            win'[|win'|-1].sleep == win[|win|-1].sleep
  {
    var win := s.fifo.win;
    if |win| == 1 {
      assert win == [win[0]];
      OneSlot(win[0]);
      assert SlotInv(win[0]);
    } else {
      assert Advance(win)[|Advance(win)|-1] == win[|win|-1];
    }
  }

  lemma FullSlot(m: nat) returns (es: seq<Event>)
    requires m >= 1
    ensures var s := Exec(Linear(m), START, es);
            Filling(m, s) && s.fifo.win[|s.fifo.win|-1].left == 0
  {
    var c := Linear(m);
    var a := UseUp(m, START);
    var s1 := Exec(c, START, a);
    var e := OpenLast(m, s1);
    var b := FillUp(m, Exec(c, s1, [e]));
    ExecConcat(c, START, a, [e]);
    ExecConcat(c, START, a + [e], b);
    es := a + [e] + b;
  }

  // For every largest transmission time there is a run that reaches the bound.
  lemma DebtIsReached(m: nat) returns (es: seq<Event>)
    requires m >= 1
    ensures var s := Exec(Linear(m), START, es);
            && MaxTime(Linear(m), s.accepted) == m
            && Cost(Linear(m), s.released) - s.delay == RoundUp(m) == Debt(Linear(m), s.accepted)
  {
    var c := Linear(m);
    var a := FullSlot(m);
    var s := Exec(c, START, a);
    StartInv(c);
    ExecKeepsInv(c, START, a);
    var d := EmptyOut(c, s);
    ExecConcat(c, START, a, d);
    es := a + d;
    LargestIs(m, s);
    Exhausted(c, Exec(c, s, d));
  }

  lemma LargestIs(m: nat, s: Run)
    requires Filling(m, s)
    ensures MaxTime(Linear(m), s.accepted) == m
  {
    MaxTimeIs(Linear(m), s.accepted);
    var i :| 0 <= i < |s.accepted| && s.accepted[i].len == m;
    assert Time(Linear(m), s.accepted[i]) == m;
    if MaxTime(Linear(m), s.accepted) > 0 {
      var j :| 0 <= j < |s.accepted| && Time(Linear(m), s.accepted[j]) == MaxTime(Linear(m), s.accepted);
    }
  }

  // An empty queue is ahead of the delay asked for by what its last slot owes.
  lemma Exhausted(c: Config, s: Run)
    requires RunInv(c, s) && Queued(s.fifo.win) == []
    ensures |s.fifo.win| == 1 && Cost(c, s.released) - s.delay == s.fifo.win[0].sleep
  {
    IdleWindow(c, s.fifo.win);
    assert SlotInv(s.fifo.win[0]);
    OwedCoversQueued(c, s.fifo.win);
    assert s.released + [] == s.released;
  }

  /* ---------- bounded drain ---------- */

  ghost predicate OnlyPolls(es: seq<Event>) {
    forall i :: 0 <= i < |es| ==> es[i] == Polling
  }

  // Two polls hand out at least one packet of a non-empty queue.
  lemma TwoPollsDeliver(c: Config, s: Run, es: seq<Event>) returns (s': Run)
    requires RunInv(c, s) && OnlyPolls(es) && |es| >= 2
    ensures RunInv(c, s') && s'.accepted == s.accepted
    ensures |Queued(s'.fifo.win)| <= |Queued(s.fifo.win)|
    ensures Queued(s.fifo.win) != [] ==> |Queued(s'.fifo.win)| < |Queued(s.fifo.win)|
    ensures Exec(c, s, es) == Exec(c, s', es[2..])
  {
    var s1 := Step(c, s, Polling);
    s' := Step(c, s1, Polling);
    PollStep(c, s);
    PollStep(c, s1);
    assert es[1..][1..] == es[2..];
  }

  ghost predicate Drained(c: Config, s: Run, s': Run) {
    RunInv(c, s') && s'.accepted == s.accepted && Queued(s'.fifo.win) == []
  }

  // A queue holding m packets is emptied, in FIFO order, by 2m polls: no packet needs more than one
  // settled slot before it.
  lemma {:induction false} DrainBy(c: Config, s: Run, es: seq<Event>, m: nat)
    requires RunInv(c, s) && OnlyPolls(es) && |Queued(s.fifo.win)| <= m && |es| == 2 * m
    ensures Drained(c, s, Exec(c, s, es))
    decreases m
  {
    if m > 0 {
      var s' := TwoPollsDeliver(c, s, es);
      DrainBy(c, s', es[2..], m - 1);
    }
  }

  lemma BoundedDrain(c: Config, es: seq<Event>, polls: seq<Event>)
    requires c.slots >= 2
    requires OnlyPolls(polls) && |polls| == 2 * |Queued(Exec(c, START, es).fifo.win)|
    ensures var s, s' := Exec(c, START, es), Exec(c, START, es + polls);
            s'.accepted == s.accepted && s'.released == s.accepted == s.released + Queued(s.fifo.win)
  {
    StartInv(c);
    ExecKeepsInv(c, START, es);
    DrainBy(c, Exec(c, START, es), polls, |polls| / 2);
    ExecConcat(c, START, es, polls);
  }

  // One poll more asks for whatever delay is still owed: all that was accepted has then left and been paid for,
  // and the queue is as kfifo_init left it.
  lemma SettledDrain(c: Config, es: seq<Event>, polls: seq<Event>)
    requires c.slots >= 2
    requires OnlyPolls(polls) && |polls| == 2 * |Queued(Exec(c, START, es).fifo.win)| + 1
    ensures var s, s' := Exec(c, START, es), Exec(c, START, es + polls);
            && s'.accepted == s.accepted && s'.released == s.accepted && s'.fifo == EMPTY
            && s'.delay == Cost(c, s'.released) == Cost(c, s.accepted)
  {
    StartInv(c);
    ExecKeepsInv(c, START, es);
    var s, n := Exec(c, START, es), |polls| - 1;
    DrainBy(c, s, polls[..n], n / 2);
    var s1 := Exec(c, s, polls[..n]);
    IdleStep(c, s1);
    assert polls == polls[..n] + [Polling] && [Polling][1..] == [];
    ExecConcat(c, s, polls[..n], [Polling]);
    ExecConcat(c, START, es, polls);
  }

  lemma IdleStep(c: Config, s: Run)
    requires RunInv(c, s) && Queued(s.fifo.win) == []
    ensures var s' := Step(c, s, Polling);
            && s'.fifo == EMPTY && s'.accepted == s.accepted && s'.released == s.accepted
            && s'.delay == Cost(c, s.accepted)
  {
    IdlePoll(c, s.fifo);
    assert s.released + [] == s.released;
  }

  /* ---------- where the code falls short of its comment ---------- */

  // Packets that cost less than a slot are meant to share one.  On an idle queue they do not: once a
  // first packet has been taken, a second one that would fit is accepted exactly when the first was
  // too long for what is left of the read slot, because a write into the slot being read counts as a
  // conflict.
  lemma IdleQueueBurst(c: Config, f: Fifo, p: Packet, q: Packet)
    requires Inv(c, f) && Queued(f.win) == []
    requires Offer(c, f, p).Some?
    requires f.slen + p.len + q.len <= c.capacity
    requires Steps(Time(c, p)) + Steps(Time(c, q)) + 3 <= c.slots
    ensures Offer(c, Offer(c, f, p).value, q).Some? <==> Time(c, p) > f.win[0].left
  {
    IdleWindow(c, f.win);
    var g := Offer(c, f, p).value;
    assert |g.win| == if Time(c, p) <= f.win[0].left then 1 else Steps(Time(c, p)) + 2;
  }
}
