/**
 The shaper as a whole: the token bucket admits packets into the kfifo, packets it cannot admit wait in
 the inner queue, and tsf_dequeue hands out what the kfifo releases.  These step functions are the
 specification of class `TsfSchedData`; the lemmas hold for every run of them.
 */
module TsfSystem {
  import opened Wrappers
  import opened SlotWindow
  import opened Pacing
  import opened TokenBucket

  // A packet charged to the bucket, when, and whether the kfifo took it.
  datatype Try = Try(p: Packet, time: int, taken: bool)

  // `flow` is the kfifo with its history, `tried` every packet charged.  `freed` are the packets the inner
  // queue dropped, `lost` those that were dropped without being freed.  After `halted` nothing is modelled
  // (see Enqueue).
  datatype System = System(bucket: Bucket, inner: seq<Packet>, flow: Run, tried: seq<Try>,
                           freed: seq<Packet>, lost: seq<Packet>, halted: bool)

  // Bucket depth (q->buffer) and kfifo configuration.
  datatype Setup = Setup(kfifo: Config, depth: nat)

  /* ---------- one packet against the bucket ---------- */

  // The packet goes to the kfifo and its cost is taken off the balance.  With `always`, the cost is
  // charged even when the kfifo has no room.  The kfifo refuses without freeing, and so do its callers.
  function Admit(u: Setup, s: System, p: Packet, now: int, toks: int, always: bool): (r: (System, bool))
    requires |s.flow.fifo.win| > 0
    ensures |r.0.flow.fifo.win| > 0
  {
    var flow := Step(u.kfifo, s.flow, Offered(p));
    var ok := Offer(u.kfifo, s.flow.fifo, p).Some?;
    if ok then
      (s.(bucket := Bucket(toks, now), flow := flow, tried := s.tried + [Try(p, now, true)]), true)
    else if always then
      (s.(bucket := Bucket(toks, now), tried := s.tried + [Try(p, now, false)], lost := s.lost + [p]), false)
    else
      (s.(lost := s.lost + [p]), false)
  }

  // The inner queue has `room` for the packet or frees it.
  function Wait(s: System, p: Packet, room: bool): (r: (System, bool))
    ensures r.0.flow == s.flow
  {
    if room then (s.(inner := s.inner + [p]), true) else (s.(freed := s.freed + [p]), false)
  }

  // What becomes of a packet.
  datatype Fate = Admitted | Waiting | Freed | Lost | Halted

  predicate Kept(f: Fate) {
    f == Admitted || f == Waiting
  }

  // Admitted if the balance `toks` covers it, otherwise sent to the inner queue.
  function Decide(u: Setup, s: System, p: Packet, now: int, toks: int, room: bool): (r: (System, Fate))
    requires |s.flow.fifo.win| > 0
    ensures |r.0.flow.fifo.win| > 0
  {
    var cost := Time(u.kfifo, p);
    if toks - cost >= 0 then
      var (s', ok) := Admit(u, s, p, now, toks - cost, true);
      (s', if ok then Admitted else Lost)
    else
      var (s', ok) := Wait(s, p, room);
      (s', if ok then Waiting else Freed)
  }

  // `s'` is what becomes of the state, and whether the packet is kept.
  ghost predicate Decided(u: Setup, s: System, p: Packet, now: int, toks: int, room: bool, s': System, kept: bool) {
    |s.flow.fifo.win| > 0
    && var (s2, fate) := Decide(u, s, p, now, toks, room); s' == s2 && (kept <==> Kept(fate))
  }

  lemma DecidedAdmit(u: Setup, s: System, p: Packet, now: int, toks: int, room: bool,
                     s': System, ok: bool)
    requires |s.flow.fifo.win| > 0 && toks - Time(u.kfifo, p) >= 0
    requires (s', ok) == Admit(u, s, p, now, toks - Time(u.kfifo, p), true)
    ensures Decided(u, s, p, now, toks, room, s', ok)
  {
  }

  lemma DecidedWait(u: Setup, s: System, p: Packet, now: int, toks: int, room: bool,
                    s': System, ok: bool)
    requires |s.flow.fifo.win| > 0 && toks - Time(u.kfifo, p) < 0
    requires (s', ok) == Wait(s, p, room)
    ensures Decided(u, s, p, now, toks, room, s', ok)
  {
  }

  /* ---------- tsf_segment ---------- */

  // One segment, against the balance refilled at its own time.
  function Segment(u: Setup, s: System, p: Packet, now: int, room: bool): (r: (System, Fate))
    requires |s.flow.fifo.win| > 0
    ensures |r.0.flow.fifo.win| > 0
  {
    Decide(u, s, p, now, Refill(u.depth, s.bucket, now), room)
  }

  // One turn of the segment loop: the state, and how many segments were kept.
  function Turn(u: Setup, t: (System, nat), p: Packet, now: int, room: bool): (t': (System, nat))
    requires |t.0.flow.fifo.win| > 0
    ensures |t'.0.flow.fifo.win| > 0
  {
    var (s, fate) := Segment(u, t.0, p, now, room);
    (s, if Kept(fate) then t.1 + 1 else t.1)
  }

  // The first `k` segments of a packet.
  function SegmentAll(u: Setup, s: System, ps: seq<Packet>, clock: seq<int>, room: seq<bool>, k: nat)
    : (r: (System, nat))
    requires |s.flow.fifo.win| > 0 && k <= |ps| == |clock| == |room|
    ensures |r.0.flow.fifo.win| > 0
  {
    if k == 0 then (s, 0)
    else Turn(u, SegmentAll(u, s, ps, clock, room, k - 1), ps[k - 1], clock[k - 1], room[k - 1])
  }

  // One packet, its clock and the room in the inner queue take the loop from one turn to the next.
  ghost predicate Turns(u: Setup, t: (System, nat), p: Packet, now: int, room: bool, t': (System, nat)) {
    |t.0.flow.fifo.win| > 0 && t' == Turn(u, t, p, now, room)
  }

  lemma DecideTurns(u: Setup, s: System, p: Packet, now: int, room: bool, nb: nat,
                    s': System, kept: bool)
    requires Decided(u, s, p, now, Refill(u.depth, s.bucket, now), room, s', kept)
    ensures Turns(u, (s, nb), p, now, room, (s', if kept then nb + 1 else nb))
  {
  }

  // `ts` lists the states from `start` through the first `k` turns.
  ghost predicate Traced(u: Setup, start: System, ts: seq<(System, nat)>, ps: seq<Packet>, clock: seq<int>,
                         room: seq<bool>, k: nat)
  {
    && k <= |ps| == |clock| == |room| && |ts| == k + 1 && ts[0] == (start, 0)
    && forall j :: 0 <= j < k ==> Turns(u, ts[j], ps[j], clock[j], room[j], ts[j + 1])
  }

  lemma TracedMore(u: Setup, start: System, ts: seq<(System, nat)>, ps: seq<Packet>,
                   clock: seq<int>, room: seq<bool>, k: nat, t: (System, nat))
    requires Traced(u, start, ts, ps, clock, room, k) && k < |ps|
    requires Turns(u, ts[k], ps[k], clock[k], room[k], t)
    ensures Traced(u, start, ts + [t], ps, clock, room, k + 1)
  {
    forall j | 0 <= j < k + 1 ensures Turns(u, (ts + [t])[j], ps[j], clock[j], room[j], (ts + [t])[j + 1]) {
      assert j < k ==> Turns(u, ts[j], ps[j], clock[j], room[j], ts[j + 1]);
    }
  }

  lemma {:induction false} TracedSegments(u: Setup, s: System, ts: seq<(System, nat)>, ps: seq<Packet>,
                                          clock: seq<int>, room: seq<bool>, k: nat)
    requires Traced(u, s, ts, ps, clock, room, |ps|) && |s.flow.fifo.win| > 0 && k <= |ps|
    ensures SegmentAll(u, s, ps, clock, room, k) == ts[k]
    decreases k
  {
    if k > 0 {
      TracedSegments(u, s, ts, ps, clock, room, k - 1);
      assert Turns(u, ts[k - 1], ps[k - 1], clock[k - 1], room[k - 1], ts[k - 1 + 1]);
    }
  }

  // The count is of the segments that the kfifo or the inner queue has; every other one is lost or freed.
  lemma {:induction false} SegmentsCounted(u: Setup, s: System, ps: seq<Packet>, clock: seq<int>, room: seq<bool>,
                                           k: nat)
    requires |s.flow.fifo.win| > 0 && k <= |ps| == |clock| == |room|
    ensures var (s', nb) := SegmentAll(u, s, ps, clock, room, k);
            && |s'.flow.accepted| + |s'.inner| == |s.flow.accepted| + |s.inner| + nb
            && |s'.lost| + |s'.freed| + nb == |s.lost| + |s.freed| + k
    decreases k
  {
    if k > 0 {
      SegmentsCounted(u, s, ps, clock, room, k - 1);
      TurnCounted(u, SegmentAll(u, s, ps, clock, room, k - 1), ps[k - 1], clock[k - 1], room[k - 1]);
    }
  }

  lemma TurnCounted(u: Setup, t: (System, nat), p: Packet, now: int, room: bool)
    requires |t.0.flow.fifo.win| > 0
    ensures var (s, t') := (t.0, Turn(u, t, p, now, room));
            && |t'.0.flow.accepted| + |t'.0.inner| - t'.1 == |s.flow.accepted| + |s.inner| - t.1
            && |t'.0.lost| + |t'.0.freed| + t'.1 == |s.lost| + |s.freed| + t.1 + 1
  {
  }

  /* ---------- tsf_enqueue ---------- */

  // The balance left after draining, and whether every drained packet found room in the kfifo.
  datatype Drained = Drained(sys: System, toks: int, ok: bool)

  // The packet at the head of the inner queue moves on: the balance covers it.
  function Head(u: Setup, s: System, toks: int, now: int): (r: (System, bool))
    requires |s.flow.fifo.win| > 0 && s.inner != []
    ensures |r.0.flow.fifo.win| > 0 && r.0.inner == s.inner[1..]
  {
    Admit(u, s.(inner := s.inner[1..]), s.inner[0], now, toks - Time(u.kfifo, s.inner[0]), false)
  }

  predicate Covers(u: Setup, s: System, toks: int) {
    s.inner != [] && toks >= Time(u.kfifo, s.inner[0])
  }

  // Waiting packets move to the kfifo, head first, as long as the balance covers the next one.
  function Drain(u: Setup, s: System, toks: int, now: int): (d: Drained)
    requires |s.flow.fifo.win| > 0
    ensures |d.sys.flow.fifo.win| > 0
    decreases |s.inner|
  {
    if !Covers(u, s, toks) then Drained(s, toks, true)
    else
      var (s', ok) := Head(u, s, toks, now);
      if ok then Drain(u, s', toks - Time(u.kfifo, s.inner[0]), now) else Drained(s', toks, false)
  }

  // The drain from one state comes to the same as the drain from another: how a drain loop progresses.
  ghost predicate SameDrain(u: Setup, s: System, toks: int, s': System, toks': int, now: int) {
    |s.flow.fifo.win| > 0 && |s'.flow.fifo.win| > 0 && Drain(u, s, toks, now) == Drain(u, s', toks', now)
  }

  // One turn of a drain, in which the kfifo takes the packet or does not.
  lemma SameDrainHead(u: Setup, s: System, toks: int, now: int, s': System, ok: bool)
    requires |s.flow.fifo.win| > 0 && Covers(u, s, toks) && (s', ok) == Head(u, s, toks, now)
    ensures if ok then SameDrain(u, s, toks, s', toks - Time(u.kfifo, s.inner[0]), now)
            else Drain(u, s, toks, now) == Drained(s', toks, false)
  {
  }

  lemma SameDrainStep(u: Setup, s: System, toks: int, s1: System, t1: int,
                      s2: System, t2: int, now: int)
    requires SameDrain(u, s, toks, s1, t1, now) && SameDrain(u, s1, t1, s2, t2, now)
    ensures SameDrain(u, s, toks, s2, t2, now)
  {
  }

  lemma SameDrainEnds(u: Setup, s: System, toks: int, s': System, toks': int, now: int)
    requires SameDrain(u, s, toks, s', toks', now)
    requires !Covers(u, s', toks')
    ensures Drain(u, s, toks, now) == Drained(s', toks', true)
  {
  }

  // `wake` is the time the watchdog is set to, if it is.
  datatype Outcome = Outcome(sys: System, fate: Fate, wake: Option<int>)

  // The new packet, after the drain: when the balance does not cover it, the watchdog is set to the time
  // when it will cover whichever packet is then at the head of the inner queue.
  function Conclude(u: Setup, s: System, p: Packet, now: int, toks: int, room: bool): (r: Outcome)
    requires |s.flow.fifo.win| > 0
    ensures |r.sys.flow.fifo.win| > 0
  {
    var (s', fate) := Decide(u, s, p, now, toks, room);
    var next := if s.inner != [] then s.inner[0] else p;
    Outcome(s', fate, if toks >= Time(u.kfifo, p) then None else Some(now + Time(u.kfifo, next) - toks))
  }

  // What is left of the state, the watchdog time, and whether the packet is lost.
  ghost predicate Concluded(u: Setup, s: System, p: Packet, now: int, toks: int, room: bool, s': System,
                            wake: Option<int>, lost: bool)
  {
    |s.flow.fifo.win| > 0
    && var r := Conclude(u, s, p, now, toks, room); s' == r.sys && wake == r.wake && (lost <==> r.fate == Lost)
  }

  // The code works the watchdog time out from the shortfall of whichever packet comes next.
  lemma ConcludeIs(u: Setup, s: System, p: Packet, now: int, toks: int, room: bool, s': System, kept: bool,
                   wake: Option<int>)
    requires Decided(u, s, p, now, toks, room, s', kept)
    requires var left := toks - Time(u.kfifo, p);
             wake == if left >= 0 then None
                     else if s.inner != [] then Some(now - (toks - Time(u.kfifo, s.inner[0]))) else Some(now - left)
    ensures Concluded(u, s, p, now, toks, room, s', wake, toks >= Time(u.kfifo, p) && !kept)
  {
  }

  // The drain loop is guarded by the balance less the cost of the packet at the head, if there is one.
  predicate LoopEntered(u: Setup, s: System, now: int) {
    Refill(u.depth, s.bucket, now) - (if s.inner == [] then 0 else Time(u.kfifo, s.inner[0])) >= 0
  }

  // When a waiting packet finds the kfifo full the call ends there, and the new packet is neither queued nor
  // freed.
  function Proceed(u: Setup, s: System, p: Packet, now: int, toks: int, room: bool): (r: Outcome)
    requires |s.flow.fifo.win| > 0
    ensures |r.sys.flow.fifo.win| > 0
  {
    var d := Drain(u, s, toks, now);
    if d.ok then Conclude(u, d.sys, p, now, d.toks, room)
    else Outcome(d.sys.(lost := d.sys.lost + [p]), Lost, None)
  }

  // Entered without a packet in hand, the loop goes wrong: the model halts.
  function Enqueue(u: Setup, s: System, p: Packet, now: int, room: bool): (r: Outcome)
    requires |s.flow.fifo.win| > 0
    ensures |r.sys.flow.fifo.win| > 0
  {
    if s.inner == [] && LoopEntered(u, s, now) then Outcome(s.(halted := true), Halted, None)
    else Proceed(u, s, p, now, Refill(u.depth, s.bucket, now), room)
  }

  /* ---------- tsf_dequeue ---------- */

  function Dequeue(u: Setup, s: System): (s': System)
    requires |s.flow.fifo.win| > 0
    ensures |s'.flow.fifo.win| > 0
  {
    s.(flow := Step(u.kfifo, s.flow, Polling))
  }

  /* ---------- the invariant ---------- */

  // Zeroed private data, and a kfifo as kfifo_init leaves it.
  const BLANK := Bucket(0, 0)
  const INITIAL := System(BLANK, [], START, [], [], [], false)

  ghost predicate SysInv(u: Setup, s: System) {
    |s.flow.fifo.win| > 0 && BucketInv(u.depth, s.bucket)
  }

  // The charges of a history, and the packets of it that the kfifo took.
  function Charges(c: Config, log: seq<Try>): (r: seq<Charge>)
    ensures |r| == |log| && forall i :: 0 <= i < |r| ==> r[i] == Charge(log[i].time, Time(c, log[i].p))
  {
    seq(|log|, i requires 0 <= i < |log| => Charge(log[i].time, Time(c, log[i].p)))
  }

  function Taken(log: seq<Try>): seq<Try> {
    if log == [] then [] else Taken(log[..|log|-1]) + if log[|log|-1].taken then [log[|log|-1]] else []
  }

  function PacketsOf(log: seq<Try>): (r: seq<Packet>)
    ensures |r| == |log| && forall i :: 0 <= i < |r| ==> r[i] == log[i].p
  {
    seq(|log|, i requires 0 <= i < |log| => log[i].p)
  }

  lemma {:induction false} TakenConcat(a: seq<Try>, b: seq<Try>)
    ensures Taken(a + b) == Taken(a) + Taken(b)
    decreases |b|
  {
    if b == [] {
      assert a + b == a;
    } else {
      assert (a + b)[..|a + b| - 1] == a + b[..|b|-1];
      TakenConcat(a, b[..|b|-1]);
    }
  }

  // The charges `log`, all covered, lead from one state to the other; what the kfifo took is accepted.
  ghost predicate Charged(u: Setup, s: System, log: seq<Try>, s': System) {
    && SysInv(u, s')
    && Legal(u.depth, s.bucket, Charges(u.kfifo, log))
    && s'.bucket == After(u.depth, s.bucket, Charges(u.kfifo, log))
    && s'.tried == s.tried + log
    && s'.flow.accepted == s.flow.accepted + PacketsOf(Taken(log))
  }

  lemma ChargedNone(u: Setup, s: System, s': System)
    requires SysInv(u, s') && s'.bucket == s.bucket && s'.tried == s.tried
    requires s'.flow.accepted == s.flow.accepted
    ensures Charged(u, s, [], s')
  {
  }

  lemma ChargedOne(u: Setup, s: System, t: Try, s': System)
    requires SysInv(u, s) && s.bucket.tc <= t.time && |s'.flow.fifo.win| > 0
    requires Time(u.kfifo, t.p) <= Refill(u.depth, s.bucket, t.time)
    requires s'.bucket == Spend(u.depth, s.bucket, Charge(t.time, Time(u.kfifo, t.p))) && s'.tried == s.tried + [t]
    requires s'.flow.accepted == s.flow.accepted + if t.taken then [t.p] else []
    ensures Charged(u, s, [t], s')
  {
    var ch := Charge(t.time, Time(u.kfifo, t.p));
    assert Charges(u.kfifo, [t]) == [ch];
    OneLegal(u.depth, s.bucket, ch);
    assert [t][..0] == [] && Taken([t]) == if t.taken then [t] else [];
    assert t.taken ==> PacketsOf([t]) == [t.p];
  }

  lemma ChargedConcat(u: Setup, s: System, a: seq<Try>, s1: System, b: seq<Try>, s2: System)
    requires Charged(u, s, a, s1) && Charged(u, s1, b, s2)
    ensures Charged(u, s, a + b, s2)
  {
    LogConcat(u.kfifo, a, b);
    LegalConcat(u.depth, s.bucket, Charges(u.kfifo, a), Charges(u.kfifo, b));
    assert s.tried + a + b == s.tried + (a + b);
    Regroup(s.flow.accepted, PacketsOf(Taken(a)), PacketsOf(Taken(b)));
  }

  lemma Regroup(a: seq<Packet>, b: seq<Packet>, c: seq<Packet>)
    ensures a + b + c == a + (b + c)
  {
  }

  lemma LogConcat(c: Config, a: seq<Try>, b: seq<Try>)
    ensures Charges(c, a + b) == Charges(c, a) + Charges(c, b)
    ensures PacketsOf(Taken(a + b)) == PacketsOf(Taken(a)) + PacketsOf(Taken(b))
  {
    TakenConcat(a, b);
  }

  // A covered admission charges the packet, whether or not the kfifo takes it, unless it is a drained one that is lost.
  lemma AdmitCharges(u: Setup, s: System, p: Packet, now: int, toks: int, always: bool)
    returns (log: seq<Try>)
    requires SysInv(u, s) && s.bucket.tc <= now
    requires toks == Refill(u.depth, s.bucket, now) - Time(u.kfifo, p) >= 0
    ensures var (s', ok) := Admit(u, s, p, now, toks, always);
            && Charged(u, s, log, s') && s'.bucket.tc <= now
            && (if ok || always then log == [Try(p, now, ok)] && s'.bucket == Bucket(toks, now)
                else log == [] && s'.bucket == s.bucket)
  {
    var r := Admit(u, s, p, now, toks, always);
    AcceptOne(u.kfifo, s.flow, p);
    RefillIs(u.depth, s.bucket, now);
    if r.1 || always {
      log := [Try(p, now, r.1)];
      ChargedOne(u, s, log[0], r.0);
    } else {
      log := [];
      ChargedNone(u, s, r.0);
    }
  }

  lemma AcceptOne(c: Config, s: Run, p: Packet)
    requires |s.fifo.win| > 0
    ensures Step(c, s, Offered(p)).accepted
            == s.accepted + if Offer(c, s.fifo, p).Some? then [p] else []
  {
  }

  lemma DecideCharges(u: Setup, s: System, p: Packet, now: int, room: bool) returns (log: seq<Try>)
    requires SysInv(u, s) && s.bucket.tc <= now
    ensures var (s', fate) := Decide(u, s, p, now, Refill(u.depth, s.bucket, now), room);
            Charged(u, s, log, s') && s'.bucket.tc <= now
  {
    var toks := Refill(u.depth, s.bucket, now) - Time(u.kfifo, p);
    if toks >= 0 {
      log := AdmitCharges(u, s, p, now, toks, true);
    } else {
      log := [];
      ChargedNone(u, s, Wait(s, p, room).0);
    }
  }

  // The balance handed from one drained packet to the next is the refilled balance of the bucket, and the
  // drain stops only when it covers no further packet or the kfifo is full.
  lemma {:induction false} DrainCharges(u: Setup, s: System, toks: int, now: int) returns (log: seq<Try>)
    requires SysInv(u, s) && s.bucket.tc <= now && toks == Refill(u.depth, s.bucket, now)
    ensures var d := Drain(u, s, toks, now);
            && Charged(u, s, log, d.sys) && d.sys.bucket.tc <= now
            && (d.ok ==> d.toks == Refill(u.depth, d.sys.bucket, now) && !Covers(u, d.sys, d.toks))
    decreases |s.inner|
  {
    if Covers(u, s, toks) {
      var left := toks - Time(u.kfifo, s.inner[0]);
      var s0 := s.(inner := s.inner[1..]);
      var (s', ok) := Head(u, s, toks, now);
      log := AdmitCharges(u, s0, s.inner[0], now, left, false);
      if ok {
        RefillAgain(u.depth, s.bucket, now, Time(u.kfifo, s.inner[0]));
        var more := DrainCharges(u, s', left, now);
        ChargedConcat(u, s0, log, s', more, Drain(u, s', left, now).sys);
        log := log + more;
      }
      SameStart(u, s0, s, log, Drain(u, s, toks, now).sys);
    } else {
      log := [];
      ChargedNone(u, s, s);
    }
  }

  lemma SameStart(u: Setup, s0: System, s: System, log: seq<Try>, s': System)
    requires Charged(u, s0, log, s')
    requires s0.bucket == s.bucket && s0.tried == s.tried && s0.flow == s.flow
    ensures Charged(u, s, log, s')
  {
  }

  // Charged and refilled again at the same time, the balance is what the charge left.
  lemma RefillAgain(depth: nat, b: Bucket, now: int, cost: nat)
    requires BucketInv(depth, b) && b.tc <= now && cost <= Refill(depth, b, now)
    ensures Refill(depth, Bucket(Refill(depth, b, now) - cost, now), now) == Refill(depth, b, now) - cost
  {
  }

  lemma EnqueueCharges(u: Setup, s: System, p: Packet, now: int, room: bool)
    returns (log: seq<Try>)
    requires SysInv(u, s) && s.bucket.tc <= now
    ensures var r := Enqueue(u, s, p, now, room); Charged(u, s, log, r.sys) && r.sys.bucket.tc <= now
  {
    var toks := Refill(u.depth, s.bucket, now);
    if s.inner == [] && LoopEntered(u, s, now) {
      log := [];
      ChargedNone(u, s, Enqueue(u, s, p, now, room).sys);
    } else {
      log := DrainCharges(u, s, toks, now);
      var d := Drain(u, s, toks, now);
      if d.ok {
        var more := DecideCharges(u, d.sys, p, now, room);
        ChargedConcat(u, s, log, d.sys, more, Decide(u, d.sys, p, now, d.toks, room).0);
        log := log + more;
      } else {
        assert log + [] == log;
        ChargedNone(u, d.sys, Enqueue(u, s, p, now, room).sys);
        ChargedConcat(u, s, log, d.sys, [], Enqueue(u, s, p, now, room).sys);
      }
    }
  }

  lemma DequeueCharges(u: Setup, s: System)
    requires SysInv(u, s)
    ensures Charged(u, s, [], Dequeue(u, s))
  {
    PollAccepts(u.kfifo, s.flow);
    ChargedNone(u, s, Dequeue(u, s));
  }

  lemma PollAccepts(c: Config, s: Run)
    requires |s.fifo.win| > 0
    ensures Step(c, s, Polling).accepted == s.accepted
  {
  }

  /* ---------- what one tsf_enqueue achieves ---------- */

  // `k` is the length of the longest prefix of `ps` whose total cost is at most `toks`.
  ghost predicate LongestFit(c: Config, ps: seq<Packet>, toks: int, k: int) {
    && 0 <= k <= |ps| && Cost(c, ps[..k]) <= toks
    && (forall m :: k < m <= |ps| ==> Cost(c, ps[..m]) > toks)
  }

  // How many packets at the front of `ps` the balance covers, one after the other.
  function Affordable(c: Config, ps: seq<Packet>, toks: int): (k: nat)
    ensures k <= |ps|
  {
    if ps == [] || toks < Time(c, ps[0]) then 0 else 1 + Affordable(c, ps[1..], toks - Time(c, ps[0]))
  }

  lemma {:induction false} AffordableIs(c: Config, ps: seq<Packet>, toks: int)
    requires toks >= 0
    ensures LongestFit(c, ps, toks, Affordable(c, ps, toks))
  {
    if ps == [] || toks < Time(c, ps[0]) {
      FitNone(c, ps, toks);
    } else {
      AffordableIs(c, ps[1..], toks - Time(c, ps[0]));
      FitMore(c, ps, toks, Affordable(c, ps[1..], toks - Time(c, ps[0])));
    }
  }

  lemma FitNone(c: Config, ps: seq<Packet>, toks: int)
    requires toks >= 0 && (ps == [] || toks < Time(c, ps[0]))
    ensures LongestFit(c, ps, toks, 0)
  {
    assert ps[..0] == [];
    forall m | 0 < m <= |ps| ensures Cost(c, ps[..m]) > toks {
      PeelCost(c, ps, m);
    }
  }

  lemma FitMore(c: Config, ps: seq<Packet>, toks: int, k: int)
    requires ps != [] && LongestFit(c, ps[1..], toks - Time(c, ps[0]), k)
    ensures LongestFit(c, ps, toks, k + 1)
    ensures Cost(c, ps[..k + 1]) == Time(c, ps[0]) + Cost(c, ps[1..][..k])
  {
    PeelCost(c, ps, k + 1);
    forall m | k + 1 < m <= |ps| ensures Cost(c, ps[..m]) > toks {
      PeelCost(c, ps, m);
      assert Cost(c, ps[1..][..m - 1]) > toks - Time(c, ps[0]);
    }
  }

  lemma PeelCost(c: Config, ps: seq<Packet>, m: nat)
    requires 0 < m <= |ps|
    ensures Cost(c, ps[..m]) == Time(c, ps[0]) + Cost(c, ps[1..][..m - 1])
  {
    assert ps[..m][1..] == ps[1..][..m - 1];
  }

  // How many packets at the front of `ps` the kfifo takes, one after the other.
  function Taking(c: Config, f: Fifo, ps: seq<Packet>): (j: nat)
    requires |f.win| > 0
    ensures j <= |ps|
    decreases |ps|
  {
    if ps == [] || Offer(c, f, ps[0]).None? then 0 else 1 + Taking(c, Offer(c, f, ps[0]).value, ps[1..])
  }

  // The kfifo takes all of `ps`, one after the other.
  predicate Takes(c: Config, f: Fifo, ps: seq<Packet>)
    requires |f.win| > 0
  {
    Taking(c, f, ps) == |ps|
  }

  function Offers(ps: seq<Packet>): (es: seq<Pacing.Event>)
    ensures |es| == |ps| && forall i :: 0 <= i < |es| ==> es[i] == Offered(ps[i])
  {
    seq(|ps|, i requires 0 <= i < |ps| => Offered(ps[i]))
  }

  // The kfifo, offered `ps` in turn, accepts that many of them and refuses the next.
  lemma {:induction false} TakingIs(c: Config, s: Run, ps: seq<Packet>)
    requires |s.fifo.win| > 0
    ensures var j := Taking(c, s.fifo, ps);
            var t := Exec(c, s, Offers(ps[..j]));
            && t == Run(t.fifo, s.accepted + ps[..j], s.released, s.delay)
            && (j < |ps| ==> Offer(c, t.fifo, ps[j]) == None)
    decreases |ps|
  {
    var j := Taking(c, s.fifo, ps);
    if j == 0 {
      assert ps[..0] == [] && s.accepted + [] == s.accepted && Offers([]) == [];
    } else {
      var t := Step(c, s, Offered(ps[0]));
      TakingIs(c, t, ps[1..]);
      OffersMore(c, s, ps, j);
      assert ps[..j] == [ps[0]] + ps[1..][..j - 1];
      Regroup(s.accepted, [ps[0]], ps[1..][..j - 1]);
    }
  }

  lemma OffersMore(c: Config, s: Run, ps: seq<Packet>, j: nat)
    requires |s.fifo.win| > 0 && 0 < j <= |ps|
    ensures Exec(c, s, Offers(ps[..j])) == Exec(c, Step(c, s, Offered(ps[0])), Offers(ps[1..][..j - 1]))
  {
    assert Offers(ps[..j])[1..] == Offers(ps[1..][..j - 1]);
  }

  // The first `j` packets of the inner queue are charged and in the kfifo, those from there to `cut` are gone.
  function Moved(u: Setup, s: System, toks: int, now: int, j: nat, cut: nat): System
    requires |s.flow.fifo.win| > 0 && j <= cut <= |s.inner|
  {
    System(if j == 0 then s.bucket else Bucket(toks - Cost(u.kfifo, s.inner[..j]), now), s.inner[cut..],
           Exec(u.kfifo, s.flow, Offers(s.inner[..j])), s.tried + Tries(s.inner[..j], now),
           s.freed, s.lost + s.inner[j..cut], s.halted)
  }

  // Each of `ps` charged and taken.
  function Tries(ps: seq<Packet>, now: int): (log: seq<Try>)
    ensures |log| == |ps| && forall i :: 0 <= i < |log| ==> log[i] == Try(ps[i], now, true)
  {
    seq(|ps|, i requires 0 <= i < |ps| => Try(ps[i], now, true))
  }

  lemma MovedNone(u: Setup, s: System, toks: int, now: int)
    requires |s.flow.fifo.win| > 0
    ensures Moved(u, s, toks, now, 0, 0) == s
    ensures s.inner != [] ==> Moved(u, s, toks, now, 0, 1) == s.(inner := s.inner[1..], lost := s.lost + [s.inner[0]])
  {
    assert s.inner[..0] == [] && s.inner[0..] == s.inner && s.tried + [] == s.tried && s.lost + [] == s.lost;
    assert s.inner != [] ==> s.inner[0..1] == [s.inner[0]];
  }

  lemma TriesMore(tried: seq<Try>, ps: seq<Packet>, j: nat, now: int)
    requires 0 < j <= |ps|
    ensures tried + Tries(ps[..j], now) == tried + [Try(ps[0], now, true)] + Tries(ps[1..][..j - 1], now)
  {
    assert Tries(ps[..j], now) == [Try(ps[0], now, true)] + Tries(ps[1..][..j - 1], now);
  }

  lemma SameSlices(ps: seq<Packet>, j: nat, cut: nat)
    requires 0 < j <= cut <= |ps|
    ensures ps[1..][cut - 1..] == ps[cut..] && ps[1..][j - 1..cut - 1] == ps[j..cut]
  {
  }

  lemma MovedMore(u: Setup, s: System, toks: int, now: int, s': System, j: nat, cut: nat)
    requires |s.flow.fifo.win| > 0 && 0 < j <= cut <= |s.inner| && |s'.flow.fifo.win| > 0
    requires s' == System(Bucket(toks - Time(u.kfifo, s.inner[0]), now), s.inner[1..],
                          Step(u.kfifo, s.flow, Offered(s.inner[0])), s.tried + [Try(s.inner[0], now, true)],
                          s.freed, s.lost, s.halted)
    ensures Moved(u, s', toks - Time(u.kfifo, s.inner[0]), now, j - 1, cut - 1) == Moved(u, s, toks, now, j, cut)
  {
    var rest := s.inner[1..];
    PeelCost(u.kfifo, s.inner, j);
    OffersMore(u.kfifo, s.flow, s.inner, j);
    SameSlices(s.inner, j, cut);
    TriesMore(s.tried, s.inner, j, now);
    assert j == 1 ==> rest[..0] == [];
  }

  // The drain affords `k` packets and the kfifo takes `j` of them; the one it refuses is gone.
  ghost predicate Drains(u: Setup, s: System, toks: int, now: int, d: Drained, k: nat, j: nat) {
    && |s.flow.fifo.win| > 0 && j <= k <= |s.inner|
    && d == Drained(Moved(u, s, toks, now, j, if j < k then j + 1 else k), toks - Cost(u.kfifo, s.inner[..j]), j == k)
  }

  lemma TakingHead(c: Config, f: Fifo, ps: seq<Packet>, k: nat)
    requires |f.win| > 0 && 0 < k <= |ps|
    ensures var r := Offer(c, f, ps[0]);
            Taking(c, f, ps[..k]) == if r.None? then 0 else 1 + Taking(c, r.value, ps[1..][..k - 1])
  {
    assert ps[..k][1..] == ps[1..][..k - 1];
  }

  lemma DrainsNone(u: Setup, s: System, toks: int, now: int, k: nat)
    requires |s.flow.fifo.win| > 0 && k <= |s.inner|
    ensures k == 0 ==> Drains(u, s, toks, now, Drained(s, toks, true), 0, 0)
    ensures k > 0 && Head(u, s, toks, now).1 == false
            ==> Drains(u, s, toks, now, Drained(Head(u, s, toks, now).0, toks, false), k, 0)
  {
    MovedNone(u, s, toks, now);
    assert s.inner[..0] == [];
  }

  lemma DrainsMore(u: Setup, s: System, toks: int, now: int, s': System, d: Drained, k: nat, j: nat)
    requires |s.flow.fifo.win| > 0 && Covers(u, s, toks) && Head(u, s, toks, now) == (s', true)
    requires Drains(u, s', toks - Time(u.kfifo, s.inner[0]), now, d, k, j)
    ensures Drains(u, s, toks, now, d, k + 1, j + 1) == true
  {
    MovedMore(u, s, toks, now, s', j + 1, if j < k then j + 2 else k + 1);
    PeelCost(u.kfifo, s.inner, j + 1);
  }

  ghost predicate Greedy(u: Setup, s: System, toks: int, now: int, d: Drained) {
    |s.flow.fifo.win| > 0
    && var k := Affordable(u.kfifo, s.inner, toks);
       Drains(u, s, toks, now, d, k, Taking(u.kfifo, s.flow.fifo, s.inner[..k]))
  }

  lemma GreedyIs(u: Setup, s: System, toks: int, now: int, d: Drained, k: nat, j: nat)
    requires Drains(u, s, toks, now, d, k, j) && k == Affordable(u.kfifo, s.inner, toks)
    requires j == Taking(u.kfifo, s.flow.fifo, s.inner[..k])
    ensures Greedy(u, s, toks, now, d)
  {
  }

  lemma GreedyMore(u: Setup, s: System, toks: int, now: int, s': System, d: Drained)
    requires |s.flow.fifo.win| > 0 && Covers(u, s, toks) && Head(u, s, toks, now) == (s', true)
    requires Greedy(u, s', toks - Time(u.kfifo, s.inner[0]), now, d)
    ensures Greedy(u, s, toks, now, d) == true
  {
    var k := Affordable(u.kfifo, s'.inner, toks - Time(u.kfifo, s.inner[0]));
    var j := Taking(u.kfifo, s'.flow.fifo, s'.inner[..k]);
    DrainsMore(u, s, toks, now, s', d, k, j);
    TakingHead(u.kfifo, s.flow.fifo, s.inner, k + 1);
    GreedyIs(u, s, toks, now, d, k + 1, j + 1);
  }

  lemma GreedyEnds(u: Setup, s: System, toks: int, now: int)
    requires |s.flow.fifo.win| > 0
    ensures !Covers(u, s, toks) ==> Greedy(u, s, toks, now, Drained(s, toks, true))
    ensures Covers(u, s, toks) && Head(u, s, toks, now).1 == false
            ==> Greedy(u, s, toks, now, Drained(Head(u, s, toks, now).0, toks, false))
  {
    var k := Affordable(u.kfifo, s.inner, toks);
    DrainsNone(u, s, toks, now, k);
    if k > 0 {
      TakingHead(u.kfifo, s.flow.fifo, s.inner, k);
    }
  }

  // A drain moves the affordable prefix of the inner queue, up to the first packet of it that the kfifo refuses;
  // this one is gone, and it is not charged nor does it move the check-point.
  lemma {:induction false} DrainIsGreedy(u: Setup, s: System, toks: int, now: int)
    requires |s.flow.fifo.win| > 0
    ensures Greedy(u, s, toks, now, Drain(u, s, toks, now)) == true
    decreases |s.inner|
  {
    GreedyEnds(u, s, toks, now);
    if Covers(u, s, toks) && Head(u, s, toks, now).1 {
      var s' := Head(u, s, toks, now).0;
      DrainIsGreedy(u, s', toks - Time(u.kfifo, s.inner[0]), now);
      GreedyMore(u, s, toks, now, s', Drain(u, s, toks, now));
    }
  }

  // Behind packets that it all takes, the kfifo takes what it takes once they are in it.
  lemma {:induction false} TakingConcat(c: Config, s: Run, a: seq<Packet>, b: seq<Packet>)
    requires |s.fifo.win| > 0
    ensures var j := Taking(c, s.fifo, a);
            Taking(c, s.fifo, a + b) == if j < |a| then j else j + Taking(c, Exec(c, s, Offers(a)).fifo, b)
    decreases |a|
  {
    if a == [] {
      assert a + b == b && Offers(a) == [];
    } else {
      assert (a + b)[1..] == a[1..] + b && a[..|a|] == a && a[1..][..|a| - 1] == a[1..];
      TakingConcat(c, Step(c, s, Offered(a[0])), a[1..], b);
      OffersMore(c, s, a, |a|);
    }
  }

  // After it the kfifo takes what it would have taken behind the prefix.
  lemma DrainTakes(u: Setup, s: System, toks: int, now: int, more: seq<Packet>)
    requires |s.flow.fifo.win| > 0
    ensures var k, d := Affordable(u.kfifo, s.inner, toks), Drain(u, s, toks, now);
            Takes(u.kfifo, s.flow.fifo, s.inner[..k] + more) <==> d.ok && Takes(u.kfifo, d.sys.flow.fifo, more)
  {
    DrainIsGreedy(u, s, toks, now);
    TakingConcat(u.kfifo, s.flow, s.inner[..Affordable(u.kfifo, s.inner, toks)], more);
  }

  // The charges of `ask` when the kfifo takes `j` of it: a packet it refuses is charged behind the first `k` only.
  function ChargesOf(ask: seq<Packet>, j: nat, k: nat, p: Packet, now: int): seq<Try>
    requires j <= |ask|
  {
    Tries(ask[..j], now) + if k <= j < |ask| then [Try(p, now, false)] else []
  }

  // What is charged is taken off the refilled balance and moves the check-point to the clock.
  function BucketAfter(u: Setup, b: Bucket, now: int, log: seq<Try>): Bucket {
    if log == [] then b else Bucket(Refill(u.depth, b, now) - Cost(u.kfifo, PacketsOf(log)), now)
  }

  // What becomes of the packet `p`, and of the rest of the state, when `k` waiting packets and then `ask[k..]`,
  // which is `p` or nothing, are to move on: they are charged and accepted up to the first that the kfifo
  // refuses.  This one is lost, and charged too if it is `p`.
  ghost predicate Told(u: Setup, s: System, ask: seq<Packet>, k: nat, p: Packet, now: int, room: bool,
                       s': System, fate: Fate)
  {
    && |s.flow.fifo.win| > 0 && k <= |s.inner| && k <= |ask|
    && var j := Taking(u.kfifo, s.flow.fifo, ask);
       && fate == (if j < |ask| then Lost else if k < |ask| then Admitted else if room then Waiting else Freed)
       && s'.tried == s.tried + ChargesOf(ask, j, k, p, now)
       && s'.bucket == BucketAfter(u, s.bucket, now, ChargesOf(ask, j, k, p, now))
       && s'.flow == Exec(u.kfifo, s.flow, Offers(ask[..j]))
       && s'.flow.accepted == s.flow.accepted + ask[..j]
       && s'.inner == s.inner[if j < k then j + 1 else k..] + (if fate == Waiting then [p] else [])
       && s'.freed == s.freed + (if fate == Freed then [p] else [])
       && s'.lost == s.lost + (if j < k then [s.inner[j]] else []) + (if fate == Lost then [p] else [])
       && s'.halted == s.halted
  }

  // The new packet behind `k` waiting ones.
  function Behind(u: Setup, s: System, k: nat, p: Packet, toks: int): seq<Packet>
    requires k <= |s.inner|
  {
    s.inner[..k] + if Cost(u.kfifo, s.inner[..k]) + Time(u.kfifo, p) <= toks then [p] else []
  }

  lemma TriesCharged(u: Setup, b: Bucket, ps: seq<Packet>, now: int)
    ensures Tries(ps, now) + [] == Tries(ps, now)
    ensures BucketAfter(u, b, now, Tries(ps, now))
            == if ps == [] then b else Bucket(Refill(u.depth, b, now) - Cost(u.kfifo, ps), now)
  {
    assert PacketsOf(Tries(ps, now)) == ps;
  }

  lemma LastCharged(u: Setup, s: System, ps: seq<Packet>, p: Packet, now: int, taken: bool)
    ensures var log := Tries(ps, now) + [Try(p, now, taken)];
            && BucketAfter(u, s.bucket, now, log)
               == Bucket(Refill(u.depth, s.bucket, now) - Cost(u.kfifo, ps) - Time(u.kfifo, p), now)
            && s.tried + Tries(ps, now) + [Try(p, now, taken)] == s.tried + log
            && (taken ==> Tries(ps + [p], now) + [] == log)
  {
    assert PacketsOf(Tries(ps, now) + [Try(p, now, taken)]) == ps + [p];
    CostConcat(u.kfifo, ps, [p]);
    One(u.kfifo, p);
  }

  // The kfifo refuses one of the `k`: the new packet is lost with it.
  lemma CutTold(u: Setup, s: System, k: nat, p: Packet, now: int, room: bool)
    requires |s.flow.fifo.win| > 0 && k <= |s.inner|
    requires !Takes(u.kfifo, s.flow.fifo, s.inner[..k])
    ensures var toks := Refill(u.depth, s.bucket, now);
            var j := Taking(u.kfifo, s.flow.fifo, s.inner[..k]);
            var m := Moved(u, s, toks, now, j, j + 1);
            Told(u, s, Behind(u, s, k, p, toks), k, p, now, room, m.(lost := m.lost + [p]), Lost) == true
  {
    var ask := Behind(u, s, k, p, Refill(u.depth, s.bucket, now));
    var j := Taking(u.kfifo, s.flow.fifo, s.inner[..k]);
    TakingConcat(u.kfifo, s.flow, s.inner[..k], ask[k..]);
    TakingIs(u.kfifo, s.flow, s.inner[..k]);
    assert s.inner[..k] + ask[k..] == ask && s.inner[..k][..j] == s.inner[..j] == ask[..j];
    TriesCharged(u, s.bucket, s.inner[..j], now);
  }

  // The kfifo takes all of the `k`, and the new packet goes to the inner queue.
  lemma WaitTold(u: Setup, s: System, k: nat, p: Packet, now: int, room: bool)
    requires |s.flow.fifo.win| > 0 && k <= |s.inner|
    requires Takes(u.kfifo, s.flow.fifo, s.inner[..k])
    ensures var m := Moved(u, s, Refill(u.depth, s.bucket, now), now, k, k);
            Told(u, s, s.inner[..k], k, p, now, room, Wait(m, p, room).0, if room then Waiting else Freed) == true
  {
    TakingIs(u.kfifo, s.flow, s.inner[..k]);
    assert s.inner[..k][..k] == s.inner[..k];
    TriesCharged(u, s.bucket, s.inner[..k], now);
  }

  lemma OneMore(c: Config, s: Run, ps: seq<Packet>, p: Packet)
    requires |s.fifo.win| > 0 && Takes(c, s.fifo, ps)
    ensures var t := Exec(c, s, Offers(ps));
            var ok := Offer(c, t.fifo, p).Some?;
            && Taking(c, s.fifo, ps + [p]) == (if ok then |ps| + 1 else |ps|)
            && Exec(c, s, Offers(ps + [p])) == Step(c, t, Offered(p))
            && t.accepted == s.accepted + ps
            && (ok ==> Step(c, t, Offered(p)).accepted == s.accepted + (ps + [p]))
  {
    TakingConcat(c, s, ps, [p]);
    TakingIs(c, s, ps);
    assert ps[..|ps|] == ps && Offers(ps + [p]) == Offers(ps) + Offers([p]);
    ExecConcat(c, s, Offers(ps), Offers([p]));
    assert Offers([p]) == [Offered(p)];
    OneStep(c, Exec(c, s, Offers(ps)), Offered(p));
    Regroup(s.accepted, ps, [p]);
  }

  // The kfifo takes all of the `k`, and the new packet is offered behind them.
  lemma AdmitTold(u: Setup, s: System, k: nat, p: Packet, now: int, room: bool)
    requires |s.flow.fifo.win| > 0 && k <= |s.inner|
    requires Takes(u.kfifo, s.flow.fifo, s.inner[..k])
    ensures var toks := Refill(u.depth, s.bucket, now);
            var left := toks - Cost(u.kfifo, s.inner[..k]) - Time(u.kfifo, p);
            var (s', ok) := Admit(u, Moved(u, s, toks, now, k, k), p, now, left, true);
            Told(u, s, s.inner[..k] + [p], k, p, now, room, s', if ok then Admitted else Lost) == true
  {
    var ps, ask := s.inner[..k], s.inner[..k] + [p];
    OneMore(u.kfifo, s.flow, ps, p);
    assert ask[..k] == ps && ask[..k + 1] == ask;
    LastCharged(u, s, ps, p, now, false);
    LastCharged(u, s, ps, p, now, true);
  }

  lemma DecideTold(u: Setup, s: System, k: nat, p: Packet, now: int, room: bool)
    requires |s.flow.fifo.win| > 0 && k <= |s.inner|
    requires Takes(u.kfifo, s.flow.fifo, s.inner[..k])
    ensures var toks := Refill(u.depth, s.bucket, now);
            var m := Moved(u, s, toks, now, k, k);
            var (s', fate) := Decide(u, m, p, now, toks - Cost(u.kfifo, s.inner[..k]), room);
            Told(u, s, Behind(u, s, k, p, toks), k, p, now, room, s', fate) == true
  {
    AdmitTold(u, s, k, p, now, room);
    WaitTold(u, s, k, p, now, room);
    assert s.inner[..k] + [] == s.inner[..k];
  }

  lemma ProceedIs(u: Setup, s: System, p: Packet, now: int, toks: int, room: bool, k: nat, j: nat)
    requires |s.flow.fifo.win| > 0 && k == Affordable(u.kfifo, s.inner, toks)
    requires j == Taking(u.kfifo, s.flow.fifo, s.inner[..k])
    ensures var m := Moved(u, s, toks, now, j, if j < k then j + 1 else k);
            Proceed(u, s, p, now, toks, room)
            == if j == k then Conclude(u, m, p, now, toks - Cost(u.kfifo, s.inner[..k]), room)
               else Outcome(m.(lost := m.lost + [p]), Lost, None)
  {
    DrainIsGreedy(u, s, toks, now);
  }

  lemma ConcludeTold(u: Setup, s: System, k: nat, p: Packet, toks: int, now: int, room: bool, r: Outcome)
    requires |s.flow.fifo.win| > 0 && k <= |s.inner| && toks == Refill(u.depth, s.bucket, now)
    requires Takes(u.kfifo, s.flow.fifo, s.inner[..k])
    requires r == Conclude(u, Moved(u, s, toks, now, k, k), p, now, toks - Cost(u.kfifo, s.inner[..k]), room)
    ensures Told(u, s, Behind(u, s, k, p, toks), k, p, now, room, r.sys, r.fate) == true
  {
    DecideTold(u, s, k, p, now, room);
  }

  lemma ProceedTold(u: Setup, s: System, p: Packet, now: int, room: bool)
    requires |s.flow.fifo.win| > 0
    ensures var toks := Refill(u.depth, s.bucket, now);
            var k, r := Affordable(u.kfifo, s.inner, toks), Proceed(u, s, p, now, toks, room);
            Told(u, s, Behind(u, s, k, p, toks), k, p, now, room, r.sys, r.fate) == true
  {
    var toks := Refill(u.depth, s.bucket, now);
    var k, r := Affordable(u.kfifo, s.inner, toks), Proceed(u, s, p, now, toks, room);
    ProceedIs(u, s, p, now, toks, room, k, Taking(u.kfifo, s.flow.fifo, s.inner[..k]));
    if Takes(u.kfifo, s.flow.fifo, s.inner[..k]) {
      ConcludeTold(u, s, k, p, toks, now, room, r);
    } else {
      CutTold(u, s, k, p, now, room);
    }
  }

  // One call of tsf_enqueue, told from the state it finds: the longest affordable prefix of the inner queue is
  // to move, and behind it the new packet exactly when the remainder of the balance covers it too.  The watchdog
  // is set when the new packet is sent to the inner queue.
  lemma EnqueueIsGreedy(u: Setup, s: System, p: Packet, now: int, room: bool) returns (k: nat)
    requires SysInv(u, s) && s.bucket.tc <= now && s.inner != []
    ensures LongestFit(u.kfifo, s.inner, Refill(u.depth, s.bucket, now), k)
    ensures var ask := Behind(u, s, k, p, Refill(u.depth, s.bucket, now));
            var r := Enqueue(u, s, p, now, room);
            && Told(u, s, ask, k, p, now, room, r.sys, r.fate)
            && (r.wake.Some? <==> r.fate == Waiting || r.fate == Freed)
  {
    var toks := Refill(u.depth, s.bucket, now);
    k := Affordable(u.kfifo, s.inner, toks);
    AffordableIs(u.kfifo, s.inner, toks);
    ProceedTold(u, s, p, now, room);
    ProceedWakes(u, s, p, now, toks, room);
  }

  lemma ProceedWakes(u: Setup, s: System, p: Packet, now: int, toks: int, room: bool)
    requires |s.flow.fifo.win| > 0
    ensures var r := Proceed(u, s, p, now, toks, room); r.wake.Some? <==> r.fate == Waiting || r.fate == Freed
  {
  }

  // One segment, told the same way: no waiting packet moves.
  lemma SegmentIsTold(u: Setup, s: System, p: Packet, now: int, room: bool)
    requires |s.flow.fifo.win| > 0
    ensures var (s', fate) := Segment(u, s, p, now, room);
            Told(u, s, Behind(u, s, 0, p, Refill(u.depth, s.bucket, now)), 0, p, now, room, s', fate)
  {
    MovedNone(u, s, Refill(u.depth, s.bucket, now), now);
    assert s.inner[..0] == [];
    DecideTold(u, s, 0, p, now, room);
  }

  // Whenever it is set, it is set to the earliest time at which the balance covers the head of the inner queue,
  // or the new packet if that queue is empty and has no room for it.  This presumes that the bucket is deep
  // enough for the packet at all; one that costs more than the depth is never covered.
  lemma WakeIsExact(u: Setup, s: System, p: Packet, now: int, room: bool, later: int)
    requires SysInv(u, s) && s.bucket.tc <= now <= later
    requires Enqueue(u, s, p, now, room).wake.Some?
    ensures var r := Enqueue(u, s, p, now, room);
            var cost := Time(u.kfifo, if r.sys.inner != [] then r.sys.inner[0] else p);
            Refill(u.depth, r.sys.bucket, later) >= cost <==> cost <= u.depth && later >= r.wake.value
  {
    var log := DrainCharges(u, s, Refill(u.depth, s.bucket, now), now);
    var d := Drain(u, s, Refill(u.depth, s.bucket, now), now);
    var r := Enqueue(u, s, p, now, room);
    ShortfallWait(u.depth, d.sys.bucket, now, Time(u.kfifo, if r.sys.inner != [] then r.sys.inner[0] else p), later);
  }

  /* ---------- what becomes of the packets ---------- */

  // Every packet handed in so far: waiting, accepted, freed or lost.
  function Ledger(s: System): multiset<Packet> {
    multiset(s.inner) + multiset(s.flow.accepted) + multiset(s.freed) + multiset(s.lost)
  }

  // The first `j` of `ps` are accepted, `cut` of them are lost.
  lemma SplitLedger(ps: seq<Packet>, j: nat, cut: nat)
    requires j <= cut <= |ps|
    ensures multiset(ps) == multiset(ps[..j]) + multiset(ps[j..cut]) + multiset(ps[cut..])
  {
    assert ps == ps[..j] + ps[j..cut] + ps[cut..];
  }

  lemma CutLedger(s: System, j: nat, p: Packet, s': System)
    requires j < |s.inner| && s'.inner == s.inner[j + 1..] && s'.flow.accepted == s.flow.accepted + s.inner[..j]
    requires s'.freed == s.freed && s'.lost == s.lost + [s.inner[j]] + [p]
    ensures Ledger(s') == Ledger(s) + multiset{p}
  {
    SplitLedger(s.inner, j, j + 1);
    assert s.inner[j..j + 1] == [s.inner[j]];
  }

  lemma KeepLedger(s: System, k: nat, p: Packet, s': System, fate: Fate)
    requires k <= |s.inner| && fate != Halted
    requires s'.inner == s.inner[k..] + if fate == Waiting then [p] else []
    requires s'.flow.accepted == s.flow.accepted + (s.inner[..k] + if fate == Admitted then [p] else [])
    requires s'.freed == s.freed + if fate == Freed then [p] else []
    requires s'.lost == s.lost + if fate == Lost then [p] else []
    ensures Ledger(s') == Ledger(s) + multiset{p}
  {
    SplitLedger(s.inner, k, k);
  }

  lemma ToldLedger(u: Setup, s: System, k: nat, p: Packet, toks: int, now: int, room: bool, s': System, fate: Fate)
    requires k <= |s.inner| && Told(u, s, Behind(u, s, k, p, toks), k, p, now, room, s', fate)
    ensures Ledger(s') == Ledger(s) + multiset{p}
  {
    var ask := Behind(u, s, k, p, toks);
    var j := Taking(u.kfifo, s.flow.fifo, ask);
    if j < k {
      assert ask[..j] == s.inner[..j] && s'.freed == s.freed + [];
      CutLedger(s, j, p, s');
    } else {
      assert ask[..k] == s.inner[..k] && ask[..|ask|] == ask;
      assert s'.flow.accepted == s.flow.accepted + (s.inner[..k] + if fate == Admitted then [p] else []);
      assert s.lost + [] == s.lost;
      KeepLedger(s, k, p, s', fate);
    }
  }

  lemma EnqueueLedger(u: Setup, s: System, p: Packet, now: int, room: bool)
    requires |s.flow.fifo.win| > 0
    ensures var r := Enqueue(u, s, p, now, room);
            Ledger(r.sys) == if r.fate == Halted then Ledger(s) else Ledger(s) + multiset{p}
  {
    if s.inner != [] || !LoopEntered(u, s, now) {
      var toks := Refill(u.depth, s.bucket, now);
      var k, r := Affordable(u.kfifo, s.inner, toks), Enqueue(u, s, p, now, room);
      ProceedTold(u, s, p, now, room);
      ToldLedger(u, s, k, p, toks, now, room, r.sys, r.fate);
    }
  }

  /* ---------- when the drain loop goes wrong ---------- */

  // The loop is entered with a packet in hand only, at whatever time from the check-point on, exactly when the
  // inner queue is not empty.
  lemma LoopHasPacketIff(u: Setup, s: System)
    requires SysInv(u, s)
    ensures (forall now :: s.bucket.tc <= now && LoopEntered(u, s, now) ==> s.inner != []) <==> s.inner != []
  {
    if s.inner == [] {
      assert s.bucket.tc <= s.bucket.tc && LoopEntered(u, s, s.bucket.tc);
    }
  }

  lemma EnqueueHaltsIff(u: Setup, s: System, p: Packet, now: int, room: bool)
    requires SysInv(u, s) && s.bucket.tc <= now
    ensures Enqueue(u, s, p, now, room).fate == Halted <==> s.inner == []
  {
  }

  /* ---------- whole runs ---------- */

  datatype Event =
    | Segmented(p: Packet, now: int, room: bool)
    | Enqueued(p: Packet, now: int, room: bool)
    | Dequeued

  function Clock(clock: int, e: Event): int {
    if e.Dequeued? then clock else e.now
  }

  function Next(u: Setup, s: System, e: Event): (s': System)
    requires |s.flow.fifo.win| > 0
    ensures |s'.flow.fifo.win| > 0
  {
    if s.halted then s
    else
      match e
      case Segmented(p, now, room) => Segment(u, s, p, now, room).0
      case Enqueued(p, now, room) => Enqueue(u, s, p, now, room).sys
      case Dequeued => Dequeue(u, s)
  }

  function LastClock(clock: int, es: seq<Event>): int
    decreases |es|
  {
    if es == [] then clock else LastClock(Clock(clock, es[0]), es[1..])
  }

  // The clock never goes back.
  ghost predicate Timely(clock: int, es: seq<Event>)
    decreases |es|
  {
    es == [] || (clock <= Clock(clock, es[0]) && Timely(Clock(clock, es[0]), es[1..]))
  }

  function Play(u: Setup, s: System, es: seq<Event>): (s': System)
    requires |s.flow.fifo.win| > 0
    ensures |s'.flow.fifo.win| > 0
    decreases |es|
  {
    if es == [] then s else Play(u, Next(u, s, es[0]), es[1..])
  }

  lemma {:induction false} PlayConcat(u: Setup, s: System, es: seq<Event>, fs: seq<Event>)
    requires |s.flow.fifo.win| > 0
    ensures Play(u, s, es + fs) == Play(u, Play(u, s, es), fs)
    decreases |es|
  {
    if es == [] {
      assert es + fs == fs;
    } else {
      assert (es + fs)[1..] == es[1..] + fs;
      PlayConcat(u, Next(u, s, es[0]), es[1..], fs);
    }
  }

  // Segmenting a packet is a run of one event per segment, so everything below covers it.
  lemma SegmentsArePlayed(u: Setup, s: System, ps: seq<Packet>, clock: seq<int>,
                          room: seq<bool>, es: seq<Event>)
    requires |s.flow.fifo.win| > 0 && !s.halted && |ps| == |clock| == |room| == |es|
    requires forall i :: 0 <= i < |es| ==> es[i] == Segmented(ps[i], clock[i], room[i])
    ensures SegmentAll(u, s, ps, clock, room, |ps|).0 == Play(u, s, es)
  {
    SegmentPrefix(u, s, ps, clock, room, es, |es|);
    assert es[..|es|] == es;
  }

  lemma {:induction false} SegmentPrefix(u: Setup, s: System, ps: seq<Packet>, clock: seq<int>,
                                         room: seq<bool>, es: seq<Event>, k: nat)
    requires |s.flow.fifo.win| > 0 && !s.halted && k <= |ps| == |clock| == |room| == |es|
    requires forall i :: 0 <= i < |es| ==> es[i] == Segmented(ps[i], clock[i], room[i])
    ensures SegmentAll(u, s, ps, clock, room, k).0 == Play(u, s, es[..k]) && !Play(u, s, es[..k]).halted
    decreases k
  {
    if k > 0 {
      SegmentPrefix(u, s, ps, clock, room, es, k - 1);
      assert es[..k] == es[..k - 1] + [es[k - 1]];
      PlayLast(u, s, es[..k - 1], es[k - 1]);
      SegmentKeepsOn(u, Play(u, s, es[..k - 1]), ps[k - 1], clock[k - 1], room[k - 1]);
    }
  }

  lemma PlayLast(u: Setup, s: System, es: seq<Event>, e: Event)
    requires |s.flow.fifo.win| > 0
    ensures Play(u, s, es + [e]) == Next(u, Play(u, s, es), e)
  {
    PlayConcat(u, s, es, [e]);
    assert [e][1..] == [];
  }

  lemma SegmentKeepsOn(u: Setup, s: System, p: Packet, now: int, room: bool)
    requires |s.flow.fifo.win| > 0 && !s.halted
    ensures Next(u, s, Segmented(p, now, room)) == Segment(u, s, p, now, room).0
    ensures !Segment(u, s, p, now, room).0.halted
  {
  }

  lemma NextCharges(u: Setup, s: System, e: Event, clock: int) returns (log: seq<Try>)
    requires SysInv(u, s) && s.bucket.tc <= clock <= Clock(clock, e)
    ensures Charged(u, s, log, Next(u, s, e)) && Next(u, s, e).bucket.tc <= Clock(clock, e)
  {
    log := [];
    if s.halted {
      ChargedNone(u, s, s);
      return;
    }
    match e
    case Segmented(p, now, room) => log := DecideCharges(u, s, p, now, room);
    case Enqueued(p, now, room) => log := EnqueueCharges(u, s, p, now, room);
    case Dequeued => DequeueCharges(u, s);
  }

  lemma {:induction false} PlayCharges(u: Setup, s: System, clock: int, es: seq<Event>) returns (log: seq<Try>)
    requires SysInv(u, s) && s.bucket.tc <= clock && Timely(clock, es)
    ensures Charged(u, s, log, Play(u, s, es)) && Play(u, s, es).bucket.tc <= LastClock(clock, es)
    decreases |es|
  {
    log := [];
    if es == [] {
      ChargedNone(u, s, s);
    } else {
      log := NextCharges(u, s, es[0], clock);
      var more := PlayCharges(u, Next(u, s, es[0]), Clock(clock, es[0]), es[1..]);
      ChargedConcat(u, s, log, Next(u, s, es[0]), more, Play(u, s, es));
      log := log + more;
    }
  }

  /* ---------- main results ---------- */

  // In every run the balance is what the charges made left of an empty bucket, all of them were covered, and
  // the kfifo accepted what it took of them.
  ghost predicate Sound(u: Setup, s: System) {
    && Legal(u.depth, BLANK, Charges(u.kfifo, s.tried))
    && s.bucket == After(u.depth, BLANK, Charges(u.kfifo, s.tried))
    && s.flow.accepted == PacketsOf(Taken(s.tried))
  }

  lemma RunSound(u: Setup, es: seq<Event>)
    requires Timely(0, es)
    ensures Sound(u, Play(u, INITIAL, es)) && Play(u, INITIAL, es).bucket.tc <= LastClock(0, es)
  {
    var log := PlayCharges(u, INITIAL, 0, es);
    assert [] + log == log && [] + PacketsOf(Taken(log)) == PacketsOf(Taken(log));
  }

  // In every run the balance stays within the bucket, and any consecutive charges cost at most its depth
  // plus the time between the first and the last of them.
  lemma RunConforms(u: Setup, es: seq<Event>, i: nat, j: nat)
    requires Timely(0, es)
    ensures var s := Play(u, INITIAL, es);
            var charges := Charges(u.kfifo, s.tried);
            && 0 <= s.bucket.tokens <= u.depth
            && (i <= j < |charges| ==>
                  TotalCost(charges[i..j + 1]) <= u.depth + charges[j].time - charges[i].time)
  {
    RunSound(u, es);
    var charges := Charges(u.kfifo, Play(u, INITIAL, es).tried);
    LegalKeepsInv(u.depth, BLANK, charges);
    if i <= j < |charges| {
      Conformance(u.depth, BLANK, charges, i, j);
    }
  }

  // Charging only the packets that the kfifo took would have been covered too.
  lemma {:induction false} TakenIsSublog(u: Setup, log: seq<Try>)
    requires Legal(u.depth, BLANK, Charges(u.kfifo, log))
    ensures Sublog(u.depth, BLANK, Charges(u.kfifo, log), Charges(u.kfifo, Taken(log)))
  {
    var c := u.kfifo;
    if log != [] {
      var before, t := log[..|log|-1], log[|log|-1];
      var ch := Charge(t.time, Time(c, t.p));
      assert Charges(c, log) == Charges(c, before) + [ch];
      LegalConcat(u.depth, BLANK, Charges(c, before), [ch]);
      OneLegal(u.depth, After(u.depth, BLANK, Charges(c, before)), ch);
      TakenIsSublog(u, before);
      SublogCharge(u.depth, BLANK, Charges(c, before), Charges(c, Taken(before)), ch);
      assert Charges(c, Taken(before) + [t]) == Charges(c, Taken(before)) + [ch];
      assert Taken(before) + [] == Taken(before);
    }
  }

  // What a run of the shaper does to the kfifo is a run of the kfifo: one event for every packet offered to
  // it and one for every poll.
  lemma OneStep(c: Config, s: Run, e: Pacing.Event)
    requires |s.fifo.win| > 0
    ensures Exec(c, s, [e]) == Step(c, s, e)
  {
    assert [e][1..] == [];
  }

  // What an event does to the kfifo: a poll, or an offer of each packet up to the first that it refuses.
  function Touches(u: Setup, s: System, e: Event): seq<Pacing.Event>
    requires |s.flow.fifo.win| > 0
  {
    if s.halted then [] else if e.Dequeued? then [Polling]
    else var ask := Asked(u, s, e); Offers(ask[..Taking(u.kfifo, s.flow.fifo, ask)])
  }

  function TouchesOf(u: Setup, s: System, es: seq<Event>): seq<Pacing.Event>
    requires |s.flow.fifo.win| > 0
    decreases |es|
  {
    if es == [] then [] else Touches(u, s, es[0]) + TouchesOf(u, Next(u, s, es[0]), es[1..])
  }

  lemma NextIsRun(u: Setup, s: System, e: Event)
    requires |s.flow.fifo.win| > 0
    ensures Next(u, s, e).flow == Exec(u.kfifo, s.flow, Touches(u, s, e))
  {
    if !s.halted && e.Dequeued? {
      OneStep(u.kfifo, s.flow, Polling);
    } else if !s.halted && (e.Enqueued? ==> s.inner != [] || !LoopEntered(u, s, e.now)) {
      var fate := NextIsTold(u, s, e);
    }
  }

  lemma {:induction false} PlayIsRun(u: Setup, s: System, es: seq<Event>)
    requires |s.flow.fifo.win| > 0
    ensures Play(u, s, es).flow == Exec(u.kfifo, s.flow, TouchesOf(u, s, es))
    decreases |es|
  {
    if es != [] {
      NextIsRun(u, s, es[0]);
      PlayIsRun(u, Next(u, s, es[0]), es[1..]);
      ExecConcat(u.kfifo, s.flow, Touches(u, s, es[0]), TouchesOf(u, Next(u, s, es[0]), es[1..]));
    }
  }

  // Two polls for each packet in the kfifo and one more empty it: all that it took has then been released and paid
  // for, and nothing else changes.
  lemma PollsDrain(u: Setup, es: seq<Event>, polls: seq<Event>)
    requires u.kfifo.slots >= 2 && !Play(u, INITIAL, es).halted
    requires OnlyDequeues(polls) && |polls| == 2 * |Queued(Play(u, INITIAL, es).flow.fifo.win)| + 1
    ensures var s := Play(u, INITIAL, es);
            var paid := Cost(u.kfifo, s.flow.accepted);
            Play(u, INITIAL, es + polls) == s.(flow := Run(EMPTY, s.flow.accepted, s.flow.accepted, paid))
  {
    var fs := TouchesOf(u, INITIAL, es);
    PlayIsRun(u, INITIAL, es);
    PlayConcat(u, INITIAL, es, polls);
    DequeuesPoll(u, Play(u, INITIAL, es), polls);
    SettledDrain(u.kfifo, fs, Polls(|polls|));
    ExecConcat(u.kfifo, START, fs, Polls(|polls|));
  }

  ghost predicate OnlyDequeues(es: seq<Event>) {
    forall i :: 0 <= i < |es| ==> es[i] == Dequeued
  }

  function Polls(n: nat): (r: seq<Pacing.Event>)
    ensures |r| == n && OnlyPolls(r)
  {
    seq(n, i => Polling)
  }

  lemma {:induction false} DequeuesPoll(u: Setup, s: System, es: seq<Event>)
    requires |s.flow.fifo.win| > 0 && !s.halted && OnlyDequeues(es)
    ensures Play(u, s, es) == s.(flow := Exec(u.kfifo, s.flow, Polls(|es|)))
    decreases |es|
  {
    if es != [] {
      DequeuesPoll(u, Dequeue(u, s), es[1..]);
      assert Polls(|es|)[1..] == Polls(|es| - 1);
    }
  }

  // So in every run the packets released are, in order, those the bucket let into the kfifo; what has been
  // released costs no more than what has been charged, and it runs ahead of the delay requested by no
  // more than one rounding of the largest admitted packet up to whole slots.
  lemma RunPaces(u: Setup, es: seq<Event>)
    requires u.kfifo.slots >= 2 && Timely(0, es)
    ensures var s := Play(u, INITIAL, es);
            && s.flow.accepted == s.flow.released + Queued(s.flow.fifo.win)
            && Cost(u.kfifo, s.flow.released) <= TotalCost(Charges(u.kfifo, s.tried))
            && 0 <= Cost(u.kfifo, s.flow.released) - s.flow.delay <= Debt(u.kfifo, s.flow.accepted)
  {
    var s := Play(u, INITIAL, es);
    var fs := TouchesOf(u, INITIAL, es);
    PlayIsRun(u, INITIAL, es);
    FifoOrder(u.kfifo, fs);
    PacingBound(u.kfifo, fs);
    RunSound(u, es);
    TakenIsSublog(u, s.tried);
    CostConcat(u.kfifo, s.flow.released, Queued(s.flow.fifo.win));
    CostOfTries(u.kfifo, Taken(s.tried));
  }

  lemma {:induction false} CostOfTries(c: Config, log: seq<Try>)
    ensures Cost(c, PacketsOf(log)) == TotalCost(Charges(c, log))
  {
    if log != [] {
      assert PacketsOf(log)[1..] == PacketsOf(log[1..]) && Charges(c, log)[1..] == Charges(c, log[1..]);
      CostOfTries(c, log[1..]);
    }
  }

  // In every run the packets released are the first that the kfifo took, and together they cost no more than the
  // time that has passed.
  lemma ReleasedTotal(u: Setup, es: seq<Event>)
    requires u.kfifo.slots >= 2 && Timely(0, es)
    ensures var s := Play(u, INITIAL, es);
            && s.flow.released <= PacketsOf(Taken(s.tried))
            && Cost(u.kfifo, s.flow.released) <= LastClock(0, es)
  {
    RunPaces(u, es);
    RunSound(u, es);
    var s := Play(u, INITIAL, es);
    SpentFrom(u.depth, BLANK, Charges(u.kfifo, s.tried));
    LegalKeepsInv(u.depth, BLANK, Charges(u.kfifo, s.tried));
  }

  // The packets that the kfifo took conform, whatever was charged besides.
  lemma {:induction false} TakenRate(u: Setup, log: seq<Try>, i: nat, j: nat)
    requires Legal(u.depth, BLANK, Charges(u.kfifo, log)) && i <= j < |Taken(log)|
    ensures Cost(u.kfifo, PacketsOf(Taken(log)[i..j + 1])) <= u.depth + Taken(log)[j].time - Taken(log)[i].time
  {
    var taken := Taken(log);
    TakenIsSublog(u, log);
    assert Charges(u.kfifo, taken)[i..j + 1] == Charges(u.kfifo, taken[i..j + 1]);
    CostOfTries(u.kfifo, taken[i..j + 1]);
    Conformance(u.depth, BLANK, Charges(u.kfifo, taken), i, j);
  }

  // The rate that comes out: in every run, any consecutive packets released, the first admitted at time a and
  // the last at time b, cost at most the depth of the bucket plus b - a.
  lemma ReleasedRate(u: Setup, es: seq<Event>, i: nat, j: nat)
    requires u.kfifo.slots >= 2 && Timely(0, es)
    requires i <= j < |Play(u, INITIAL, es).flow.released|
    ensures |Play(u, INITIAL, es).flow.released| <= |Taken(Play(u, INITIAL, es).tried)|
    ensures var s := Play(u, INITIAL, es);
            Cost(u.kfifo, s.flow.released[i..j + 1])
            <= u.depth + Taken(s.tried)[j].time - Taken(s.tried)[i].time
  {
    RunSound(u, es);
    ReleasedTotal(u, es);
    ReleasedSlice(Play(u, INITIAL, es).flow.released, Taken(Play(u, INITIAL, es).tried), i, j);
    TakenRate(u, Play(u, INITIAL, es).tried, i, j);
  }

  lemma ReleasedSlice(released: seq<Packet>, taken: seq<Try>, i: nat, j: nat)
    requires released <= PacketsOf(taken) && i <= j < |released|
    ensures released[i..j + 1] == PacketsOf(taken[i..j + 1])
  {
  }

  /* ---------- losses ---------- */

  // How many waiting packets an event is to move.
  function Reach(u: Setup, s: System, e: Event): (k: nat)
    ensures k <= |s.inner|
  {
    if e.Enqueued? then Affordable(u.kfifo, s.inner, Refill(u.depth, s.bucket, e.now)) else 0
  }

  // The packets that an event offers to the kfifo as long as it takes them, from the state before the event.
  function Asked(u: Setup, s: System, e: Event): seq<Packet> {
    if s.halted || e.Dequeued? || (e.Enqueued? && s.inner == [] && LoopEntered(u, s, e.now)) then []
    else Behind(u, s, Reach(u, s, e), e.p, Refill(u.depth, s.bucket, e.now))
  }

  // Every event but a poll is told from the state before it.
  lemma NextIsTold(u: Setup, s: System, e: Event) returns (fate: Fate)
    requires |s.flow.fifo.win| > 0 && !s.halted && !e.Dequeued?
    requires e.Enqueued? ==> s.inner != [] || !LoopEntered(u, s, e.now)
    ensures Told(u, s, Asked(u, s, e), Reach(u, s, e), e.p, e.now, e.room, Next(u, s, e), fate)
  {
    match e
    case Segmented(p, now, room) =>
      SegmentIsTold(u, s, p, now, room);
      fate := Segment(u, s, p, now, room).1;
    case Enqueued(p, now, room) =>
      ProceedTold(u, s, p, now, room);
      fate := Enqueue(u, s, p, now, room).fate;
  }

  // An event loses no packet exactly when the kfifo takes all that the event offers to it.
  lemma NothingLostIff(u: Setup, s: System, e: Event)
    requires |s.flow.fifo.win| > 0
    ensures s.lost <= Next(u, s, e).lost
    ensures Next(u, s, e).lost == s.lost <==> Takes(u.kfifo, s.flow.fifo, Asked(u, s, e))
  {
    if !s.halted && !e.Dequeued? && (e.Enqueued? ==> s.inner != [] || !LoopEntered(u, s, e.now)) {
      var fate := NextIsTold(u, s, e);
    }
  }

  ghost predicate AllTaken(u: Setup, s: System, es: seq<Event>)
    requires |s.flow.fifo.win| > 0
    decreases |es|
  {
    es == [] || (Takes(u.kfifo, s.flow.fifo, Asked(u, s, es[0])) && AllTaken(u, Next(u, s, es[0]), es[1..]))
  }

  // And so does a run.
  lemma {:induction false} RunLosesNothingIff(u: Setup, s: System, es: seq<Event>)
    requires |s.flow.fifo.win| > 0
    ensures s.lost <= Play(u, s, es).lost
    ensures Play(u, s, es).lost == s.lost <==> AllTaken(u, s, es)
    decreases |es|
  {
    if es != [] {
      NothingLostIff(u, s, es[0]);
      RunLosesNothingIff(u, Next(u, s, es[0]), es[1..]);
    }
  }

  // The packets handed in by a run, up to where it halts.
  function Handed(es: seq<Event>): multiset<Packet>
    decreases |es|
  {
    if es == [] then multiset{}
    else (if es[0].Dequeued? then multiset{} else multiset{es[0].p}) + Handed(es[1..])
  }

  // Every packet handed in is waiting, accepted, freed or lost, and only one of these.
  lemma {:induction false} RunLedger(u: Setup, s: System, es: seq<Event>)
    requires |s.flow.fifo.win| > 0 && !Play(u, s, es).halted
    ensures Ledger(Play(u, s, es)) == Ledger(s) + Handed(es)
    decreases |es|
  {
    if es != [] {
      var s' := Next(u, s, es[0]);
      if s.halted {
        StaysHalted(u, s, es);
      } else if s'.halted {
        StaysHalted(u, s', es[1..]);
      }
      NextLedger(u, s, es[0]);
      RunLedger(u, s', es[1..]);
    }
  }

  lemma NextLedger(u: Setup, s: System, e: Event)
    requires |s.flow.fifo.win| > 0 && !s.halted && !Next(u, s, e).halted
    ensures Ledger(Next(u, s, e)) == Ledger(s) + if e.Dequeued? then multiset{} else multiset{e.p}
  {
    if e.Dequeued? {
      PollLedger(u, s);
    } else {
      var fate := NextIsTold(u, s, e);
      ToldLedger(u, s, Reach(u, s, e), e.p, Refill(u.depth, s.bucket, e.now), e.now, e.room, Next(u, s, e), fate);
    }
  }

  lemma PollLedger(u: Setup, s: System)
    requires |s.flow.fifo.win| > 0
    ensures Ledger(Dequeue(u, s)) == Ledger(s)
  {
    PollAccepts(u.kfifo, s.flow);
  }

  lemma {:induction false} StaysHalted(u: Setup, s: System, es: seq<Event>)
    requires |s.flow.fifo.win| > 0 && s.halted
    ensures Play(u, s, es) == s
    decreases |es|
  {
    if es != [] {
      StaysHalted(u, s, es[1..]);
    }
  }

  ghost predicate NeverEmpty(u: Setup, s: System, es: seq<Event>)
    requires |s.flow.fifo.win| > 0
    decreases |es|
  {
    es == [] || ((es[0].Enqueued? ==> s.inner != []) && NeverEmpty(u, Next(u, s, es[0]), es[1..]))
  }

  // A run goes on to its end exactly when every call of tsf_enqueue finds a packet waiting.
  lemma {:induction false} RunHaltsIff(u: Setup, s: System, clock: int, es: seq<Event>)
    requires SysInv(u, s) && s.bucket.tc <= clock && Timely(clock, es) && !s.halted
    ensures !Play(u, s, es).halted <==> NeverEmpty(u, s, es)
    decreases |es|
  {
    if es != [] {
      var e, s' := es[0], Next(u, s, es[0]);
      var log := NextCharges(u, s, e, clock);
      NextHaltsIff(u, s, e);
      if s'.halted {
        StaysHalted(u, s', es[1..]);
      } else {
        RunHaltsIff(u, s', Clock(clock, e), es[1..]);
      }
    }
  }

  lemma NextHaltsIff(u: Setup, s: System, e: Event)
    requires SysInv(u, s) && !s.halted && (e.Dequeued? || s.bucket.tc <= e.now)
    ensures Next(u, s, e).halted <==> e.Enqueued? && s.inner == []
  {
    if e.Enqueued? {
      EnqueueHaltsIff(u, s, e.p, e.now, e.room);
      if s.inner != [] {
        var fate := NextIsTold(u, s, e);
      }
    }
  }

  // Losses do happen: with one packet in the read slot the kfifo refuses the one that has waited, which is
  // lost and the new one with it.
  const TIGHT := Setup(Config(2, 100, n => n), 10)
  const A := Packet(0, 1)
  const B := Packet(1, 1)
  const C := Packet(2, 1)
  const LOSING := [Segmented(A, 0, true), Segmented(B, 10, true), Enqueued(C, 10, true)]

  const OCCUPIED := Run(Fifo([Slot([B], 1, 1, UNIT_TIME - 1, 1)], 1), [B], [], 0)
  const FIRST := INITIAL.(inner := [A])
  const SECOND := System(Bucket(9, 10), [A], OCCUPIED, [Try(B, 10, true)], [], [], false)
  const THIRD := SECOND.(inner := [], lost := [A, C])

  lemma LossExample()
    ensures Timely(0, LOSING) && Play(TIGHT, INITIAL, LOSING) == THIRD
    ensures THIRD.lost == [A, C] && THIRD.freed == [] && !THIRD.halted
  {
    LossWaits();
    LossAdmits();
    LossLoses();
    assert LOSING[1..] == [LOSING[1], LOSING[2]] && LOSING[1..][1..] == [LOSING[2]] && [LOSING[2]][1..] == [];
    assert Play(TIGHT, SECOND, [LOSING[2]]) == THIRD;
    assert Play(TIGHT, FIRST, LOSING[1..]) == THIRD;
    assert Timely(10, [LOSING[2]]) && Timely(0, LOSING[1..]);
  }

  lemma LossWaits()
    ensures Next(TIGHT, INITIAL, LOSING[0]) == FIRST
  {
    assert [] + [A] == [A];
  }

  lemma LossAdmits()
    ensures Next(TIGHT, FIRST, LOSING[1]) == SECOND
  {
    assert [] + [B] == [B] && EMPTY.win[0 := OCCUPIED.fifo.win[0]] == OCCUPIED.fifo.win;
    ShareStep(TIGHT.kfifo, START, B, OCCUPIED);
  }

  lemma LossLoses()
    ensures Next(TIGHT, SECOND, LOSING[2]) == THIRD
  {
    assert [A][1..] == [] && [] + [A] == [A] && [A] + [C] == [A, C];
    assert Offer(TIGHT.kfifo, OCCUPIED.fifo, A) == None;
    assert Head(TIGHT, SECOND, 9, 10) == (SECOND.(inner := [], lost := [A]), false);
  }
}
