/**
 The user-space timing wheel seen from its current position: slot `d` is the one reached after `d` ticks.
 The step functions are the specification of class `Ring`; the lemmas hold for every run of them.
 */
module TimingWheel {
  import opened Totals
  const BLOCK: nat := 1000
  const QLEN: nat := 80

  datatype Packet = Packet(arrival: real, len: nat)

  // `lead` is how far the insertion pointer is ahead of the current position, `total` the byte counter.
  datatype Wheel = Wheel(slots: seq<seq<Packet>>, lead: nat, total: int)

  const EMPTY := Wheel(Blanks(BLOCK), 0, 0)

  function Blanks(n: nat): (r: seq<seq<Packet>>)
    ensures |r| == n && forall d :: 0 <= d < n ==> r[d] == []
  {
    seq(n, d => [])
  }

  function Length(p: Packet): nat {
    p.len
  }

  function Bytes(ps: seq<Packet>): nat {
    Total(Length, ps)
  }

  function Concat(slots: seq<seq<Packet>>): seq<Packet> {
    if slots == [] then [] else slots[0] + Concat(slots[1..])
  }

  // The packets in the wheel, in the order in which their slots come up.
  function Held(w: Wheel): seq<Packet> {
    Concat(w.slots)
  }

  ghost predicate Shape(w: Wheel) {
    |w.slots| == BLOCK && w.lead < BLOCK
  }

  // The insertion pointer is at the current position or at a slot that holds packets.
  ghost predicate AtHeld(w: Wheel) {
    Shape(w) && (w.lead == 0 || w.slots[w.lead] != [])
  }

  // All packets are in the slots up to the insertion pointer, and the counter is their size.
  ghost predicate Inv(w: Wheel) {
    && AtHeld(w)
    && (forall d :: w.lead < d < BLOCK ==> w.slots[d] == [])
    && w.total == Bytes(Held(w))
  }

  /* ---------- operations ---------- */

  // The slot in which a packet ends when `bytes` bytes, its own included, are to be sent at `rate` KB/s.
  function Target(rate: real, bytes: int): int
    requires rate > 0.0
  {
    (bytes as real / (rate * 1024.0) * BLOCK as real).Floor
  }

  // A packet for slot `target` joins the slot of the insertion pointer, or moves the pointer on and
  // starts the slot it arrives at.
  function Enter(w: Wheel, p: Packet, target: int): (w': Wheel)
    requires Shape(w) && 0 <= target <= BLOCK
    ensures Shape(w')
  {
    if target <= w.lead then
      Wheel(w.slots[w.lead := w.slots[w.lead] + [p]], w.lead, w.total + p.len)
    else
      var d := if target < BLOCK then target else 0;
      Wheel(w.slots[d := [p]], d, w.total + p.len)
  }

  // Every packet of the current slot leaves.
  function DeRing(w: Wheel): (r: (seq<Packet>, Wheel))
    requires Shape(w)
    ensures Shape(r.1)
  {
    (w.slots[0], Wheel(w.slots[0 := []], w.lead, w.total - Bytes(w.slots[0])))
  }

  // The position moves on by one slot, and the insertion pointer with it when it would be overtaken.
  function StatusUpdate(w: Wheel): (w': Wheel)
    requires Shape(w)
    ensures Shape(w')
  {
    Wheel(w.slots[1..] + [[]], if w.lead == 0 then 0 else w.lead - 1, w.total)
  }

  /* ---------- sums over slots ---------- */

  lemma {:induction false} ConcatConcat(a: seq<seq<Packet>>, b: seq<seq<Packet>>)
    ensures Concat(a + b) == Concat(a) + Concat(b)
  {
    if a == [] {
      assert a + b == b;
    } else {
      assert (a + b)[1..] == a[1..] + b;
      ConcatConcat(a[1..], b);
    }
  }

  lemma {:induction false} ConcatEmpty(slots: seq<seq<Packet>>)
    ensures Concat(slots) == [] <==> forall d :: 0 <= d < |slots| ==> slots[d] == []
  {
    if slots != [] {
      ConcatEmpty(slots[1..]);
      assert forall d :: 1 <= d < |slots| ==> slots[d] == slots[1..][d - 1];
    }
  }

  lemma ConcatOne(ps: seq<Packet>)
    ensures Concat([ps]) == ps
  {
    assert [ps][1..] == [];
  }

  // Slot `d` on its own, with what comes before and after it.
  lemma {:induction false} ConcatAt(slots: seq<seq<Packet>>, d: nat)
    requires d < |slots|
    ensures Concat(slots) == Concat(slots[..d]) + slots[d] + Concat(slots[d + 1..])
    ensures Concat(slots[..d + 1]) == Concat(slots[..d]) + slots[d]
  {
    assert slots == slots[..d + 1] + slots[d + 1..] && slots[..d + 1] == slots[..d] + [slots[d]];
    ConcatConcat(slots[..d + 1], slots[d + 1..]);
    ConcatConcat(slots[..d], [slots[d]]);
    ConcatOne(slots[d]);
  }

  /* ---------- conservation ---------- */

  // Putting `ps` into slot `d` when every later slot is empty.
  lemma SetLast(slots: seq<seq<Packet>>, d: nat, ps: seq<Packet>)
    requires d < |slots| && forall e :: d < e < |slots| ==> slots[e] == []
    ensures Concat(slots[d := ps]) == Concat(slots[..d]) + ps
    ensures Concat(slots) == Concat(slots[..d]) + slots[d]
  {
    ConcatAt(slots, d);
    ConcatAt(slots[d := ps], d);
    assert slots[d := ps][..d] == slots[..d] && slots[d := ps][d + 1..] == slots[d + 1..];
    ConcatEmpty(slots[d + 1..]);
  }

  // Below the last slot of the wheel every admission appends one packet and keeps the invariant.
  lemma EnterKeeps(w: Wheel, p: Packet, target: int)
    requires Inv(w) && 0 <= target < BLOCK
    ensures Inv(Enter(w, p, target)) && Held(Enter(w, p, target)) == Held(w) + [p]
  {
    TotalConcat(Length, Held(w), [p]);
    assert Bytes([p]) == p.len;
    if target <= w.lead {
      SetLast(w.slots, w.lead, w.slots[w.lead] + [p]);
    } else {
      SetLast(w.slots, target, [p]);
    }
    assert Held(Enter(w, p, target)) == Held(w) + [p];
  }

  // A target of exactly one round wraps onto the current slot.  Over all admissions the code lets through,
  // the wheel stays in order and keeps what it holds exactly when that does not happen or it was empty;
  // and the packet lands no earlier than its target exactly when that does not happen.
  lemma EnterSafeIff(w: Wheel, p: Packet, target: int)
    requires Inv(w) && 0 <= target <= BLOCK
    ensures (Inv(Enter(w, p, target)) && Held(Enter(w, p, target)) == Held(w) + [p])
            <==> target < BLOCK || Held(w) == []
    ensures target <= Enter(w, p, target).lead <==> target < BLOCK
  {
    if target < BLOCK {
      EnterKeeps(w, p, target);
    } else {
      WrapAround(w, p);
    }
  }

  lemma WrapAround(w: Wheel, p: Packet)
    requires Inv(w)
    ensures (Inv(Enter(w, p, BLOCK)) && Held(Enter(w, p, BLOCK)) == Held(w) + [p]) <==> Held(w) == []
  {
    var w', rest := Enter(w, p, BLOCK), Concat(w.slots[1..]);
    WrapHeld(w, p);
    TotalConcat(Length, [p], rest);
    ConcatEmpty(w.slots[1..]);
    if rest != [] {
      var d :| 0 <= d < BLOCK - 1 && w.slots[1..][d] != [];
      assert w'.slots[d + 1] != [] && w'.lead < d + 1;
    } else if Held(w) != [] {
      assert |Held(w')| < |Held(w) + [p]|;
    } else {
      assert forall d :: 0 < d < BLOCK ==> w'.slots[d] == w.slots[1..][d - 1];
    }
  }

  lemma WrapHeld(w: Wheel, p: Packet)
    requires Shape(w)
    ensures Held(w) == w.slots[0] + Concat(w.slots[1..])
    ensures var w' := Enter(w, p, BLOCK);
            && w' == Wheel(w.slots[0 := [p]], 0, w.total + p.len)
            && Held(w') == [p] + Concat(w.slots[1..])
  {
    assert w.slots[0 := [p]][1..] == w.slots[1..];
  }

  // A tick releases the current slot, which is the front of what is held, and nothing else.
  lemma TickKeeps(w: Wheel)
    requires Inv(w)
    ensures var (out, w1) := DeRing(w);
            var w2 := StatusUpdate(w1);
            Inv(w2) && Held(w) == out + Held(w2)
  {
    var (out, w1) := DeRing(w);
    var w2 := StatusUpdate(w1);
    ConcatAt(w.slots, 0);
    assert w1.slots[1..] == w.slots[1..];
    ConcatConcat(w.slots[1..], [[]]);
    ConcatOne([]);
    assert Held(w2) == Concat(w.slots[1..]);
    TotalConcat(Length, out, Held(w2));
  }

  /* ---------- whole runs ---------- */

  datatype Event = Entering(p: Packet) | Ticking

  // `admitted` and `released` are the history of the wheel.
  datatype Run = Run(wheel: Wheel, admitted: seq<Packet>, released: seq<Packet>)

  const START := Run(EMPTY, [], [])

  function Tick(w: Wheel): (w': Wheel)
    requires Shape(w)
    ensures Shape(w')
  {
    StatusUpdate(DeRing(w).1)
  }

  // `aim` gives the slot in which a number of bytes ends.  The results hold for any such function; that of
  // the code is this one.
  function Aim(rate: real): int -> int
    requires rate > 0.0
  {
    bytes => Target(rate, bytes)
  }

  // An admission is aimed by the bytes held, its own included.
  function TargetIn(aim: int -> int, w: Wheel, p: Packet): int {
    aim(p.len + w.total)
  }

  // What in_ring lets through.
  ghost predicate Allowed(aim: int -> int, s: Run, e: Event) {
    e.Entering? ==> 0 <= TargetIn(aim, s.wheel, e.p) <= BLOCK
  }

  // It does not wrap onto a wheel that holds packets.
  ghost predicate Safe(aim: int -> int, s: Run, e: Event) {
    e.Entering? ==> TargetIn(aim, s.wheel, e.p) < BLOCK || Held(s.wheel) == []
  }

  function Step(aim: int -> int, s: Run, e: Event): (s': Run)
    requires Shape(s.wheel)
    requires Allowed(aim, s, e)
    ensures Shape(s'.wheel)
  {
    match e
    case Entering(p) => Run(Enter(s.wheel, p, TargetIn(aim, s.wheel, p)), s.admitted + [p], s.released)
    case Ticking => Run(Tick(s.wheel), s.admitted, s.released + s.wheel.slots[0])
  }

  ghost predicate Runnable(aim: int -> int, s: Run, es: seq<Event>)
    requires Shape(s.wheel)
    decreases |es|
  {
    es == [] || (Allowed(aim, s, es[0]) && Runnable(aim, Step(aim, s, es[0]), es[1..]))
  }

  function Play(aim: int -> int, s: Run, es: seq<Event>): (s': Run)
    requires Shape(s.wheel) && Runnable(aim, s, es)
    ensures Shape(s'.wheel)
    decreases |es|
  {
    if es == [] then s else Play(aim, Step(aim, s, es[0]), es[1..])
  }

  function Ticks(es: seq<Event>): nat {
    if es == [] then 0 else (if es[0] == Ticking then 1 else 0) + Ticks(es[1..])
  }

  ghost predicate RunInv(s: Run) {
    Inv(s.wheel) && s.admitted == s.released + Held(s.wheel)
  }

  // A step keeps everything in order exactly when it is safe.
  lemma StepKeepsIff(aim: int -> int, s: Run, e: Event)
    requires RunInv(s) && Allowed(aim, s, e)
    ensures RunInv(Step(aim, s, e)) <==> Safe(aim, s, e)
  {
    match e
    case Entering(p) =>
      var w' := Enter(s.wheel, p, TargetIn(aim, s.wheel, p));
      EnterSafeIff(s.wheel, p, TargetIn(aim, s.wheel, p));
      SameBehind(s.released, Held(s.wheel) + [p], Held(w'));
      assert s.admitted + [p] == s.released + (Held(s.wheel) + [p]);
    case Ticking =>
      TickKeeps(s.wheel);
  }

  lemma SameBehind(a: seq<Packet>, b: seq<Packet>, c: seq<Packet>)
    ensures a + b == a + c <==> b == c
  {
    if a + b == a + c {
      assert b == (a + b)[|a|..] && c == (a + c)[|a|..];
    }
  }

  ghost predicate SafeRun(aim: int -> int, s: Run, es: seq<Event>)
    requires Shape(s.wheel) && Runnable(aim, s, es)
    decreases |es|
  {
    es == [] || (Safe(aim, s, es[0]) && SafeRun(aim, Step(aim, s, es[0]), es[1..]))
  }

  lemma {:induction false} PlayKeeps(aim: int -> int, s: Run, es: seq<Event>)
    requires RunInv(s) && Runnable(aim, s, es) && SafeRun(aim, s, es)
    ensures RunInv(Play(aim, s, es))
    decreases |es|
  {
    if es != [] {
      StepKeepsIff(aim, s, es[0]);
      PlayKeeps(aim, Step(aim, s, es[0]), es[1..]);
    }
  }

  lemma EmptyInv()
    ensures RunInv(START)
  {
    ConcatEmpty(EMPTY.slots);
  }

  // Every admitted packet is released exactly once, in admission order, and the byte counter is the size
  // of what is still held.
  lemma Conservation(aim: int -> int, es: seq<Event>)
    requires Runnable(aim, START, es) && SafeRun(aim, START, es)
    ensures var s := Play(aim, START, es);
            s.admitted == s.released + Held(s.wheel) && s.wheel.total == Bytes(Held(s.wheel))
  {
    EmptyInv();
    PlayKeeps(aim, START, es);
  }

  ghost predicate AlwaysInv(aim: int -> int, s: Run, es: seq<Event>)
    requires Shape(s.wheel) && Runnable(aim, s, es)
    decreases |es|
  {
    RunInv(s) && (es == [] || AlwaysInv(aim, Step(aim, s, es[0]), es[1..]))
  }

  // Over all runs that in_ring lets through, that holds at every moment exactly when no admission wraps onto a
  // wheel that holds packets.
  lemma ConservationIff(aim: int -> int, es: seq<Event>)
    requires Runnable(aim, START, es)
    ensures AlwaysInv(aim, START, es) <==> SafeRun(aim, START, es)
  {
    EmptyInv();
    AlwaysIff(aim, START, es);
  }

  lemma {:induction false} AlwaysIff(aim: int -> int, s: Run, es: seq<Event>)
    requires RunInv(s) && Runnable(aim, s, es)
    ensures AlwaysInv(aim, s, es) <==> SafeRun(aim, s, es)
    decreases |es|
  {
    if es != [] {
      StepKeepsIff(aim, s, es[0]);
      if Safe(aim, s, es[0]) {
        AlwaysIff(aim, Step(aim, s, es[0]), es[1..]);
      }
    }
  }

  lemma {:induction false} PlayConcat(aim: int -> int, s: Run, es: seq<Event>, fs: seq<Event>)
    requires Shape(s.wheel) && Runnable(aim, s, es) && Runnable(aim, Play(aim, s, es), fs)
    ensures Runnable(aim, s, es + fs) && Play(aim, s, es + fs) == Play(aim, Play(aim, s, es), fs)
    decreases |es|
  {
    if es == [] {
      assert es + fs == fs;
    } else {
      assert (es + fs)[1..] == es[1..] + fs;
      PlayConcat(aim, Step(aim, s, es[0]), es[1..], fs);
    }
  }

  lemma {:induction false} SafeConcat(aim: int -> int, s: Run, es: seq<Event>, fs: seq<Event>)
    requires Shape(s.wheel) && Runnable(aim, s, es + fs) && SafeRun(aim, s, es + fs)
    ensures Runnable(aim, s, es) && SafeRun(aim, s, es)
    ensures Runnable(aim, Play(aim, s, es), fs) && SafeRun(aim, Play(aim, s, es), fs)
    ensures Play(aim, s, es + fs) == Play(aim, Play(aim, s, es), fs)
    decreases |es|
  {
    if es == [] {
      assert es + fs == fs;
    } else {
      assert (es + fs)[1..] == es[1..] + fs;
      SafeConcat(aim, Step(aim, s, es[0]), es[1..], fs);
    }
  }

  /* ---------- where the insertion pointer is ---------- */

  lemma StepAtHeld(aim: int -> int, s: Run, e: Event)
    requires AtHeld(s.wheel) && Allowed(aim, s, e)
    ensures AtHeld(Step(aim, s, e).wheel)
  {
    if e.Entering? {
      LastSlot(s.wheel, e.p, TargetIn(aim, s.wheel, e.p));
    }
  }

  // That holds over all runs that in_ring lets through, whether or not they keep the wheel in order.
  lemma {:induction false} PointerAtHeld(aim: int -> int, s: Run, es: seq<Event>)
    requires AtHeld(s.wheel) && Runnable(aim, s, es)
    ensures AtHeld(Play(aim, s, es).wheel)
    decreases |es|
  {
    if es != [] {
      StepAtHeld(aim, s, es[0]);
      PointerAtHeld(aim, Step(aim, s, es[0]), es[1..]);
    }
  }

  // The last slot that holds packets, if any does.
  function LastHeld(slots: seq<seq<Packet>>): (d: nat)
    ensures slots != [] ==> d < |slots| && (d == 0 || slots[d] != [])
    ensures forall e :: d < e < |slots| ==> slots[e] == []
  {
    if |slots| <= 1 then 0
    else if slots[|slots| - 1] != [] then |slots| - 1
    else LastHeld(slots[..|slots| - 1])
  }

  // So in a wheel in order the pointer is at the last slot that holds packets, and at the current one when none
  // does.
  lemma LeadIsLastHeld(w: Wheel)
    requires Inv(w)
    ensures w.lead == LastHeld(w.slots)
    ensures Held(w) == [] ==> w.lead == 0
  {
    ConcatEmpty(w.slots);
    var d := LastHeld(w.slots);
    assert w.slots[d] != [] || d == 0;
  }

  /* ---------- delay ---------- */

  // The `n`-th admitted packet is in slot `d`.
  ghost predicate Located(s: Run, n: nat, d: nat) {
    && d <= s.wheel.lead < |s.wheel.slots|
    && |Concat(s.wheel.slots[..d])| <= n - |s.released| < |Concat(s.wheel.slots[..d + 1])|
  }

  // The slot that the wheel gives a packet aimed at slot `target`: this one or that of the last packet held,
  // whichever is later.  One aimed a whole round ahead gets the current slot.
  function Due(w: Wheel, target: int): int {
    var last := LastHeld(w.slots);
    if target == BLOCK then 0 else if last <= target then target else last
  }

  // An admission goes to the end of the wheel, into that slot.
  lemma EnterLocates(aim: int -> int, s: Run, p: Packet)
    requires RunInv(s) && Allowed(aim, s, Entering(p)) && Safe(aim, s, Entering(p))
    ensures 0 <= Due(s.wheel, TargetIn(aim, s.wheel, p)) < BLOCK
    ensures var s' := Step(aim, s, Entering(p));
            && s'.admitted[|s.admitted|] == p && s'.wheel.lead == Due(s.wheel, TargetIn(aim, s.wheel, p))
            && Located(s', |s.admitted|, s'.wheel.lead)
  {
    StepKeepsIff(aim, s, Entering(p));
    var s' := Step(aim, s, Entering(p));
    ConcatAt(s'.wheel.slots, s'.wheel.lead);
    ConcatEmpty(s'.wheel.slots[s'.wheel.lead + 1..]);
    assert |s'.released| + |Held(s'.wheel)| == |s.admitted| + 1;
    assert |Concat(s'.wheel.slots[..s'.wheel.lead + 1])| == |Held(s'.wheel)|;
    LastSlot(s.wheel, p, TargetIn(aim, s.wheel, p));
    LeadIsLastHeld(s.wheel);
  }

  lemma LastSlot(w: Wheel, p: Packet, target: int)
    requires Shape(w) && 0 <= target <= BLOCK
    ensures var w' := Enter(w, p, target); |w'.slots[w'.lead]| > 0
  {
  }

  // Later admissions leave it where it is, a tick brings it one slot closer.
  lemma StepLocates(aim: int -> int, s: Run, e: Event, n: nat, d: nat)
    requires RunInv(s) && Allowed(aim, s, e) && Safe(aim, s, e) && Located(s, n, d)
    requires e == Ticking ==> d > 0
    ensures Located(Step(aim, s, e), n, if e == Ticking then d - 1 else d)
  {
    match e
    case Entering(p) =>
      ConcatAt(s.wheel.slots, d);
      assert Held(s.wheel) != [];
      EnterLeaves(s.wheel, p, TargetIn(aim, s.wheel, p), d);
    case Ticking =>
      TickShifts(s.wheel, d);
  }

  lemma EnterLeaves(w: Wheel, p: Packet, target: int, d: nat)
    requires Inv(w) && 0 <= target < BLOCK && d <= w.lead
    ensures var w' := Enter(w, p, target);
            && d <= w'.lead
            && Concat(w'.slots[..d]) == Concat(w.slots[..d])
            && |Concat(w'.slots[..d + 1])| >= |Concat(w.slots[..d + 1])|
  {
    var w' := Enter(w, p, target);
    assert w'.slots[..d] == w.slots[..d];
    ConcatAt(w.slots, d);
    ConcatAt(w'.slots, d);
  }

  lemma TickShifts(w: Wheel, d: nat)
    requires Shape(w) && 0 < d <= w.lead
    ensures Tick(w).lead == w.lead - 1
    ensures Concat(w.slots[..d]) == w.slots[0] + Concat(Tick(w).slots[..d - 1])
    ensures Concat(w.slots[..d + 1]) == w.slots[0] + Concat(Tick(w).slots[..d])
  {
    assert Tick(w).slots[..d - 1] == w.slots[..d][1..];
    assert Tick(w).slots[..d] == w.slots[..d + 1][1..];
  }

  // A packet in slot `d` is released by tick number `d + 1`, neither earlier nor later, whatever is admitted
  // in the meantime.
  lemma {:induction false} ReleasedOnTime(aim: int -> int, s: Run, es: seq<Event>, n: nat, d: nat)
    requires RunInv(s) && Runnable(aim, s, es) && SafeRun(aim, s, es) && Located(s, n, d)
    ensures |Play(aim, s, es).released| > n <==> Ticks(es) > d
    decreases |es|
  {
    if es != [] {
      var s1 := Step(aim, s, es[0]);
      StepKeepsIff(aim, s, es[0]);
      if es[0] == Ticking && d == 0 {
        ConcatAt(s.wheel.slots, 0);
        ReleasedGrows(aim, s1, es[1..]);
      } else {
        StepLocates(aim, s, es[0], n, d);
        ReleasedOnTime(aim, s1, es[1..], n, if es[0] == Ticking then d - 1 else d);
      }
    }
  }

  lemma {:induction false} ReleasedGrows(aim: int -> int, s: Run, es: seq<Event>)
    requires Shape(s.wheel) && Runnable(aim, s, es)
    ensures s.released <= Play(aim, s, es).released
    decreases |es|
  {
    if es != [] {
      ReleasedGrows(aim, Step(aim, s, es[0]), es[1..]);
    }
  }

  // After `ticks` ticks the `n`-th packet admitted, `p`, which was given slot `slot`, has been released or not.
  ghost predicate Delayed(released: seq<Packet>, n: nat, p: Packet, slot: int, ticks: nat) {
    (|released| > n <==> ticks > slot) && (ticks > slot ==> |released| > n && released[n] == p)
  }

  // The exact delay, from a state in order: a packet leaves with the tick behind its slot.
  lemma DelayFrom(aim: int -> int, s: Run, p: Packet, fs: seq<Event>)
    requires RunInv(s) && Allowed(aim, s, Entering(p)) && Safe(aim, s, Entering(p))
    requires var s1 := Step(aim, s, Entering(p)); Runnable(aim, s1, fs) && SafeRun(aim, s1, fs)
    ensures var s' := Play(aim, Step(aim, s, Entering(p)), fs);
            Delayed(s'.released, |s.admitted|, p, Due(s.wheel, TargetIn(aim, s.wheel, p)), Ticks(fs))
  {
    var s1 := Step(aim, s, Entering(p));
    StepKeepsIff(aim, s, Entering(p));
    EnterLocates(aim, s, p);
    ReleasedOnTime(aim, s1, fs, |s.admitted|, s1.wheel.lead);
    PlayKeeps(aim, s1, fs);
    AdmittedGrows(aim, s1, fs);
  }

  // So it leaves after the ticks its share of the rate takes and within one round.  On an empty wheel it leaves as
  // soon as they have passed; and when they are a whole round, with the very next tick.
  lemma DueBounds(w: Wheel, target: int)
    requires Inv(w) && 0 <= target <= BLOCK
    ensures target < BLOCK ==> target <= Due(w, target) < BLOCK
    ensures Held(w) == [] && target < BLOCK ==> Due(w, target) == target
    ensures target == BLOCK ==> Due(w, target) == 0
  {
    LeadIsLastHeld(w);
  }

  // The same delay over every run, for a packet admitted when the wheel holds the bytes `Held`.
  lemma DelayBounds(aim: int -> int, es: seq<Event>, p: Packet, fs: seq<Event>)
    requires Runnable(aim, START, es + [Entering(p)]) && SafeRun(aim, START, es + [Entering(p)])
    requires var s1 := Play(aim, START, es + [Entering(p)]);
             Runnable(aim, s1, fs) && SafeRun(aim, s1, fs)
    ensures Runnable(aim, START, es)
    ensures var s := Play(aim, START, es);
            var s' := Play(aim, Play(aim, START, es + [Entering(p)]), fs);
            Delayed(s'.released, |s.admitted|, p, Due(s.wheel, aim(p.len + Bytes(Held(s.wheel)))), Ticks(fs))
  {
    SplitLast(aim, START, es, Entering(p));
    EmptyInv();
    PlayKeeps(aim, START, es);
    DelayFrom(aim, Play(aim, START, es), p, fs);
  }

  lemma SplitLast(aim: int -> int, s: Run, es: seq<Event>, e: Event)
    requires Shape(s.wheel) && Runnable(aim, s, es + [e]) && SafeRun(aim, s, es + [e])
    ensures Runnable(aim, s, es) && SafeRun(aim, s, es)
    ensures Allowed(aim, Play(aim, s, es), e) && Safe(aim, Play(aim, s, es), e)
    ensures Play(aim, s, es + [e]) == Step(aim, Play(aim, s, es), e)
  {
    SafeConcat(aim, s, es, [e]);
    assert [e][1..] == [];
  }

  lemma {:induction false} AdmittedGrows(aim: int -> int, s: Run, es: seq<Event>)
    requires Shape(s.wheel) && Runnable(aim, s, es)
    ensures s.admitted <= Play(aim, s, es).admitted
    decreases |es|
  {
    if es != [] {
      AdmittedGrows(aim, Step(aim, s, es[0]), es[1..]);
    }
  }
}
