/**
 The kfifo time ring seen from the read pointer: the sequence of slots from `pread` forward to
 `pwrite`.  Every slot outside this window is fresh, so the window is the whole state of the queue.
 The operations below are the specification that the linked ring in module `Kfifo` refines; the
 lemmas are what that specification promises.
 */
module SlotWindow {
  import opened Totals
  import opened Wrappers

  // Nanoseconds that one slot stands for.
  const UNIT_TIME: nat := 1_000_000

  // The whole slots in a time, and what is left over.  The number is written out because division by a
  // literal is easier on the verifier.
  function Steps(t: nat): nat {
    t / 1_000_000
  }

  function Rest(t: nat): nat {
    t % 1_000_000
  }

  // The first whole number of slots that is longer than a time.
  function RoundUp(t: nat): nat {
    if t < UNIT_TIME then UNIT_TIME else UNIT_TIME + RoundUp(t - UNIT_TIME)
  }

  lemma {:induction false} RoundUpIs(t: nat)
    ensures RoundUp(t) == UNIT_TIME * (1 + Steps(t)) == t - Rest(t) + UNIT_TIME
  {
    if t >= UNIT_TIME {
      RoundUpIs(t - UNIT_TIME);
    }
  }

  lemma RoundUpGrows(t: nat, t': nat)
    requires t <= t'
    ensures t < RoundUp(t) <= RoundUp(t')
  {
    RoundUpIs(t);
    RoundUpIs(t');
  }

  datatype Packet = Packet(id: int, len: nat)

  // One slot: its packet list, the counters kept beside it, the time still free in it, and the delay
  // owed once it has been drained.
  datatype Slot = Slot(pkts: seq<Packet>, pkt: int, slen: int, left: nat, sleep: nat)

  // The slots from pread to pwrite, and the byte counter of the whole queue.
  datatype Fifo = Fifo(win: seq<Slot>, slen: int)

  // `l2t` stands for psched_l2t_ns: the transmission time of a packet of the given length.
  datatype Config = Config(slots: nat, capacity: nat, l2t: nat -> nat)

  // What one call of tsf_dequeue does: hand out a packet, or ask for a delay, or neither.
  datatype Polled = Polled(packet: Option<Packet>, delay: nat, fifo: Fifo)

  const FRESH := Slot([], 0, 0, UNIT_TIME, 0)
  const EMPTY := Fifo([FRESH], 0)

  /* ---------- totals ---------- */

  function Time(c: Config, p: Packet): nat {
    c.l2t(p.len)
  }

  function Length(p: Packet): nat {
    p.len
  }

  function Bytes(ps: seq<Packet>): nat {
    Total(Length, ps)
  }

  function Cost(c: Config, ps: seq<Packet>): nat {
    if ps == [] then 0 else Time(c, ps[0]) + Cost(c, ps[1..])
  }

  // The abstract FIFO: the packet lists concatenated from the read slot to the write slot.
  function Queued(win: seq<Slot>): seq<Packet> {
    if win == [] then [] else win[0].pkts + Queued(win[1..])
  }

  function Owed(win: seq<Slot>): nat {
    if win == [] then 0 else win[0].sleep + Owed(win[1..])
  }

  lemma {:induction false} CostConcat(c: Config, a: seq<Packet>, b: seq<Packet>)
    ensures Cost(c, a + b) == Cost(c, a) + Cost(c, b)
  {
    if a == [] {
      assert a + b == b;
    } else {
      assert (a + b)[1..] == a[1..] + b;
      CostConcat(c, a[1..], b);
    }
  }

  lemma One(c: Config, p: Packet)
    ensures Bytes([p]) == p.len && Cost(c, [p]) == Time(c, p)
  {
    TotalOne(Length, p);
    assert [p][1..] == [];
  }

  lemma {:induction false} WindowConcat(a: seq<Slot>, b: seq<Slot>)
    ensures Queued(a + b) == Queued(a) + Queued(b)
    ensures Owed(a + b) == Owed(a) + Owed(b)
  {
    if a == [] {
      assert a + b == b;
    } else {
      assert (a + b)[1..] == a[1..] + b;
      WindowConcat(a[1..], b);
    }
  }

  lemma OneSlot(s: Slot)
    ensures Queued([s]) == s.pkts && Owed([s]) == s.sleep
  {
    assert [s][1..] == [];
  }

  // Slots without packets contribute nothing to the FIFO, fresh slots owe nothing.
  lemma {:induction false} EmptySlots(win: seq<Slot>)
    requires forall i :: 0 <= i < |win| ==> win[i].pkts == []
    ensures Queued(win) == []
    ensures (forall i :: 0 <= i < |win| ==> win[i].sleep == 0) ==> Owed(win) == 0
  {
    if win != [] {
      EmptySlots(win[1..]);
    }
  }

  /* ---------- the invariant of every reachable state ---------- */

  // The counters of a slot are right, and what it owes plus what is left of its budget is a positive
  // whole number of slots.
  predicate SlotInv(s: Slot) {
    && s.pkt == |s.pkts| && s.slen == Bytes(s.pkts)
    && s.left <= UNIT_TIME && s.sleep + s.left > 0 && Rest(s.sleep + s.left) == 0
  }

  ghost predicate SlotsInv(c: Config, win: seq<Slot>) {
    && 1 <= |win| <= c.slots
    && (forall i :: 0 <= i < |win| ==> SlotInv(win[i]))
    // every slot but the one being read still holds all the packets that paid for its delay
    && Cost(c, win[0].pkts) <= win[0].sleep
    && (forall i :: 1 <= i < |win| ==> win[i].sleep == Cost(c, win[i].pkts))
    && (|win| > 1 ==> win[|win|-1].pkts != [])
  }

  ghost predicate Inv(c: Config, f: Fifo) {
    SlotsInv(c, f.win) && f.slen == Bytes(Queued(f.win)) <= c.capacity
  }

  // A slot behind the read slot that holds no packet is fresh: nothing owed, full budget.
  lemma EmptyMeansFresh(c: Config, win: seq<Slot>, i: nat)
    requires SlotsInv(c, win) && i < |win| && win[i].pkt == 0
    requires i == 0 ==> win[0].sleep == 0
    ensures win[i] == FRESH
  {
  }

  // The ring that kfifo_init builds is in a good state exactly when the byte counter, which it does not
  // touch, was zero.
  lemma InitialInv(c: Config, slen: int)
    requires c.slots >= 1
    ensures Inv(c, Fifo([FRESH], slen)) <==> slen == 0
  {
    OneSlot(FRESH);
  }

  /* ---------- operations ---------- */

  // The write slot after taking `p` within its budget.
  function Share(s: Slot, p: Packet, t: nat): Slot
    requires t <= s.left
  {
    Slot(s.pkts + [p], s.pkt + 1, s.slen + p.len, s.left - t, s.sleep + t)
  }

  // A fresh slot after taking a packet that started some slots earlier and ends in this one.
  function Open(p: Packet, t: nat): Slot {
    Slot([p], 1, p.len, UNIT_TIME - Rest(t), t)
  }

  // kfifo_enqueue: None is NET_XMIT_DROP.
  function Offer(c: Config, f: Fifo, p: Packet): (r: Option<Fifo>)
    requires |f.win| > 0
  {
    var t, n := Time(c, p), |f.win| - 1;
    var w := f.win[n];
    if p.len + f.slen > c.capacity then None
    else if n == 0 && w.pkt > 0 then None
    else if t <= w.left then Some(Fifo(f.win[n := Share(w, p, t)], f.slen + p.len))
    else if n + Steps(t) + 1 >= c.slots then None
    else Some(Fifo(f.win + seq(Steps(t), i => FRESH) + [Open(p, t)], f.slen + p.len))
  }

  // Places to advance from the read slot to the first slot holding a packet; |win| when there is none.
  function FirstBusy(win: seq<Slot>): (k: nat)
    ensures k <= |win|
    ensures forall i :: 0 <= i < k ==> win[i].pkt == 0
    ensures k < |win| ==> win[k].pkt != 0
  {
    if win == [] || win[0].pkt != 0 then 0 else 1 + FirstBusy(win[1..])
  }

  // kfifo_read_forward: the slots that remain once the read pointer has passed the empty ones in front
  // of the first packet; it never passes the write pointer.
  function Advance(win: seq<Slot>): (r: seq<Slot>)
    requires |win| > 0
    ensures |r| > 0
  {
    var k := FirstBusy(win);
    win[if k == |win| then |win| - 1 else k..]
  }

  lemma AdvanceAt(win: seq<Slot>, k: nat)
    requires k < |win|
    requires forall i :: 0 <= i < k ==> win[i].pkt == 0
    requires win[k].pkt != 0 || k == |win| - 1
    ensures Advance(win) == win[k..]
  {
    var j := FirstBusy(win);
    assert j < |win| ==> win[j].pkt != 0;
  }

  function Popped(s: Slot): Slot
    requires s.pkts != []
  {
    s.(pkts := s.pkts[1..], pkt := s.pkt - 1, slen := s.slen - s.pkts[0].len)
  }

  // The read slot hands out the head of its list.
  function Pop(f: Fifo): (Option<Packet>, Fifo)
    requires |f.win| > 0
  {
    var s := f.win[0];
    if s.pkts == [] then (None, f)
    else
      var p := s.pkts[0];
      (Some(p), Fifo(f.win[0 := Popped(s)], f.slen - p.len))
  }

  // kfifo_dequeue: the packet handed out and the queue left behind.
  function Take(f: Fifo): (r: (Option<Packet>, Fifo))
    requires |f.win| > 0
    ensures |r.1.win| > 0
  {
    if f.win[0].pkt != 0 then Pop(f)
    else if f.win[0].sleep > 0 then (None, f)
    else
      var g := f.(win := Advance(f.win));
      if g.win[0].pkt == 0 then (None, g) else Pop(g)
  }

  // The kfifo part of tsf_dequeue: when nothing came out, settle the drained slot.
  function Poll(f: Fifo): (r: Polled)
    requires |f.win| > 0
    ensures |r.fifo.win| > 0
  {
    var (p, g) := Take(f);
    if p.None? && g.win[0].pkt == 0 && g.win[0].sleep > 0
    then Polled(None, g.win[0].sleep, g.(win := g.win[0 := FRESH]))
    else Polled(p, 0, g)
  }

  /* ---------- what each operation does to the queue as a whole ---------- */

  // `g` is `f` after accepting `p`: the packet is at the back of the FIFO and its transmission time has
  // become owed delay.
  ghost predicate Appended(c: Config, f: Fifo, g: Fifo, p: Packet) {
    && Queued(g.win) == Queued(f.win) + [p]
    && Owed(g.win) == Owed(f.win) + Time(c, p)
    && Inv(c, g)
  }

  lemma OfferAppends(c: Config, f: Fifo, p: Packet)
    requires Inv(c, f)
    requires Offer(c, f, p).Some?
    ensures Appended(c, f, Offer(c, f, p).value, p)
  {
    var g := Offer(c, f, p).value;
    if Time(c, p) <= f.win[|f.win|-1].left {
      ShareAppends(c, f.win, p);
      ShareInv(c, f.win, p);
    } else {
      OpenAppends(c, f.win, p);
      OpenInv(c, f.win, seq(Steps(Time(c, p)), i => FRESH), p);
    }
    TotalConcat(Length, Queued(f.win), [p]);
    One(c, p);
  }

  // A packet is accepted exactly when its bytes fit, the write slot is not the read slot with packets in it, and
  // there is either time for it in the write slot or, for its whole transmission time, a slot in front of the
  // read slot.
  lemma OfferIff(c: Config, f: Fifo, p: Packet)
    requires Inv(c, f)
    ensures Offer(c, f, p).Some?
            <==> && Bytes(Queued(f.win) + [p]) <= c.capacity
                 && (|f.win| == 1 ==> f.win[0].pkts == [])
                 && (Time(c, p) <= f.win[|f.win|-1].left || |f.win| + Steps(Time(c, p)) < c.slots)
  {
    assert SlotInv(f.win[0]);
    TotalConcat(Length, Queued(f.win), [p]);
    One(c, p);
  }

  // Where it goes: into the write slot, whose free and owed time keep their sum, or as many slots further as its
  // time needs, of which the last one is rounded up.  Slots with packets in front of it stay as they are.
  lemma OfferPlaces(c: Config, f: Fifo, p: Packet)
    requires Inv(c, f) && Offer(c, f, p).Some?
    ensures var win, win', t := f.win, Offer(c, f, p).value.win, Time(c, p);
            var w, w' := win[|win|-1], win'[|win'|-1];
            && |win| <= |win'| && win'[..|win|-1] == win[..|win|-1]
            && (win[0].pkts != [] ==> win'[0] == win[0])
            && (t <= w.left <==> |win'| == |win|)
            && (t <= w.left ==> w'.left + w'.sleep == w.left + w.sleep)
            && (t > w.left ==>
                  && win'[..|win|] == win && w'.left + w'.sleep == RoundUp(t)
                  && UNIT_TIME * (|win'| - |win|) == RoundUp(t)
                  && forall i :: |win| <= i < |win'| - 1 ==> win'[i] == FRESH)
  {
    RoundUpIs(Time(c, p));
    assert SlotInv(f.win[0]);
  }

  lemma ShareAppends(c: Config, win: seq<Slot>, p: Packet)
    requires |win| > 0 && Time(c, p) <= win[|win|-1].left
    ensures var win' := win[|win|-1 := Share(win[|win|-1], p, Time(c, p))];
            Queued(win') == Queued(win) + [p] && Owed(win') == Owed(win) + Time(c, p)
  {
    var n := |win| - 1;
    var s := Share(win[n], p, Time(c, p));
    assert win == win[..n] + [win[n]] && win[n := s] == win[..n] + [s];
    WindowConcat(win[..n], [win[n]]);
    WindowConcat(win[..n], [s]);
    OneSlot(win[n]);
    OneSlot(s);
    assert Queued(win[n := s]) == Queued(win) + [p];
  }

  lemma ShareInv(c: Config, win: seq<Slot>, p: Packet)
    requires SlotsInv(c, win) && Time(c, p) <= win[|win|-1].left
    ensures SlotsInv(c, win[|win|-1 := Share(win[|win|-1], p, Time(c, p))])
  {
    CostConcat(c, win[|win|-1].pkts, [p]);
    TotalConcat(Length, win[|win|-1].pkts, [p]);
    One(c, p);
  }

  lemma OpenAppends(c: Config, win: seq<Slot>, p: Packet)
    ensures var win' := win + seq(Steps(Time(c, p)), i => FRESH) + [Open(p, Time(c, p))];
            Queued(win') == Queued(win) + [p] && Owed(win') == Owed(win) + Time(c, p)
  {
    var gap := seq(Steps(Time(c, p)), i => FRESH);
    var s := Open(p, Time(c, p));
    assert win + gap + [s] == win + (gap + [s]);
    EmptySlots(gap);
    OneSlot(s);
    WindowConcat(gap, [s]);
    WindowConcat(win, gap + [s]);
  }

  lemma OpenInv(c: Config, win: seq<Slot>, gap: seq<Slot>, p: Packet)
    requires SlotsInv(c, win)
    requires forall i :: 0 <= i < |gap| ==> gap[i] == FRESH
    requires |win| + |gap| + 1 <= c.slots
    ensures SlotsInv(c, win + gap + [Open(p, Time(c, p))])
  {
    One(c, p);
    var s := Open(p, Time(c, p));
    var win' := win + gap + [s];
    assert SlotInv(s);
    forall i | 0 <= i < |win'|
      ensures SlotInv(win'[i]) && (i > 0 ==> win'[i].sleep == Cost(c, win'[i].pkts))
    {
      assert win'[i] == if i < |win| then win[i] else if i < |win| + |gap| then gap[i - |win|] else s;
    }
  }

  // Skipping empty slots changes neither the FIFO nor the delay owed, and passes fresh slots only.
  lemma {:induction false} AdvanceKeeps(c: Config, win: seq<Slot>)
    requires SlotsInv(c, win)
    requires win[0].pkt == 0 ==> win[0].sleep == 0
    ensures SlotsInv(c, Advance(win))
    ensures Queued(Advance(win)) == Queued(win) && Owed(Advance(win)) == Owed(win)
    ensures Advance(win)[0].pkt == 0 ==> Queued(win) == []
    ensures forall i :: 0 <= i < |win| - |Advance(win)| ==> win[i] == FRESH
  {
    var k := |win| - |Advance(win)|;
    forall i | 0 <= i < k ensures win[i] == FRESH {
      EmptyMeansFresh(c, win, i);
    }
    DropFresh(c, win, k);
    if Advance(win)[0].pkt == 0 {
      forall i | 0 <= i < |win| ensures win[i].pkts == [] {
        assert SlotInv(win[i]);
      }
      EmptySlots(win);
    }
  }

  lemma {:induction false} DropFresh(c: Config, win: seq<Slot>, k: nat)
    requires SlotsInv(c, win) && k < |win|
    requires forall i :: 0 <= i < k ==> win[i] == FRESH
    ensures SlotsInv(c, win[k..])
    ensures Queued(win[k..]) == Queued(win) && Owed(win[k..]) == Owed(win)
  {
    assert win == win[..k] + win[k..];
    WindowConcat(win[..k], win[k..]);
    EmptySlots(win[..k]);
  }

  // A poll hands out exactly the head of the FIFO, or leaves the FIFO as it is.  When it comes back
  // empty-handed from a non-empty queue it has settled the read slot.
  ghost predicate Served(c: Config, f: Fifo, r: Polled) {
    && Inv(c, r.fifo)
    && Queued(f.win) == (if r.packet.Some? then [r.packet.value] else []) + Queued(r.fifo.win)
    && Owed(f.win) == r.delay + Owed(r.fifo.win)
    && (r.packet.Some? ==> r.delay == 0)
    && (r.packet.None? && Queued(f.win) != [] ==>
          |f.win| > 0 && f.win[0].pkts == [] && r.delay == f.win[0].sleep > 0
          && r.fifo.win == f.win[0 := FRESH])
  }

  lemma PollTakesHead(c: Config, f: Fifo)
    requires Inv(c, f)
    ensures Served(c, f, Poll(f))
  {
    TakeKeeps(c, f);
    if f.win[0].pkt == 0 && f.win[0].sleep > 0 {
      assert SlotInv(f.win[0]);
      SettleKeeps(c, f);
    }
  }

  // An idle queue is down to the read slot.
  lemma {:induction false} IdleWindow(c: Config, win: seq<Slot>)
    requires SlotsInv(c, win) && Queued(win) == []
    ensures |win| == 1 && win[0].pkt == 0
  {
    var n := |win| - 1;
    assert win == win[..n] + [win[n]];
    WindowConcat(win[..n], [win[n]]);
    OneSlot(win[n]);
    assert SlotInv(win[n]);
  }

  // A poll of an idle queue asks for all the delay that is still owed, and leaves the queue as it was at first.
  lemma IdlePoll(c: Config, f: Fifo)
    requires Inv(c, f) && Queued(f.win) == []
    ensures Poll(f) == Polled(None, Owed(f.win), EMPTY)
  {
    IdleWindow(c, f.win);
    assert SlotInv(f.win[0]);
    assert f.win == [f.win[0]];
    OneSlot(f.win[0]);
    if f.win[0].sleep == 0 {
      EmptyMeansFresh(c, f.win, 0);
      AdvanceAt(f.win, 0);
    }
    assert Poll(f).fifo.win == [FRESH];
  }

  // A packet comes out exactly when there is one and the read slot is not drained with delay still owed.
  lemma PollDeliversIff(c: Config, f: Fifo)
    requires Inv(c, f)
    ensures Poll(f).packet.Some? <==> Queued(f.win) != [] && (f.win[0].pkts != [] || f.win[0].sleep == 0)
  {
    assert SlotInv(f.win[0]);
    if Queued(f.win) == [] {
      IdlePoll(c, f);
    } else {
      PollTakesHead(c, f);
    }
  }

  // The packet `p` comes from slot `k`, the first that holds any, with fresh slots in front of it.  This becomes the
  // read slot and keeps its delay; nothing else changes.
  ghost predicate TakenFrom(win: seq<Slot>, k: nat, p: Packet, win': seq<Slot>) {
    && k < |win| == k + |win'| && (forall i :: 0 <= i < k ==> win[i] == FRESH)
    && win[k].pkts == [p] + win'[0].pkts && win'[1..] == win[k + 1..]
    && win'[0].left == win[k].left && win'[0].sleep == win[k].sleep
  }

  lemma PollPlaces(c: Config, f: Fifo)
    requires Inv(c, f) && Poll(f).packet.Some?
    ensures |Poll(f).fifo.win| <= |f.win|
    ensures TakenFrom(f.win, |f.win| - |Poll(f).fifo.win|, Poll(f).packet.value, Poll(f).fifo.win) == true
  {
    assert SlotInv(f.win[0]);
    if f.win[0].pkt == 0 {
      AdvanceKeeps(c, f.win);
      assert SlotInv(Advance(f.win)[0]);
    }
  }

  // The same for kfifo_dequeue alone, which settles nothing.
  lemma TakeKeeps(c: Config, f: Fifo)
    requires Inv(c, f)
    ensures var (p, g) := Take(f);
            && Inv(c, g)
            && Queued(f.win) == (if p.Some? then [p.value] else []) + Queued(g.win)
            && Owed(f.win) == Owed(g.win)
            && (p.None? && Queued(f.win) != [] ==> g == f && f.win[0].pkt == 0 && f.win[0].sleep > 0)
            && (p.None? && g.win[0].pkt == 0 && g.win[0].sleep > 0 ==> g == f)
  {
    assert SlotInv(f.win[0]);
    if f.win[0].pkt != 0 {
      PopKeeps(c, f);
    } else if f.win[0].sleep == 0 {
      AdvanceKeeps(c, f.win);
      var g := f.(win := Advance(f.win));
      assert SlotInv(g.win[0]);
      if g.win[0].pkt != 0 {
        PopKeeps(c, g);
      } else {
        EmptyMeansFresh(c, g.win, 0);
      }
    }
  }

  lemma SettleKeeps(c: Config, f: Fifo)
    requires Inv(c, f) && f.win[0].pkts == []
    ensures Inv(c, f.(win := f.win[0 := FRESH]))
    ensures Queued(f.win[0 := FRESH]) == Queued(f.win)
    ensures Owed(f.win) == f.win[0].sleep + Owed(f.win[0 := FRESH])
  {
    assert f.win[0 := FRESH][1..] == f.win[1..];
  }

  // None of the three counters underflows when the head of the read slot leaves.
  predicate SafeHead(f: Fifo) {
    |f.win| > 0 && var s := f.win[0];
    s.pkts != [] ==> s.pkt >= 1 && s.slen >= s.pkts[0].len && f.slen >= s.pkts[0].len
  }

  // What kfifo_dequeue relies on: it passes fresh slots only, and then a safe head.
  ghost predicate Ready(f: Fifo) {
    && |f.win| > 0
    && (f.win[0].pkt == 0 ==> f.win[0].pkts == [])
    && (f.win[0].pkt != 0 ==> f.win[0].pkts != [] && SafeHead(f))
    && (f.win[0].pkt == 0 && f.win[0].sleep == 0 ==>
          && (forall i :: 0 <= i < |f.win| - |Advance(f.win)| ==> f.win[i] == FRESH)
          && SafeHead(f.(win := Advance(f.win)))
          && (Advance(f.win)[0].pkt == 0 <==> Advance(f.win)[0].pkts == []))
  }

  lemma TakeReady(c: Config, f: Fifo)
    requires Inv(c, f)
    ensures Ready(f)
  {
    HeadSafe(c, f);
    assert SlotInv(f.win[0]);
    if f.win[0].pkt == 0 && f.win[0].sleep == 0 {
      AdvanceKeeps(c, f.win);
      HeadSafe(c, f.(win := Advance(f.win)));
      assert SlotInv(Advance(f.win)[0]);
    }
  }

  lemma HeadSafe(c: Config, f: Fifo)
    requires Inv(c, f)
    ensures SafeHead(f)
  {
    assert SlotInv(f.win[0]);
    TotalConcat(Length, f.win[0].pkts, Queued(f.win[1..]));
  }

  lemma PopKeeps(c: Config, f: Fifo)
    requires Inv(c, f) && f.win[0].pkts != []
    ensures var g := Pop(f).1;
            && Inv(c, g)
            && Queued(f.win) == [f.win[0].pkts[0]] + Queued(g.win)
            && Owed(g.win) == Owed(f.win)
  {
    var g := Pop(f).1;
    var ps := f.win[0].pkts;
    assert g.win[1..] == f.win[1..];
    assert ps == [ps[0]] + ps[1..];
    assert Queued(f.win) == [ps[0]] + Queued(g.win);
    assert SlotInv(g.win[0]);
  }

  // The delay still owed exceeds the cost of the packets still queued by exactly what the read slot has
  // already been paid for.
  lemma OwedCoversQueued(c: Config, win: seq<Slot>)
    requires SlotsInv(c, win)
    ensures Owed(win) - Cost(c, Queued(win)) == win[0].sleep - Cost(c, win[0].pkts)
  {
    CostConcat(c, win[0].pkts, Queued(win[1..]));
    TailOwed(c, win[1..]);
  }

  lemma {:induction false} TailOwed(c: Config, win: seq<Slot>)
    requires forall i :: 0 <= i < |win| ==> win[i].sleep == Cost(c, win[i].pkts)
    ensures Owed(win) == Cost(c, Queued(win))
  {
    if win != [] {
      CostConcat(c, win[0].pkts, Queued(win[1..]));
      TailOwed(c, win[1..]);
    }
  }
}
