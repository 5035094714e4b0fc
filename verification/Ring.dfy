/**
 The user-space `Ring`: a circular array of rows, one per millisecond, and the counters beside it.  Each
 method is proved against module `TimingWheel`.
 */
module Ring {
  import opened Totals
  import opened TimingWheel
  import opened WheelEntry
  import opened WheelTimer

  // The row reached `d` places after `pos`.
  function At(pos: nat, d: nat): nat {
    if pos + d < BLOCK then pos + d else pos + d - BLOCK
  }

  lemma Wrap(pos: nat, d: nat)
    requires pos < BLOCK && d <= BLOCK
    ensures (d + pos) % BLOCK == At(pos, d)
  {
  }

  class Ring {
    const rate: real
    var ringQueue: array2<Packet>
    var nowQlen: array<nat>
    var nowPosition: nat
    var prePointer: nat
    var totBytes: int
    ghost var wheel: Wheel

    ghost predicate Valid()
      reads this, ringQueue, nowQlen
    {
      && rate > 0.0 && Shape(wheel) && totBytes == wheel.total
      && ringQueue.Length0 == BLOCK && ringQueue.Length1 == QLEN && nowQlen.Length == BLOCK
      && nowPosition < BLOCK && prePointer == At(nowPosition, wheel.lead)
      && (forall d :: 0 <= d < BLOCK ==> |wheel.slots[d]| == nowQlen[At(nowPosition, d)] <= QLEN)
      && (forall d, i :: 0 <= d < BLOCK && 0 <= i < |wheel.slots[d]| ==>
            ringQueue[At(nowPosition, d), i] == wheel.slots[d][i])
    }

    constructor (rate: real)
      requires rate > 0.0
      ensures Valid() && wheel == EMPTY && this.rate == rate
      ensures fresh(ringQueue) && fresh(nowQlen)
    {
      this.rate := rate;
      ringQueue := new Packet[BLOCK, QLEN];
      nowQlen := new nat[BLOCK](i => 0);
      nowPosition, prePointer, totBytes := 0, 0, 0;
      wheel := EMPTY;
    }

    function CalInterval(pre: nat, after: nat): nat
      requires pre < BLOCK && after < BLOCK
    {
      if after >= pre then after - pre else after + BLOCK - pre
    }

    // The packet joins the row of the insertion pointer.
    method Join(p: Packet)
      requires Valid() && |wheel.slots[wheel.lead]| < QLEN
      modifies `wheel, ringQueue, nowQlen
      ensures Valid()
      ensures var s := old(wheel).slots;
              wheel == old(wheel).(slots := s[wheel.lead := s[wheel.lead] + [p]])
    {
      ringQueue[prePointer, nowQlen[prePointer]] := p;
      nowQlen[prePointer] := nowQlen[prePointer] + 1;
      wheel := wheel.(slots := wheel.slots[wheel.lead := wheel.slots[wheel.lead] + [p]]);
    }

    // The insertion pointer moves `ahead` rows on, and the packet starts the row it arrives at.
    method MoveOn(p: Packet, ahead: nat)
      requires Valid() && 0 < ahead <= BLOCK - wheel.lead
      modifies `wheel, `prePointer, ringQueue, nowQlen
      ensures Valid()
      ensures var d := At(old(wheel).lead, ahead);
              wheel == Wheel(old(wheel).slots[d := [p]], d, old(wheel).total)
    {
      Wrap(prePointer, ahead);
      prePointer := (ahead + prePointer) % BLOCK;
      ringQueue[prePointer, 0] := p;
      nowQlen[prePointer] := 1;
      ghost var d := At(wheel.lead, ahead);
      wheel := Wheel(wheel.slots[d := [p]], d, wheel.total);
    }

    // The body of in_ring for a packet that is neither expired nor too big nor beyond the wheel.
    method Place(p: Packet, intervalBlock: int) returns (overrun: bool)
      requires Valid() && 0 <= intervalBlock <= BLOCK
      modifies this, ringQueue, nowQlen
      ensures Valid() && ringQueue == old(ringQueue) && nowQlen == old(nowQlen)
      ensures overrun <==> intervalBlock <= old(wheel).lead && |old(wheel).slots[old(wheel).lead]| >= QLEN
      ensures wheel == if overrun then old(wheel) else Enter(old(wheel), p, intervalBlock)
    {
      var interval := CalInterval(nowPosition, prePointer);
      assert interval == wheel.lead;
      if intervalBlock <= interval {
        if nowQlen[prePointer] >= QLEN {
          return true;  // the write would be past the end of the row
        }
        Join(p);
      } else {
        MoveOn(p, intervalBlock - interval);
      }
      totBytes := totBytes + p.len;
      wheel := wheel.(total := wheel.total + p.len);
      return false;
    }

    method DeRing() returns (out: seq<Packet>)
      requires Valid()
      modifies this, nowQlen
      ensures Valid() && ringQueue == old(ringQueue) && nowQlen == old(nowQlen)
      ensures (out, wheel) == TimingWheel.DeRing(old(wheel))
    {
      out := [];
      ghost var slot := wheel.slots[0];
      assert |slot| == nowQlen[At(nowPosition, 0)] && wheel.slots[0] == slot;
      if nowQlen[nowPosition] != 0 {
        for i := 0 to nowQlen[nowPosition]
          invariant out == slot[..i] && totBytes == wheel.total - Bytes(out)
          modifies `totBytes
        {
          var p := ringQueue[nowPosition, i];
          TotalConcat(Length, out, [p]);
          out := out + [p];
          totBytes := totBytes - p.len;
        }
        nowQlen[nowPosition] := 0;
      }
      assert out == slot;
      wheel := TimingWheel.DeRing(wheel).1;
    }

    method ClearCurrent()
      requires Valid()
      modifies `wheel, nowQlen
      ensures Valid() && wheel == old(wheel).(slots := old(wheel).slots[0 := []])
    {
      nowQlen[nowPosition] := 0;
      wheel := wheel.(slots := wheel.slots[0 := []]);
    }

    // Also clears the count of the slot it leaves.
    method StatusUpdate()
      requires Valid()
      modifies this, nowQlen
      ensures Valid() && ringQueue == old(ringQueue) && nowQlen == old(nowQlen)
      ensures wheel == TimingWheel.StatusUpdate(old(wheel))
    {
      ClearCurrent();
      Wrap(nowPosition, 1);
      Wrap(prePointer, 1);
      ghost var pos, slots := nowPosition, wheel.slots;
      var interval := CalInterval(nowPosition, prePointer);
      if interval == 0 {
        prePointer := (prePointer + 1) % BLOCK;
        nowPosition := (nowPosition + 1) % BLOCK;
      } else {
        nowPosition := (nowPosition + 1) % BLOCK;
      }
      wheel := TimingWheel.StatusUpdate(wheel);
      assert slots[1..] + [[]] == old(wheel).slots[1..] + [[]];
      forall d | 0 <= d < BLOCK
        ensures At(nowPosition, d) == At(pos, if d < BLOCK - 1 then d + 1 else 0)
        ensures wheel.slots[d] == slots[if d < BLOCK - 1 then d + 1 else 0]
      {
      }
    }

    // in_ring, on the input queue handed in and back.
    method InRing(queue0: seq<Packet>, round: nat) returns (queue: seq<Packet>, overrun: bool)
      requires Valid() && totBytes >= 0
      modifies this, ringQueue, nowQlen
      ensures Valid() && ringQueue == old(ringQueue) && nowQlen == old(nowQlen)
      ensures Agree(WheelEntry.InRing(rate, old(wheel), queue0, round), wheel, queue, overrun)
    {
      queue := queue0;
      while queue != []
        invariant Valid() && ringQueue == old(ringQueue) && nowQlen == old(nowQlen) && totBytes >= 0
        invariant SameEntry(rate, old(wheel), queue0, wheel, queue, round) == true
        decreases |queue|
      {
        ghost var w, q := wheel, queue;
        var p := queue[0];
        if Expired(p, round) {
          queue := queue[1..];
        } else if TooBig(rate, p) {
          queue := queue[1..];
          overrun := false;
          return;
        } else {
          TargetNonNegative(rate, p.len + totBytes);
          var intervalBlock := Target(rate, p.len + totBytes);
          if intervalBlock > BLOCK {
            overrun := false;
            return;
          }
          overrun := Place(p, intervalBlock);
          if overrun {
            return;
          }
          queue := queue[1..];
        }
        SameEntryStep(rate, old(wheel), queue0, w, q, wheel, queue, round);
      }
      overrun := false;
    }
  }

  ghost predicate Agree(e: Entry, w: Wheel, queue: seq<Packet>, overrun: bool) {
    e.wheel == w && e.queue == queue && e.overrun == overrun
  }

  // in_ring from one state ends like in_ring from the other: how its loop progresses.
  ghost predicate SameEntry(rate: real, w: Wheel, q: seq<Packet>, w': Wheel, q': seq<Packet>, round: nat) {
    && rate > 0.0 && Shape(w) && w.total >= 0 && Shape(w') && w'.total >= 0
    && var e := InRing(rate, w', q', round);
       Agree(InRing(rate, w, q, round), e.wheel, e.queue, e.overrun)
  }

  lemma SameEntryStep(rate: real, w: Wheel, q: seq<Packet>, w1: Wheel, q1: seq<Packet>,
                      w2: Wheel, q2: seq<Packet>, round: nat)
    requires SameEntry(rate, w, q, w1, q1, round) && SameEntry(rate, w1, q1, w2, q2, round)
    ensures SameEntry(rate, w, q, w2, q2, round)
  {
  }

  /* ---------- the timer handler ---------- */

  class Timer {
    var input: seq<Packet>
    var inque: seq<Packet>
    var totRound: nat
    const ring: Ring

    ghost predicate Valid()
      reads this, ring, ring.ringQueue, ring.nowQlen
    {
      ring.Valid() && ring.totBytes >= 0
    }

    ghost function Abs(): Driver
      reads this, ring
    {
      Driver(input, inque, totRound, ring.wheel)
    }

    constructor (ring: Ring, input: seq<Packet>)
      requires ring.Valid() && ring.wheel == EMPTY
      ensures Valid() && Abs() == Driver(input, [], 0, EMPTY) && this.ring == ring
    {
      this.input, inque, totRound, this.ring := input, [], 0, ring;
    }

    // The inner loop of test_func: every arrived packet at the front of the input is queued.  `all` is the
    // input as it was before, of which the first `a` packets are gone.
    method TakeArrived(ghost all: seq<Packet>, ghost a: nat)
      requires a <= |all| && input == all[a..]
      modifies `input, `inque
      ensures var b := FirstLate(all, totRound, a);
              input == all[b..] && inque == old(inque) + all[a..b]
    {
      ghost var i := a;
      while input != [] && Arrived(input[0], totRound)
        invariant a <= i <= |all| && input == all[i..] && inque == old(inque) + all[a..i]
        invariant FirstLate(all, totRound, i) == FirstLate(all, totRound, a)
        decreases |input|
      {
        inque := inque + [input[0]];
        input := input[1..];
        i := i + 1;
      }
    }

    // The outer loop of test_func.  It gets to in_ring at most once: behind the packets taken in, the front
    // of the input has not arrived yet.
    method Receive() returns (overrun: bool)
      requires Valid() && totRound > 0
      modifies `input, `inque, ring, ring.ringQueue, ring.nowQlen
      ensures ring.Valid() && ring.ringQueue == old(ring.ringQueue) && ring.nowQlen == old(ring.nowQlen)
      ensures var s := Driver(old(input), old(inque), totRound - 1, old(ring.wheel));
              input == Remaining(s) && Agree(WheelTimer.Receive(ring.rate, s), ring.wheel, inque, overrun)
    {
      overrun := false;
      ghost var all, a := input, 0;
      while input != []
        invariant Valid() && inque == old(inque) && ring.wheel == old(ring.wheel)
        invariant ring.ringQueue == old(ring.ringQueue) && ring.nowQlen == old(ring.nowQlen)
        invariant 0 <= a <= |all| && input == all[a..]
        invariant FirstFresh(all, totRound, a) == FirstFresh(all, totRound, 0)
        decreases |input|
      {
        if Expired(input[0], totRound) {
          input := input[1..];
          a := a + 1;
          continue;
        }
        if Arrived(input[0], totRound) {
          TakeArrived(all, a);
          inque, overrun := ring.InRing(inque, totRound);
          assert input != [] ==> !Expired(input[0], totRound) && !Arrived(input[0], totRound);
          return;  // the next turn, if any, would leave the loop at once
        } else {
          break;
        }
      }
    }

    // test_func: one timer signal.
    method Signal() returns (out: seq<Packet>, overrun: bool)
      requires Valid()
      modifies this, ring, ring.ringQueue, ring.nowQlen
      ensures ring.Valid() && ring.ringQueue == old(ring.ringQueue) && ring.nowQlen == old(ring.nowQlen)
      ensures (Abs(), out, overrun) == WheelTimer.Signal(ring.rate, old(Abs()))
    {
      totRound := totRound + 1;
      out, overrun := [], false;
      overrun := Receive();
      if !overrun && totRound % 10 == 0 {
        out := ring.DeRing();
        ring.StatusUpdate();
      }
    }
  }
}
