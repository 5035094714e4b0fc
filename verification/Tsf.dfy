/**
 The queueing discipline: the balance and its check-point, the inner queue and the kfifo, updated in
 place by tsf_segment, tsf_enqueue and tsf_dequeue.  Each method is proved against module `TsfSystem`.
 */
module Tsf {
  import opened Wrappers
  import opened SlotWindow
  import opened Kfifo
  import TokenBucket
  import S = TsfSystem

  // What a sequence of buffers carries.
  function Packets(skbs: seq<SkBuff>): (ps: seq<Packet>)
    ensures |ps| == |skbs|
    ensures forall i :: 0 <= i < |skbs| ==> ps[i] == skbs[i].pkt
  {
    seq(|skbs|, i requires 0 <= i < |skbs| => skbs[i].pkt)
  }

  class TsfSchedData {
    var tokens: int
    var tc: int  // time check-point
    var inner: seq<SkBuff>
    const buffer: nat
    const kfifo: KfifoQueueData
    ghost var sys: S.System

    // Zeroed private data around a kfifo as kfifo_init leaves it.
    constructor (buffer: nat, kfifo: KfifoQueueData)
      requires kfifo.Valid() && kfifo.Abs() == EMPTY
      ensures this.buffer == buffer && this.kfifo == kfifo && inner == []
      ensures Valid() && sys == S.INITIAL
    {
      tokens, tc, inner := 0, 0, [];
      this.buffer, this.kfifo, sys := buffer, kfifo, S.INITIAL;
    }

    ghost function Setup(): S.Setup
      reads kfifo`ring, kfifo`totalLen
    {
      S.Setup(kfifo.Settings(), buffer)
    }

    // Packets in the inner queue are unlinked and distinct.
    ghost predicate InnerValid()
      reads this, inner
    {
      && |inner| == |sys.inner|
      && (forall i :: 0 <= i < |inner| ==> inner[i].pkt == sys.inner[i])
      && (forall i :: 0 <= i < |inner| ==> inner[i].holder == null && inner[i].next == null)
      && (forall i, j :: 0 <= i < j < |inner| ==> inner[i] != inner[j])
    }

    ghost predicate Valid()
      reads this, inner, kfifo, kfifo.nodes, kfifo.kunits, kfifo.held
    {
      && kfifo.Valid() && InnerValid()
      && sys.bucket == TokenBucket.Bucket(tokens, tc) && sys.flow.fifo == kfifo.Abs()
    }

    // The balance at `now`: what there was and the time passed since, at most the depth.
    method Refill(now: int) returns (toks: int)
      ensures toks == TokenBucket.Refill(buffer, TokenBucket.Bucket(tokens, tc), now)
      ensures 0 <= tokens <= buffer && tc <= now ==> toks == TokenBucket.Min(buffer, tokens + now - tc)
    {
      toks := TokenBucket.Min(now - tc, buffer);
      toks := toks + tokens;
      if toks > buffer {
        toks := buffer;
      }
    }

    // The kfifo part of tsf_dequeue, and the delay handed to tsf_delay.
    method Dequeue() returns (skb: SkBuff?, delay: nat)
      requires Valid()
      modifies this, kfifo, kfifo.nodes, kfifo.kunits, kfifo.held
      ensures Valid() && Setup() == old(Setup()) && sys == S.Dequeue(old(Setup()), old(sys))
      ensures sys.flow.delay == old(sys.flow.delay) + delay
      ensures sys.flow.released == old(sys.flow.released) + if skb == null then [] else [skb.pkt]
    {
      ghost var u := Setup();
      skb, delay := kfifo.Poll();
      ghost var waiting := InnerValid();
      assert waiting;
      Record(S.Dequeue(u, sys));
    }

    // A packet that is on no list and not in the inner queue.
    ghost predicate Loose(skb: SkBuff)
      reads this, skb
    {
      skb.holder == null && skb.next == null && skb !in inner
    }

    // Offers the packet to the kfifo; the packets of the inner queue are on no list and so are untouched.
    method Enlist(skb: SkBuff) returns (ret: Verdict)
      requires (kfifo.Valid() && InnerValid()) == true && Loose(skb)
      modifies kfifo, kfifo.nodes, kfifo.kunits, kfifo.held, skb
      ensures (kfifo.Valid() && InnerValid()) == true && Setup() == old(Setup())
      ensures old(|kfifo.Abs().win|) > 0
      ensures var offered := old(Offer(kfifo.Settings(), kfifo.Abs(), skb.pkt));
              if offered.Some? then ret == Success && kfifo.Abs() == offered.value
              else ret == Drop && kfifo.Abs() == old(kfifo.Abs())
      ensures kfifo.nodes == old(kfifo.nodes) && kfifo.kunits == old(kfifo.kunits)
      ensures kfifo.held <= old(kfifo.held) + {skb}
      ensures ret == Drop ==> unchanged(skb)
    {
      ret := kfifo.Enqueue(skb);
      ghost var waiting := InnerValid();
      assert waiting;
    }

    // Offers the packet to the kfifo and charges it: `toks` is the balance after the charge.  A drained
    // packet is charged only when it was taken, a new one `always`.
    method Admit(skb: SkBuff, now: int, toks: int, always: bool) returns (ret: Verdict)
      requires Valid() && Loose(skb)
      modifies this, kfifo, kfifo.nodes, kfifo.kunits, kfifo.held, skb
      ensures Valid() && Setup() == old(Setup()) && inner == old(inner)
      ensures (sys, ret == Success) == S.Admit(old(Setup()), old(sys), skb.pkt, now, toks, always)
      ensures kfifo.nodes == old(kfifo.nodes) && kfifo.kunits == old(kfifo.kunits)
      ensures kfifo.held <= old(kfifo.held) + {skb}
      ensures ret == Drop ==> unchanged(skb)
    {
      ghost var s := S.Admit(Setup(), sys, skb.pkt, now, toks, always).0;
      ret := Enlist(skb);
      if ret == Success || always {
        Charge(now, toks);
      }
      Record(s);
    }

    // The balance and its check-point, on which neither queue depends.
    method Charge(now: int, toks: int)
      requires (kfifo.Valid() && InnerValid()) == true
      modifies `tc, `tokens
      ensures tc == now && tokens == toks && (kfifo.Valid() && InnerValid()) == true
    {
      tc, tokens := now, toks;
    }

    ghost method Record(s: S.System)
      requires (kfifo.Valid() && InnerValid()) == true
      requires s.inner == sys.inner
      modifies `sys
      ensures sys == s && (kfifo.Valid() && InnerValid()) == true
    {
      sys := s;
    }

    // qdisc_enqueue on the inner queue; `room` tells whether it takes the packet.
    method Wait(skb: SkBuff, room: bool) returns (ret: Verdict)
      requires Valid() && Loose(skb)
      modifies `inner, `sys
      ensures Valid() && inner == old(inner) + if room then [skb] else []
      ensures (sys, ret == Success) == S.Wait(old(sys), skb.pkt, room)
    {
      if room {
        inner := inner + [skb];
      }
      ret := if room then Success else Drop;
      sys := S.Wait(sys, skb.pkt, room).0;
    }

    // Admitted and charged if the balance `toks` covers the packet, otherwise left to the inner queue.
    method Decide(skb: SkBuff, now: int, toks: int, room: bool) returns (ret: Verdict)
      requires Valid() && Loose(skb)
      modifies this, kfifo, kfifo.nodes, kfifo.kunits, kfifo.held, skb
      ensures Valid() && Setup() == old(Setup())
      ensures S.Decided(old(Setup()), old(sys), skb.pkt, now, toks, room, sys, ret == Success) == true
      ensures kfifo.nodes == old(kfifo.nodes) && kfifo.kunits == old(kfifo.kunits)
      ensures kfifo.held <= old(kfifo.held) + {skb}
      ensures inner == old(inner) || inner == old(inner) + [skb]
    {
      ghost var u, s := Setup(), sys;
      var left := toks - kfifo.l2t(skb.pkt.len);
      if left >= 0 {
        ret := Admit(skb, now, left, true);
        S.DecidedAdmit(u, s, skb.pkt, now, toks, room, sys, ret == Success);
      } else {
        ret := Wait(skb, room);
        S.DecidedWait(u, s, skb.pkt, now, toks, room, sys, ret == Success);
      }
    }

    // skb_mark_not_on_list
    method Unlink(skb: SkBuff)
      requires (kfifo.Valid() && InnerValid()) == true
      requires skb.holder == null && skb !in inner
      modifies skb`next
      ensures skb.next == null && (kfifo.Valid() && InnerValid()) == true
    {
      skb.next := null;
      ghost var queued, waiting := kfifo.Valid(), InnerValid();
      assert queued && waiting;
    }

    // One turn of the loop in tsf_segment.
    method SegmentOne(skb: SkBuff, now: int, room: bool, ghost nb: nat) returns (ret: Verdict)
      requires Valid() && skb.holder == null && skb !in inner
      modifies this, kfifo, kfifo.nodes, kfifo.kunits, kfifo.held, skb
      ensures Valid() && Setup() == old(Setup())
      ensures S.Turns(old(Setup()), (old(sys), nb), skb.pkt, now, room,
                      (sys, if ret == Success then nb + 1 else nb)) == true
      ensures kfifo.nodes == old(kfifo.nodes) && kfifo.kunits == old(kfifo.kunits)
      ensures kfifo.held <= old(kfifo.held) + {skb}
      ensures inner == old(inner) || inner == old(inner) + [skb]
    {
      ghost var u, s := Setup(), sys;
      Unlink(skb);
      var toks := Refill(now);
      ret := Decide(skb, now, toks, room);
      S.DecideTurns(u, s, skb.pkt, now, room, nb, sys, ret == Success);
    }

    // The same, with the segments still to come left alone.
    method SegmentTurn(skb: SkBuff, now: int, room: bool, ghost nb: nat, ghost rest: seq<SkBuff>)
      returns (ret: Verdict)
      requires Valid() && skb.holder == null && skb !in inner
      requires forall x :: x in rest ==> x.holder == null && x !in inner && x != skb
      modifies this, kfifo, kfifo.nodes, kfifo.kunits, kfifo.held, skb
      ensures Valid() && Setup() == old(Setup())
      ensures S.Turns(old(Setup()), (old(sys), nb), skb.pkt, now, room,
                      (sys, if ret == Success then nb + 1 else nb)) == true
      ensures kfifo.nodes == old(kfifo.nodes) && kfifo.kunits == old(kfifo.kunits)
      ensures kfifo.held <= old(kfifo.held) + {skb}
      ensures forall x :: x in rest ==> x.holder == null && x !in inner
    {
      ret := SegmentOne(skb, now, room, nb);
    }

    // tsf_segment: the segments of an oversized packet, each against the clock read for it.
    method Segment(segs: seq<SkBuff>, clock: seq<int>, room: seq<bool>) returns (ret: Verdict)
      requires Valid() && |segs| == |clock| == |room|
      requires forall i :: 0 <= i < |segs| ==> segs[i].holder == null && segs[i] !in inner
      requires forall i, j :: 0 <= i < j < |segs| ==> segs[i] != segs[j]
      modifies this, kfifo, kfifo.nodes, kfifo.kunits, kfifo.held, segs
      ensures Valid() && Setup() == old(Setup())
      ensures var (sys', nb) := S.SegmentAll(old(Setup()), old(sys), Packets(segs), clock, room, |segs|);
              sys == sys' && (ret == Success <==> nb > 0)
    {
      ghost var u, s0 := Setup(), sys;
      ghost var ts;
      ret, ts := SegmentLoop(segs, clock, room);
      S.TracedSegments(u, s0, ts, Packets(segs), clock, room, |segs|);
    }

    // The loop, with the states it passes through (`== true` keeps their listing folded for the verifier).
    method SegmentLoop(segs: seq<SkBuff>, clock: seq<int>, room: seq<bool>)
      returns (ret: Verdict, ghost ts: seq<(S.System, nat)>)
      requires Valid() && |segs| == |clock| == |room|
      requires forall i :: 0 <= i < |segs| ==> segs[i].holder == null && segs[i] !in inner
      requires forall i, j :: 0 <= i < j < |segs| ==> segs[i] != segs[j]
      modifies this, kfifo, kfifo.nodes, kfifo.kunits, kfifo.held, segs
      ensures Valid() && Setup() == old(Setup())
      ensures |ts| == |segs| + 1 && ts[|segs|].0 == sys && (ret == Success <==> ts[|segs|].1 > 0)
      ensures S.Traced(old(Setup()), old(sys), ts, Packets(segs), clock, room, |segs|) == true
    {
      var nb: nat := 0;
      ghost var u, s0 := Setup(), sys;
      ts := [(sys, 0)];
      for i := 0 to |segs|
        invariant Valid() == true && Setup() == u
        invariant |ts| == i + 1 && ts[i] == (sys, nb)
        invariant S.Traced(u, s0, ts, Packets(segs), clock, room, i) == true
        invariant kfifo.nodes == old(kfifo.nodes) && kfifo.kunits == old(kfifo.kunits)
        invariant forall x :: x in kfifo.held ==> x in old(kfifo.held) || x in segs
        invariant forall x :: x in segs[i..] ==> x.holder == null && x !in inner
      {
        assert segs[i..] == [segs[i]] + segs[i + 1..];
        var r := SegmentTurn(segs[i], clock[i], room[i], nb, segs[i + 1..]);
        if r == Success {
          nb := nb + 1;
        }
        S.TracedMore(u, s0, ts, Packets(segs), clock, room, i, (sys, nb));
        ts := ts + [(sys, nb)];
      }
      ret := if nb > 0 then Success else Drop;
    }

    // qdisc_dequeue_peeked on the inner queue.
    method TakeInner() returns (head: SkBuff)
      requires (kfifo.Valid() && InnerValid()) == true && inner != []
      modifies `inner, `sys
      ensures (kfifo.Valid() && InnerValid()) == true
      ensures head == old(inner)[0] && head.pkt == old(sys.inner)[0] && Loose(head)
      ensures inner == old(inner)[1..] && sys == old(sys).(inner := old(sys).inner[1..])
    {
      head := inner[0];
      inner := inner[1..];
      sys := sys.(inner := sys.inner[1..]);
      ghost var queued := kfifo.Valid();
      assert queued;
    }

    // One turn of the drain loop: the head of the inner queue moves on, if the kfifo takes it.
    method DrainHead(now: int, toks: int) returns (ret: Verdict)
      requires Valid() && inner != [] && toks >= Time(kfifo.Settings(), inner[0].pkt)
      modifies this, kfifo, kfifo.nodes, kfifo.kunits, kfifo.held, inner[0]
      ensures Valid() && Setup() == old(Setup()) && inner == old(inner)[1..]
      ensures var left := toks - Time(old(kfifo.Settings()), old(inner)[0].pkt);
              if ret == Success then S.SameDrain(old(Setup()), old(sys), toks, sys, left, now)
              else S.Drain(old(Setup()), old(sys), toks, now) == S.Drained(sys, toks, false)
      ensures kfifo.nodes == old(kfifo.nodes) && kfifo.kunits == old(kfifo.kunits)
      ensures kfifo.held <= old(kfifo.held) + {old(inner)[0]}
    {
      ghost var u, s := Setup(), sys;
      var head := TakeInner();
      ret := Admit(head, now, toks - kfifo.l2t(head.pkt.len), false);
      S.SameDrainHead(u, s, toks, now, sys, ret == Success);
    }

    // The drain loop.  The peek before it found a packet, or the balance keeps it from being entered.
    method Drain(now: int, toks0: int) returns (ret: Verdict, toks: int, toks2: int)
      requires Valid() && (inner == [] ==> toks0 < 0)
      modifies this, kfifo, kfifo.nodes, kfifo.kunits, kfifo.held, inner
      ensures Valid() && Setup() == old(Setup())
      ensures S.Drain(old(Setup()), old(sys), toks0, now) == S.Drained(sys, toks, ret == Success)
      ensures ret == Success && inner != [] ==> toks2 == toks - Time(kfifo.Settings(), inner[0].pkt) < 0
      ensures kfifo.nodes == old(kfifo.nodes) && kfifo.kunits == old(kfifo.kunits)
      ensures forall x :: x in kfifo.held ==> x in old(kfifo.held) || x in old(inner)
      ensures forall x :: x in inner ==> x in old(inner)
    {
      toks := toks0;
      toks2 := toks;
      if inner != [] {
        toks2 := toks2 - kfifo.l2t(inner[0].pkt.len);
      }
      ghost var u, s0 := Setup(), sys;
      while toks2 >= 0
        invariant Valid() && Setup() == u
        invariant S.SameDrain(u, s0, toks0, sys, toks, now) == true
        invariant if inner == [] then toks2 < 0 else toks2 == toks - Time(kfifo.Settings(), inner[0].pkt)
        invariant kfifo.nodes == old(kfifo.nodes) && kfifo.kunits == old(kfifo.kunits)
        invariant forall x :: x in kfifo.held ==> x in old(kfifo.held) || x in old(inner)
        invariant forall x :: x in inner ==> x in old(inner)
        decreases |inner|
      {
        ghost var s1 := sys;
        assert inner[0] in inner;
        ret := DrainHead(now, toks);
        if ret != Success {
          return;
        }
        S.SameDrainStep(u, s0, toks0, s1, toks, sys, toks2, now);
        toks := toks2;
        if inner == [] {
          break;
        }
        toks2 := toks2 - kfifo.l2t(inner[0].pkt.len);
      }
      S.SameDrainEnds(u, s0, toks0, sys, toks, now);
      ret := Success;
    }

    // The part of tsf_enqueue behind the drain loop.
    method Conclude(skb: SkBuff, now: int, toks: int, toks2: int, room: bool)
      returns (ret: Verdict, wake: Option<int>)
      requires Valid() && Loose(skb)
      requires inner != [] ==> toks2 == toks - Time(kfifo.Settings(), inner[0].pkt)
      modifies this, kfifo, kfifo.nodes, kfifo.kunits, kfifo.held, skb
      ensures Valid() && Setup() == old(Setup())
      ensures S.Concluded(old(Setup()), old(sys), skb.pkt, now, toks, room, sys, wake, ret == Drop) == true
    {
      var left := toks - kfifo.l2t(skb.pkt.len);
      wake := if left >= 0 then None else if inner != [] then Some(now - toks2) else Some(now - left);
      ghost var u, s := Setup(), sys;
      ret := Decide(skb, now, toks, room);
      S.ConcludeIs(u, s, skb.pkt, now, toks, room, sys, ret == Success, wake);
      if left < 0 {
        ret := Success;
      }
    }

    // tsf_enqueue, for a packet that needs no segmenting.  `wake` is the time the watchdog is set to.  Without
    // a packet in hand the drain loop must not be entered: there the model stops.
    method Enqueue(skb: SkBuff, now: int, room: bool) returns (ret: Verdict, wake: Option<int>)
      requires Valid() && Loose(skb)
      modifies this, kfifo, kfifo.nodes, kfifo.kunits, kfifo.held, inner, skb
      ensures Valid() && Setup() == old(Setup())
      ensures var r := S.Enqueue(old(Setup()), old(sys), skb.pkt, now, room);
              && sys == r.sys && wake == r.wake
              && (r.fate != S.Halted ==> (ret == Drop <==> r.fate == S.Lost))
    {
      var toks0 := Refill(now);
      if inner == [] && toks0 >= 0 {
        Record(sys.(halted := true));
        return Drop, None;
      }
      ret, wake := Proceed(skb, now, toks0, room);
    }

    method Proceed(skb: SkBuff, now: int, toks0: int, room: bool) returns (ret: Verdict, wake: Option<int>)
      requires Valid() && Loose(skb) && (inner == [] ==> toks0 < 0)
      modifies this, kfifo, kfifo.nodes, kfifo.kunits, kfifo.held, inner, skb
      ensures Valid() && Setup() == old(Setup())
      ensures var r := S.Proceed(old(Setup()), old(sys), skb.pkt, now, toks0, room);
              sys == r.sys && wake == r.wake && (ret == Drop <==> r.fate == S.Lost)
    {
      var toks, toks2;
      ret, toks, toks2 := Drain(now, toks0);
      if ret != Success {
        Record(sys.(lost := sys.lost + [skb.pkt]));
        return Drop, None;
      }
      ret, wake := Conclude(skb, now, toks, toks2, room);
    }
  }
}
