/**
 The kfifo itself: packet lists linked by `next`, slots linked in a ring by `prev` and `next`, and the
 queue operations that rewrite them in place.  Each operation is proved against its specification in
 module `SlotWindow`.
 */
module Kfifo {
  import opened Wrappers
  import opened SlotWindow

  datatype Verdict = Success | Drop

  /* ---------- packets and packet lists ---------- */

  class SkBuff {
    const pkt: Packet
    var next: SkBuff?
    ghost var holder: KunitSkbHead?  // the list the packet is on, if any
    ghost var place: int             // its position there, counted over all packets the list ever held

    constructor (pkt: Packet)
      ensures this.pkt == pkt && next == null && holder == null
    {
      this.pkt, next, holder, place := pkt, null, null, 0;
    }
  }

  // The packet a pointer refers to, if any.
  function Skbs(p: SkBuff?): set<SkBuff> {
    if p == null then {} else {p}
  }

  class KunitSkbHead {
    var head: SkBuff?
    var tail: SkBuff?
    ghost var list: seq<SkBuff>
    ghost var pkts: seq<Packet>  // what the buffers on the list carry
    ghost var first: int         // the position of the head
    ghost const index: int       // the index of its slot in the allocated array

    ghost predicate Valid()
      reads this, list
    {
      && |pkts| == |list|
      && (forall i :: 0 <= i < |list| ==> pkts[i] == list[i].pkt)
      && (list == [] ==> head == null && tail == null)
      && (list != [] ==> head == list[0] && tail == list[|list|-1] && tail.next == null)
      && (forall i {:trigger list[i].next} :: 0 <= i < |list| - 1 ==> list[i].next == list[i + 1])
      && (forall i :: 0 <= i < |list| ==> list[i].holder == this && list[i].place == first + i)
    }

    twostate lemma Kept()
      requires old(Valid()) && unchanged(this)
      requires forall i :: 0 <= i < |list| ==> unchanged(list[i])
      ensures Valid()
    {
    }

    // Uninitialised memory: the two pointers are arbitrary.
    constructor (junk: SkBuff?, ghost index: int)
      ensures list == [] && pkts == [] && this.index == index
    {
      head, tail, list, pkts, first := junk, junk, [], [], 0;
      this.index := index;
    }

    // The empty-list branch does not clear `next`, so the list stays well formed exactly when the list
    // was non-empty or the caller hands over an unlinked packet.
    method EnqueueTail(skb: SkBuff)
      requires Valid() && skb.holder == null
      modifies `head, `tail, `list, `pkts, Skbs(tail)`next, skb`next, skb`holder, skb`place
      ensures list == old(list) + [skb] && pkts == old(pkts) + [skb.pkt]
      ensures skb.holder == this
      ensures Valid() <==> old(list) != [] || old(skb.next) == null
    {
      var last := tail;
      if last != null {
        skb.next := null;
        last.next := skb;
        tail := skb;
      } else {
        tail := skb;
        head := skb;
      }
      skb.place := first + |list|;
      list, pkts, skb.holder := list + [skb], pkts + [skb.pkt], this;
    }

    // The head leaves the list but keeps its `next`: it still points to the packet behind it, if there is one.
    method DequeueHead() returns (skb: SkBuff?)
      requires Valid()
      modifies `head, `tail, `list, `pkts, `first, Skbs(head)`holder
      ensures Valid()
      ensures old(list) == [] ==> skb == null && unchanged(this)
      ensures old(list) != [] ==>
                && skb == old(list)[0] && skb.pkt == old(pkts)[0] && skb.holder == null
                && list == old(list)[1..] && pkts == old(pkts)[1..]
                && skb.next == (if list == [] then null else list[0])
    {
      skb := head;
      if skb != null {
        head := skb.next;
        if head == null {
          tail := null;
        }
        list, pkts, first, skb.holder := list[1..], pkts[1..], first + 1, null;
        return skb;
      }
      return null;
    }

    // kunit_skb_head_init forgets whatever the list held.
    method Reset()
      modifies this
      ensures Valid() && list == [] && pkts == []
    {
      head, tail, list, pkts := null, null, [], [];
    }
  }

  // A packet that is still linked to another one breaks an empty list.
  method StaleNext(p: Packet, q: Packet) returns (kuh: KunitSkbHead)
    ensures !kuh.Valid() && kuh.pkts == [p]
  {
    var skb := new SkBuff(p);
    skb.next := new SkBuff(q);
    kuh := new KunitSkbHead(null, 0);
    kuh.Reset();
    kuh.EnqueueTail(skb);
  }

  /* ---------- one slot of the ring ---------- */

  class Knode {
    var pkt: nat
    var leftTime: nat
    var sleepTime: nat
    var prev: Knode?
    var next: Knode?
    var slen: nat
    const kunit: KunitSkbHead
    ghost const index: int  // its index in the allocated array

    ghost function View(): Slot
      reads `pkt, `slen, `leftTime, `sleepTime, kunit`pkts
    {
      Slot(kunit.pkts, pkt, slen, leftTime, sleepTime)
    }

    // Uninitialised memory, as kmalloc returns it.
    constructor (junk: nat, link: Knode?, head: SkBuff?, ghost index: int)
      ensures fresh(kunit) && kunit.list == [] && this.index == kunit.index == index
    {
      pkt, leftTime, sleepTime, slen, prev, next := junk, junk, junk, junk, link, link;
      kunit := new KunitSkbHead(head, index);
      this.index := index;
    }

    // What kfifo_enqueue does to the write slot, apart from its budget.
    method Append(skb: SkBuff, skbTime: nat)
      requires kunit.Valid() && skb.holder == null && skb.next == null
      modifies `sleepTime, `pkt, `slen, kunit`head, kunit`tail, kunit`list, kunit`pkts,
        Skbs(kunit.tail)`next, skb`next, skb`holder, skb`place
      ensures kunit.Valid() && kunit.list == old(kunit.list) + [skb] && skb.holder == kunit
      ensures View() == old(View()).(pkts := old(View()).pkts + [skb.pkt], pkt := old(pkt) + 1,
                                     slen := old(slen) + skb.pkt.len, sleep := old(sleepTime) + skbTime)
    {
      sleepTime := sleepTime + skbTime;
      pkt := pkt + 1;
      slen := slen + skb.pkt.len;
      kunit.EnqueueTail(skb);
    }

    // What kfifo_dequeue does to the read slot.
    method TakeHead() returns (skb: SkBuff?)
      requires kunit.Valid()
      requires kunit.list != [] ==> pkt >= 1 && slen >= kunit.pkts[0].len
      modifies `pkt, `slen, kunit`head, kunit`tail, kunit`list, kunit`pkts, kunit`first, Skbs(kunit.head)`holder
      ensures kunit.Valid()
      ensures old(kunit.list) == [] ==> skb == null && unchanged(this) && unchanged(kunit)
      ensures old(kunit.list) != [] ==>
                && skb == old(kunit.list)[0] && skb.holder == null && kunit.list == old(kunit.list)[1..]
                && skb.next == (if kunit.list == [] then null else kunit.list[0])
                && skb.pkt == old(View()).pkts[0]
                && View() == old(View()).(pkts := old(View()).pkts[1..], pkt := old(pkt) - 1,
                                          slen := old(slen) - skb.pkt.len)
    {
      skb := kunit.DequeueHead();
      if skb != null {
        pkt := pkt - 1;
        slen := slen - skb.pkt.len;
      }
    }

    // kfifo_finish_node.
    method Finish()
      modifies `leftTime, `sleepTime, `pkt, `slen, kunit
      ensures kunit.Valid() && View() == FRESH && kunit.list == []
    {
      leftTime := UNIT_TIME;
      pkt := 0;
      slen := 0;
      sleepTime := 0;
      kunit.Reset();
    }
  }

  /* ---------- the ring of slots ---------- */

  function Succ(i: nat, n: nat): nat {
    if i + 1 < n then i + 1 else 0
  }

  function Pred(i: nat, n: nat): nat
    requires n > 0
  {
    if i > 0 then i - 1 else n - 1
  }

  // The array index of the slot `i` places from the one at index `base`.
  function Turn(base: int, i: int, n: int): int {
    if base + i < n then base + i else base + i - n
  }

  // `win` first, then nothing but fresh slots.
  ghost predicate Padded(views: seq<Slot>, win: seq<Slot>) {
    && |win| <= |views|
    && (forall i :: 0 <= i < |views| ==> views[i] == if i < |win| then win[i] else FRESH)
  }

  lemma PaddedFrom(views: seq<Slot>, win: seq<Slot>, k: nat)
    requires Padded(views, win) && k < |win|
    requires forall i :: 0 <= i < k ==> win[i] == FRESH
    ensures Padded(views[k..] + views[..k], win[k..])
  {
  }

  // Where an accepted packet leaves its mark on the whole ring.
  lemma OfferPadded(c: Config, f: Fifo, p: Packet, views: seq<Slot>)
    requires |f.win| > 0 && Offer(c, f, p).Some?
    requires |views| == c.slots && Padded(views, f.win)
    ensures var t, n := Time(c, p), |f.win| - 1;
            var g := Offer(c, f, p).value;
            if t <= views[n].left
            then |g.win| == n + 1 && Padded(views[n := Share(views[n], p, t)], g.win)
            else var m := n + Steps(t) + 1;
                 |g.win| == m + 1 && m < |views| && views[m] == FRESH && Padded(views[m := Open(p, t)], g.win)
  {
  }

  /* ---------- building the ring ---------- */

  const U32: nat := 0x1_0000_0000

  // Bytes the ring may hold: `time` slots of a millisecond at `rate` bytes per second.  The product is taken
  // in 32 bits.
  function TotalLen(time: nat, rate: nat): nat {
    time * rate % U32 / 1000
  }

  // So the capacity is the intended one exactly when the product fits.
  lemma CapacityIntendedIff(time: nat, rate: nat)
    ensures TotalLen(time, rate) == time * rate / 1000 <==> time * rate < U32
  {
    var x := time * rate;
    if x >= U32 {
      assert x % U32 <= x - U32;
    }
  }

  // A second of slots at ten megabytes a second gets a seventh of the ten megabytes meant.
  lemma CapacityWraps()
    ensures TotalLen(1_000, 10_000_000) == 1_410_065 < 1_000 * 10_000_000 / 1000
  {
    assert 1_000 * 10_000_000 - 2 * U32 == 1_410_065_408;
  }

  // kmalloc of `number` slots: distinct objects with arbitrary contents.
  method Allocate(number: nat, junk: nat) returns (fifo: seq<Knode>)
    ensures |fifo| == number && Numbered(fifo)
    ensures forall j :: 0 <= j < number ==> fresh(fifo[j]) && fresh(fifo[j].kunit) && fifo[j].kunit.list == []
  {
    fifo := [];
    while |fifo| < number
      invariant |fifo| <= number && Numbered(fifo)
      invariant forall j :: 0 <= j < |fifo| ==>
        fresh(fifo[j]) && fresh(fifo[j].kunit) && fifo[j].kunit.list == []
    {
      var node := new Knode(junk, null, null, |fifo|);
      fifo := fifo + [node];
    }
  }

  ghost predicate Numbered(fifo: seq<Knode>) {
    forall j :: 0 <= j < |fifo| ==> fifo[j].index == fifo[j].kunit.index == j
  }

  // The first loop of kfifo_init: every slot empty, with its full budget and nothing owed.
  method Clear(fifo: seq<Knode>)
    requires Numbered(fifo)
    modifies set j | 0 <= j < |fifo| :: fifo[j]
    modifies set j | 0 <= j < |fifo| :: fifo[j].kunit
    ensures forall j :: 0 <= j < |fifo| ==>
      fifo[j].kunit.Valid() && fifo[j].kunit.list == [] && fifo[j].View() == FRESH
  {
    for i := 0 to |fifo|
      invariant forall j :: 0 <= j < i ==>
        fifo[j].kunit.Valid() && fifo[j].kunit.list == [] && fifo[j].View() == FRESH
    {
      fifo[i].Finish();
    }
  }

  // The second loop and the four assignments behind it: one cycle in array order.
  method Chain(fifo: seq<Knode>)
    requires |fifo| >= 2 && Numbered(fifo)
    modifies (set j | 0 <= j < |fifo| :: fifo[j])`next, (set j | 0 <= j < |fifo| :: fifo[j])`prev
    ensures forall j :: 0 <= j < |fifo| ==>
      fifo[j].next == fifo[Succ(j, |fifo|)] && fifo[j].prev == fifo[Pred(j, |fifo|)]
  {
    var number := |fifo|;
    for i := 1 to number - 1
      invariant forall j :: 1 <= j < i ==> fifo[j].prev == fifo[j - 1] && fifo[j].next == fifo[j + 1]
    {
      fifo[i].prev := fifo[i - 1];
      fifo[i].next := fifo[i + 1];
    }
    fifo[0].next := fifo[1];
    fifo[0].prev := fifo[number - 1];
    fifo[number - 1].next := fifo[0];
    fifo[number - 1].prev := fifo[number - 2];
  }

  /* ---------- the queue ---------- */

  class KfifoQueueData {
    var totalLen: nat
    var slen: nat
    var pread: Knode?
    var pwrite: Knode?
    const l2t: nat -> nat  // psched_l2t_ns at the configured rate

    ghost var base: nat          // the array index of pread
    ghost var ring: seq<Knode>   // all slots, from pread onwards
    ghost var views: seq<Slot>   // what each of them holds
    ghost var window: seq<Slot>  // the views from pread to pwrite
    ghost var nodes: set<Knode>
    ghost var kunits: set<KunitSkbHead>
    ghost var held: set<SkBuff>

    ghost function Settings(): Config
      reads `ring, `totalLen
    {
      Config(|ring|, totalLen, l2t)
    }

    // The queue this ring implements.
    ghost function Abs(): Fifo
      reads `window, `slen
    {
      Fifo(window, slen)
    }

    // The slots are distinct objects with distinct list heads.
    ghost predicate Slots()
      reads `base, `ring, `nodes, `kunits
    {
      && |ring| >= 2 && base < |ring|
      && (forall i :: 0 <= i < |ring| ==> ring[i] in nodes && ring[i].kunit in kunits)
      && (forall i :: 0 <= i < |ring| ==> ring[i].index == ring[i].kunit.index == Turn(base, i, |ring|))
    }

    // One cycle through all slots, with `next` and `prev` mutually inverse.
    ghost predicate Links()
      requires Slots()
      reads `base, `ring, `nodes, `kunits, nodes`next, nodes`prev
    {
      && (forall i {:trigger ring[i].next} :: 0 <= i < |ring| ==> ring[i].next == ring[Succ(i, |ring|)])
      && (forall i {:trigger ring[i].prev} :: 0 <= i < |ring| ==> ring[i].prev == ring[Pred(i, |ring|)])
    }

    // The cycle as seen from pread.
    ghost predicate Cycle()
      reads `base, `ring, `pread, `nodes, `kunits, nodes`next, nodes`prev
    {
      Slots() && Links() && pread == ring[0]
    }

    // A well formed packet list in every slot, and no packet on two of them.
    ghost predicate Lists()
      requires Slots()
      reads `base, `ring, `views, `nodes, `kunits, `held
      reads nodes`pkt, nodes`slen, nodes`leftTime, nodes`sleepTime, kunits, held
    {
      && (forall i, k {:trigger ring[i].kunit.list[k]} ::
            0 <= i < |ring| && 0 <= k < |ring[i].kunit.list| ==> ring[i].kunit.list[k] in held)
      && (forall i {:trigger ring[i].kunit.Valid()} :: 0 <= i < |ring| ==> ring[i].kunit.Valid())
      && (forall x :: x in held ==> x.holder != null)
      && |views| == |ring|
      && (forall i {:trigger ring[i].View()} :: 0 <= i < |ring| ==> ring[i].View() == views[i])
    }

    // The ring holds `window` from pread to pwrite and is fresh everywhere else.
    ghost predicate Shape()
      reads this, nodes, kunits, held
    {
      && Cycle() && Lists()
      && 1 <= |window| && Padded(views, window)
      && pwrite == ring[|window|-1]
    }

    ghost predicate Valid()
      reads this, nodes, kunits, held
    {
      Shape() && Inv(Settings(), Abs())
    }

    /* ---------- conflict check and write pointer ---------- */

    // 0 when the write pointer may advance `step` places: fewer than the places left before it meets
    // the read pointer, and not while both stand on a slot that still holds a packet.
    method WrConflict(step: nat) returns (err: int)
      requires Shape()
      ensures err == 0 || err == -1
      ensures err == 0 <==> step <= |ring| - |window| && !(|window| == 1 && window[0].pkt > 0)
    {
      ghost var at := |window| - 1;
      assert pwrite.View() == views[at];
      var temp := pwrite;
      if temp.pkt > 0 && pwrite == pread {
        return -1;
      }
      var i := 0;
      while i < step
        invariant 0 <= i <= step
        invariant at == |window| - 1 + i < |ring| && temp == ring[at]
      {
        temp := temp.next;
        at := Succ(at, |ring|);
        if temp == pread {
          return -1;
        }
        i := i + 1;
      }
      return 0;
    }

    // Takes `costTime` off the budget of the write slot.
    method Charge(costTime: nat, ghost w: nat)
      requires Slots() && Lists() && w < |ring| && pwrite == ring[w] && costTime <= views[w].left
      modifies `views, pwrite`leftTime
      ensures Lists() && views == old(views)[w := old(views)[w].(left := old(views)[w].left - costTime)]
    {
      assert pwrite.View() == views[w];
      pwrite.leftTime := pwrite.leftTime - costTime;
      views := views[w := pwrite.View()];
    }

    // Advances the write pointer `step` places and charges the slot it arrives at.  When the read
    // pointer is in the way it stops short of it, charges nothing and reports -1.
    method WriteForward(step: nat, costTime: nat, ghost w: nat) returns (err: int)
      requires Cycle() && Lists() && w < |ring| && pwrite == ring[w]
      requires w + step < |ring| ==> costTime <= views[w + step].left
      modifies `pwrite, `views, nodes`leftTime
      ensures err == 0 || err == -1
      ensures err == 0 <==> w + step < |ring|
      ensures pwrite == ring[if w + step < |ring| then w + step else |ring| - 1]
      ensures Lists() && views == if w + step < |ring|
        then old(views)[w + step := old(views)[w + step].(left := old(views)[w + step].left - costTime)]
        else old(views)
    {
      var i := 0;
      while i < step
        invariant 0 <= i <= step
        invariant w + i < |ring| && pwrite == ring[w + i]
        invariant unchanged(`views) && unchanged(nodes)
      {
        if pwrite.next == null {
          return -1;
        }
        if pwrite.next == pread {
          return -1;
        }
        pwrite := pwrite.next;
        i := i + 1;
      }
      Charge(costTime, w + step);
      return 0;
    }

    /* ---------- enqueue ---------- */

    // Only slot `w` has changed, and packets that are on its list.
    twostate predicate OnlySlot(w: nat)
      requires Slots() && w < |ring|
      reads this, nodes, kunits, held
    {
      && ring == old(ring)
      && (forall i :: 0 <= i < |ring| && i != w ==> unchanged(ring[i]) && unchanged(ring[i].kunit))
      && (forall x :: x in old(held) && x in held && old(x.holder) != ring[w].kunit ==> unchanged(x))
    }

    // Then the lists of the other slots are as they were.
    twostate lemma ListsKept(w: nat)
      requires old(Slots() && Lists()) && Slots()
      requires w < |ring| && OnlySlot(w)
      requires views == old(views)[w := ring[w].View()]
      requires forall x :: x in old(held) && old(x.holder) != ring[w].kunit ==> x in held
      requires ring[w].kunit.Valid() && forall x :: x in ring[w].kunit.list ==> x in held
      requires forall x :: x in held ==> x.holder != null
      ensures Lists()
    {
      forall i | 0 <= i < |ring| && i != w
        ensures ring[i].kunit.Valid() && ring[i].View() == old(ring[i].View())
        ensures forall k :: 0 <= k < |ring[i].kunit.list| ==> ring[i].kunit.list[k] in held
      {
        var list := ring[i].kunit.list;
        assert old(ring[i].kunit.Valid());
        assert old(ring[i].View()) == old(views)[i];
        assert forall k :: 0 <= k < |list| ==> list[k] == ring[i].kunit.list[k] && unchanged(list[k]);
        ring[i].kunit.Kept();
      }
    }

    // The write slot takes the packet.
    method Store(skb: SkBuff, skbTime: nat, ghost w: nat, ghost win': seq<Slot>)
      requires Slots() && Lists() && w < |ring| && pwrite == ring[w]
      requires skb.holder == null && skb.next == null
      modifies `slen, `held, `views, `window, pwrite`sleepTime, pwrite`pkt, pwrite`slen, pwrite.kunit`head,
        pwrite.kunit`tail, pwrite.kunit`list, pwrite.kunit`pkts, held`next, skb`next, skb`holder, skb`place
      ensures Lists() && held == old(held) + {skb} && slen == old(slen) + skb.pkt.len && window == win'
      ensures views == old(views)[w := Stored(old(views)[w], skb, skbTime)]
    {
      slen := slen + skb.pkt.len;
      window := win';
      StoreView(skb, skbTime, w);
    }

    ghost function Stored(s: Slot, skb: SkBuff, skbTime: nat): Slot {
      s.(pkts := s.pkts + [skb.pkt], pkt := s.pkt + 1, slen := s.slen + skb.pkt.len, sleep := s.sleep + skbTime)
    }

    method StoreView(skb: SkBuff, skbTime: nat, ghost w: nat)
      requires Slots() && Lists() && w < |ring| && pwrite == ring[w]
      requires skb.holder == null && skb.next == null
      modifies `held, `views, pwrite`sleepTime, pwrite`pkt, pwrite`slen, pwrite.kunit`head,
        pwrite.kunit`tail, pwrite.kunit`list, pwrite.kunit`pkts, held`next, skb`next, skb`holder, skb`place
      ensures Lists() && held == old(held) + {skb}
      ensures views == old(views)[w := Stored(old(views)[w], skb, skbTime)]
    {
      Attach(skb, skbTime, w);
      views := views[w := ring[w].View()];
      ListsKept(w);
    }

    method Attach(skb: SkBuff, skbTime: nat, ghost w: nat)
      requires Slots() && Lists() && w < |ring| && pwrite == ring[w]
      requires skb.holder == null && skb.next == null
      modifies `held, pwrite`sleepTime, pwrite`pkt, pwrite`slen, pwrite.kunit`head,
        pwrite.kunit`tail, pwrite.kunit`list, pwrite.kunit`pkts, held`next, skb`next, skb`holder, skb`place
      ensures held == old(held) + {skb} && OnlySlot(w) && ring[w].kunit.Valid()
      ensures forall x :: x in ring[w].kunit.list ==> x in held
      ensures forall x :: x in held ==> x.holder != null
      ensures ring[w].View() == Stored(views[w], skb, skbTime)
    {
      assert pwrite.kunit.Valid() && pwrite.View() == views[w];
      pwrite.Append(skb, skbTime);
      held := held + {skb};
      assert forall x :: x in held ==> x == skb || x.holder == old(x.holder);
    }

    // The branch for a packet that fits into the time left of the write slot, once it is known to be
    // acceptable.
    method PlaceHere(skb: SkBuff, skbTime: nat)
      requires Shape() && skb.holder == null && skb.next == null
      requires skbTime == Time(Settings(), skb.pkt) <= window[|window|-1].left
      requires Offer(Settings(), Abs(), skb.pkt).Some?
      modifies `window, `slen, `held, `views, nodes, kunits, held, skb
      ensures Shape() && held == old(held) + {skb}
      ensures Some(Abs()) == old(Offer(Settings(), Abs(), skb.pkt))
    {
      ghost var w := |window| - 1;
      OfferPadded(Settings(), Abs(), skb.pkt, views);
      Charge(skbTime, w);
      Store(skb, skbTime, w, old(Offer(Settings(), Abs(), skb.pkt)).value.win);
      ghost var cycle := Cycle();
      assert cycle;
    }

    // The branch for a packet that needs slots of its own: it ends `step + 1` places further on.
    method PutAhead(skb: SkBuff, skbTime: nat, step: nat, ghost w: nat, ghost win': seq<Slot>)
      requires Cycle() && Lists() && w + step + 1 < |ring| && pwrite == ring[w]
      requires skb.holder == null && skb.next == null
      requires step == Steps(skbTime) && views[w + step + 1] == FRESH
      modifies `pwrite, `slen, `held, `views, `window, nodes, kunits, held, skb
      ensures window == win' && pwrite == ring[w + step + 1]
      ensures Cycle() && Lists() && held == old(held) + {skb} && slen == old(slen) + skb.pkt.len
      ensures views == old(views)[w + step + 1 := Open(skb.pkt, skbTime)]
    {
      var costTime := skbTime - step * UNIT_TIME;
      var err := WriteForward(step + 1, costTime, w);
      assert err == 0;  // what the conflict check admits, the move can do: its drop is never taken
      Store(skb, skbTime, w + step + 1, win');
      assert [] + [skb.pkt] == [skb.pkt];
      ghost var cycle := Cycle();
      assert cycle;
    }

    method PlaceAhead(skb: SkBuff, skbTime: nat)
      requires Shape() && skb.holder == null && skb.next == null
      requires skbTime == Time(Settings(), skb.pkt) > window[|window|-1].left
      requires Offer(Settings(), Abs(), skb.pkt).Some?
      modifies `window, `pwrite, `slen, `held, `views, nodes, kunits, held, skb
      ensures Shape() && held == old(held) + {skb}
      ensures Some(Abs()) == old(Offer(Settings(), Abs(), skb.pkt))
    {
      OfferPadded(Settings(), Abs(), skb.pkt, views);
      PutAhead(skb, skbTime, Steps(skbTime), |window| - 1, Offer(Settings(), Abs(), skb.pkt).value.win);
    }

    // Their conflict checks in front of them.
    method TryHere(skb: SkBuff, skbTime: nat) returns (ret: Verdict)
      requires Shape() && skb.holder == null && skb.next == null
      requires skbTime == Time(Settings(), skb.pkt) <= window[|window|-1].left
      requires skb.pkt.len + slen <= totalLen
      modifies `window, `slen, `held, `views, nodes, kunits, held, skb
      ensures Shape() && Placed(skb, ret)
    {
      var err := WrConflict(0);
      if err == -1 {
        return Drop;
      }
      PlaceHere(skb, skbTime);
      return Success;
    }

    method TryAhead(skb: SkBuff, skbTime: nat) returns (ret: Verdict)
      requires Shape() && skb.holder == null && skb.next == null
      requires skbTime == Time(Settings(), skb.pkt) > window[|window|-1].left
      requires skb.pkt.len + slen <= totalLen
      modifies `window, `pwrite, `slen, `held, `views, nodes, kunits, held, skb
      ensures Shape() && Placed(skb, ret)
    {
      var err := WrConflict(Steps(skbTime) + 1);
      if err == -1 {
        return Drop;
      }
      PlaceAhead(skb, skbTime);
      return Success;
    }

    // The outcome SlotWindow.Offer prescribes, and on a drop no change at all.
    twostate predicate Placed(skb: SkBuff, ret: Verdict)
      reads this, nodes, kunits, held, skb
    {
      && Settings() == old(Settings()) && ring == old(ring) && nodes == old(nodes) && kunits == old(kunits)
      && old(|window|) > 0
      && match old(Offer(Settings(), Abs(), skb.pkt))
         case Some(g) => ret == Success && Abs() == g && held == old(held) + {skb}
         case None => ret == Drop && unchanged(this) && unchanged(nodes) && unchanged(kunits)
                      && unchanged(held) && unchanged(skb)
    }

    // kfifo_enqueue.
    method Enqueue(skb: SkBuff) returns (ret: Verdict)
      requires Valid() && skb.holder == null && skb.next == null
      modifies this, nodes, kunits, held, skb
      ensures Valid() && Placed(skb, ret)
    {
      var skbLen := skb.pkt.len;
      if skbLen + slen > totalLen {
        return Drop;
      }
      var skbTime := l2t(skbLen);
      assert pwrite.View() == window[|window|-1];
      if skbTime > pwrite.leftTime {
        ret := TryAhead(skb, skbTime);
      } else {
        ret := TryHere(skb, skbTime);
      }
      if ret == Success {
        OfferAppends(old(Settings()), old(Abs()), skb.pkt);
      }
    }

    /* ---------- read pointer and dequeue ---------- */

    // The same ring, seen from `k` places further on.
    twostate predicate Turned(k: nat)
      requires old(Slots()) && k < old(|ring|)
      reads `base, `ring, `views, `nodes, `kunits, `held, nodes, kunits, held
    {
      var n := old(|ring|);
      && base == Turn(old(base), k, n) && |ring| == n
      && (forall i :: 0 <= i < n ==> ring[i] == old(ring)[Turn(k, i, n)])
      && nodes == old(nodes) && kunits == old(kunits) && held == old(held)
      && unchanged(nodes) && unchanged(kunits) && unchanged(held)
    }

    twostate lemma LinksTurned(k: nat)
      requires old(Slots() && Links()) && k < old(|ring|) && Turned(k)
      ensures Slots() && Links()
    {
      var n := |ring|;
      forall i | 0 <= i < n
        ensures ring[i].next == ring[Succ(i, n)] && ring[i].prev == ring[Pred(i, n)]
      {
        var j := Turn(k, i, n);
        assert old(ring)[j].next == old(ring)[Succ(j, n)] && old(ring)[j].prev == old(ring)[Pred(j, n)];
        assert Succ(j, n) == Turn(k, Succ(i, n), n) && Pred(j, n) == Turn(k, Pred(i, n), n);
      }
    }

    twostate lemma ListsTurned(k: nat)
      requires old(Slots() && Lists()) && k < old(|ring|) && Turned(k) && Slots()
      requires views == old(views)[k..] + old(views)[..k]
      ensures Lists()
    {
      var n := |ring|;
      forall i | 0 <= i < n
        ensures ring[i].kunit.Valid() && ring[i].View() == views[i]
        ensures forall j :: 0 <= j < |ring[i].kunit.list| ==> ring[i].kunit.list[j] in held
      {
        var old_i := Turn(k, i, n);
        assert old(ring[old_i].kunit.Valid()) && old(ring[old_i].View()) == old(views)[old_i];
      }
    }

    // The read pointer has moved `k` places, past fresh slots only: the view from there.
    ghost method Rotate(k: nat)
      requires Slots() && Links() && Lists() && k < |window| && Padded(views, window)
      requires pread == ring[k] && pwrite == ring[|window|-1]
      requires forall i :: 0 <= i < k ==> window[i] == FRESH
      modifies `base, `ring, `views, `window
      ensures Shape() && window == old(window)[k..] && |ring| == old(|ring|)
    {
      PaddedFrom(views, window, k);
      base := Turn(base, k, |ring|);
      ring := ring[k..] + ring[..k];
      views := views[k..] + views[..k];
      window := window[k..];
      LinksTurned(k);
      ListsTurned(k);
    }

    // The loop of kfifo_read_forward: to the first slot that holds a packet, or to the write pointer.
    method SkipEmpty() returns (err: int, ghost k: nat)
      requires Shape() && |window| > 1
      modifies `pread
      ensures k < |window| <= |ring| && pread == ring[k] && Advance(window) == window[k..]
      ensures err == if window[k].pkt != 0 then 1 else 0
    {
      err, k := 1, 0;
      assert ring[0].View() == window[0];
      while pread.pkt == 0
        invariant k < |window| - 1 && pread == ring[k] && err == 1
        invariant forall i :: 0 <= i < k ==> window[i].pkt == 0
        invariant ring[k].View() == window[k]
        decreases |window| - k
      {
        pread := pread.next;
        k := k + 1;
        assert ring[k].View() == window[k];
        if pread == pwrite {
          err := if pread.pkt == 0 then 0 else 1;
          break;
        }
      }
      AdvanceAt(window, k);
    }

    // kfifo_read_forward, from a slot without packets and without owed delay: it passes fresh slots only.
    method ReadForward() returns (err: int)
      requires Shape()
      requires forall i :: 0 <= i < |window| - |Advance(window)| ==> window[i] == FRESH
      modifies `pread, `base, `ring, `views, `window
      ensures Shape() && window == Advance(old(window)) && |ring| == old(|ring|)
      ensures err == if old(|window|) > 1 && window[0].pkt != 0 then 1 else 0
    {
      if pread == pwrite {
        return 0;
      }
      ghost var k;
      err, k := SkipEmpty();
      Rotate(k);
    }

    // A packet that has left the slot `s` is unlinked exactly when it has emptied the slot; otherwise it still
    // points to the packet that is now the first there.
    ghost predicate Trails(skb: SkBuff, s: Slot)
      reads `held, skb, held
    {
      && (skb.next == null <==> s.pkts == [])
      && (skb.next != null ==> skb.next in held && s.pkts != [] && skb.next.pkt == s.pkts[0])
    }

    // The read slot hands out the head of its list.
    method Detach() returns (skb: SkBuff?)
      requires Slots() && Lists() && pread == ring[0]
      requires var s := views[0]; s.pkts != [] ==> s.pkt >= 1 && s.slen >= s.pkts[0].len
      modifies `held, pread`pkt, pread`slen, pread.kunit, held`holder
      ensures held == old(held) - Skbs(skb) && OnlySlot(0) && ring[0].kunit.Valid()
      ensures forall x :: x in ring[0].kunit.list ==> x in held
      ensures forall x :: x in held ==> x.holder != null
      ensures forall x :: x in old(held) && old(x.holder) != ring[0].kunit ==> x in held
      ensures views[0].pkts == [] ==> skb == null && ring[0].View() == views[0]
      ensures views[0].pkts != [] ==>
                && skb in old(held) && skb.holder == null && skb.pkt == views[0].pkts[0]
                && ring[0].View() == Popped(views[0]) && Trails(skb, ring[0].View())
    {
      assert pread.kunit.Valid() && pread.View() == views[0];
      ghost var list := pread.kunit.list;
      assert list != [] ==> list[0] in held && list[0].holder == pread.kunit;
      skb := pread.TakeHead();
      held := held - Skbs(skb);
      assert forall x :: x in held ==> x.holder == old(x.holder);
      forall x | x in pread.kunit.list ensures x in held {
        assert x in list;
      }
    }

    // And the views and the byte counter of the queue follow.
    method DetachHead(ghost win': seq<Slot>) returns (skb: SkBuff?)
      requires Slots() && Lists() && pread == ring[0]
      requires var s := views[0]; s.pkts != [] ==> s.pkt >= 1 && s.slen >= s.pkts[0].len && slen >= s.pkts[0].len
      modifies `slen, `held, `views, `window, nodes`pkt, nodes`slen, pread.kunit, held`holder
      ensures Lists() && window == win' && held == old(held) - Skbs(skb)
      ensures old(views)[0].pkts == [] ==> skb == null && views == old(views) && slen == old(slen)
      ensures old(views)[0].pkts != [] ==>
                && skb in old(held) && skb.holder == null && skb.pkt == old(views)[0].pkts[0]
                && slen == old(slen) - skb.pkt.len
                && views == old(views)[0 := Popped(old(views)[0])] && Trails(skb, views[0])
    {
      skb := Detach();
      if skb != null {
        slen := slen - skb.pkt.len;
      }
      window, views := win', views[0 := ring[0].View()];
      ListsKept(0);
    }

    method PopRead() returns (skb: SkBuff?)
      requires Shape()
      requires SafeHead(Abs())
      modifies `slen, `held, `views, `window, nodes, kunits, held
      ensures Shape() && held == old(held) - Skbs(skb)
      ensures Pop(old(Abs())) == (if skb == null then None else Some(skb.pkt), Abs())
      ensures skb != null ==> skb in old(held) && skb.holder == null && Trails(skb, window[0])
    {
      skb := DetachHead(Pop(Abs()).1.win);
      ghost var cycle := Cycle();
      assert cycle;
    }

    // kfifo_dequeue.
    method Dequeue() returns (skb: SkBuff?)
      requires Valid()
      modifies this, nodes, kunits, held
      ensures Valid() && Settings() == old(Settings()) && nodes == old(nodes) && kunits == old(kunits)
      ensures Take(old(Abs())) == (if skb == null then None else Some(skb.pkt), Abs())
      ensures held == old(held) - Skbs(skb)
      ensures skb != null ==> skb in old(held) && skb.holder == null && Trails(skb, window[0])
    {
      TakeReady(Settings(), Abs());
      skb := TakeRead();
      TakeKeeps(old(Settings()), old(Abs()));
    }

    method TakeRead() returns (skb: SkBuff?)
      requires Shape() && Ready(Abs())
      modifies `pread, `slen, `base, `ring, `held, `views, `window, nodes, kunits, held
      ensures Shape() && |ring| == old(|ring|) && held == old(held) - Skbs(skb)
      ensures Take(old(Abs())) == (if skb == null then None else Some(skb.pkt), Abs())
      ensures skb != null ==> skb in old(held) && skb.holder == null && Trails(skb, window[0])
    {
      assert pread.View() == window[0];
      if pread.pkt == 0 {
        if pread.sleepTime > 0 {
          return null;
        }
        var err := ReadForward();
        if err != 1 {
          return null;
        }
      }
      skb := PopRead();
    }

    method ClearRead()
      requires Slots() && Lists() && pread == ring[0] && views[0].pkts == []
      modifies `views, pread`pkt, pread`slen, pread`leftTime, pread`sleepTime, pread.kunit
      ensures Lists() && views == old(views)[0 := FRESH]
    {
      assert pread.kunit.Valid() && pread.View() == views[0];
      pread.Finish();
      views := views[0 := FRESH];
      ListsKept(0);
    }

    // kfifo_finish_node on the read slot.
    method FinishRead()
      requires Shape() && window[0].pkts == []
      modifies `views, `window, nodes, kunits
      ensures Shape() && window == old(window)[0 := FRESH]
    {
      ClearRead();
      window := window[0 := FRESH];
      ghost var cycle := Cycle();
      assert cycle;
    }

    // The kfifo part of tsf_dequeue: when no packet comes out, the drained read slot is finished and the
    // delay it owes is handed on to tsf_delay.
    method Poll() returns (skb: SkBuff?, delay: nat)
      requires Valid()
      modifies this, nodes, kunits, held
      ensures Valid() && Settings() == old(Settings()) && nodes == old(nodes) && kunits == old(kunits)
      ensures SlotWindow.Poll(old(Abs())) == Polled(if skb == null then None else Some(skb.pkt), delay, Abs())
      ensures held == old(held) - Skbs(skb)
      ensures skb != null ==> skb in old(held) && skb.holder == null && Trails(skb, window[0])
    {
      TakeReady(Settings(), Abs());
      skb, delay := PollRead();
      PollTakesHead(old(Settings()), old(Abs()));
    }

    method PollRead() returns (skb: SkBuff?, delay: nat)
      requires Shape() && Ready(Abs())
      modifies `pread, `slen, `base, `ring, `held, `views, `window, nodes, kunits, held
      ensures Shape() && |ring| == old(|ring|) && held == old(held) - Skbs(skb)
      ensures SlotWindow.Poll(old(Abs())) == Polled(if skb == null then None else Some(skb.pkt), delay, Abs())
      ensures skb != null ==> skb in old(held) && skb.holder == null && Trails(skb, window[0])
    {
      delay := 0;
      skb := TakeRead();
      if skb == null {
        assert pread.View() == window[0];
        if pread.pkt == 0 && pread.sleepTime > 0 {
          delay := pread.sleepTime;
          FinishRead();
        }
      }
    }

    /* ---------- construction ---------- */

    // Zeroed private data.
    constructor (l2t: nat -> nat)
      ensures slen == 0 && this.l2t == l2t
    {
      this.l2t := l2t;
      totalLen, slen, pread, pwrite := 0, 0, null, null;
      base, ring, views, window, nodes, kunits, held := 0, [], [], [], {}, {}, {};
    }

    // kfifo_init.  `memory` tells whether kmalloc succeeds.  `slen` is left as it was: the queue is in its
    // initial state exactly when that was zero.
    method Init(time: nat, rate: nat, memory: bool, junk: nat) returns (err: int)
      requires time < U32 && rate < U32
      modifies this
      ensures err == 0 || err == -1
      ensures err == 0 <==> memory && time >= 2
      ensures memory ==> totalLen == TotalLen(time, rate)
      ensures slen == old(slen)
      ensures err == 0 ==> Shape() && |ring| == time && window == [FRESH] && held == {}
      ensures err == 0 ==> fresh(nodes) && fresh(kunits)
      ensures err == 0 ==> (Valid() <==> slen == 0)
    {
      if !memory {
        return -1;
      }
      var fifo := Allocate(time, junk);
      totalLen := TotalLen(time, rate);
      if time == 0 {
        return -1;  // kmalloc(0): no slot for the pointers to refer to
      }
      pread, pwrite := fifo[0], fifo[0];
      if time < 2 {
        return -1;
      }
      Build(fifo);
      InitialInv(Settings(), slen);
      return 0;
    }

    method Build(fifo: seq<Knode>)
      requires |fifo| >= 2 && Numbered(fifo) && pread == pwrite == fifo[0]
      modifies `base, `ring, `views, `window, `nodes, `kunits, `held
      modifies set j | 0 <= j < |fifo| :: fifo[j]
      modifies set j | 0 <= j < |fifo| :: fifo[j].kunit
      ensures Shape() && |ring| == |fifo| && window == [FRESH] && held == {}
      ensures nodes == set j | 0 <= j < |fifo| :: fifo[j]
      ensures kunits == set j | 0 <= j < |fifo| :: fifo[j].kunit
    {
      Clear(fifo);
      Chain(fifo);
      AdoptSlots(fifo);
      AdoptViews();
    }

    // The ghost view of the ring just built: first the slots, then what they hold.
    ghost method AdoptSlots(fifo: seq<Knode>)
      requires |fifo| >= 2 && Numbered(fifo) && pread == fifo[0]
      requires forall j :: 0 <= j < |fifo| ==>
        fifo[j].next == fifo[Succ(j, |fifo|)] && fifo[j].prev == fifo[Pred(j, |fifo|)]
      modifies `base, `ring, `nodes, `kunits
      ensures Cycle() && ring == fifo
      ensures nodes == set j | 0 <= j < |fifo| :: fifo[j]
      ensures kunits == set j | 0 <= j < |fifo| :: fifo[j].kunit
    {
      nodes := set j | 0 <= j < |fifo| :: fifo[j];
      kunits := set j | 0 <= j < |fifo| :: fifo[j].kunit;
      base, ring := 0, fifo;
    }

    ghost method AdoptViews()
      requires Cycle() && pwrite == ring[0]
      requires forall j :: 0 <= j < |ring| ==>
        ring[j].kunit.Valid() && ring[j].kunit.list == [] && ring[j].View() == FRESH
      modifies `views, `window, `held
      ensures Shape() && window == [FRESH] && held == {}
    {
      held, window, views := {}, [FRESH], seq(|ring|, i => FRESH);
    }
  }
}
