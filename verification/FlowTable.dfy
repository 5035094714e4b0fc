/**
 The multi-stream meter: a table from port pairs to stream numbers, and for every stream a byte counter
 and a queue of samples.  The table is proved against functions of the whole history of packets and ticks.
 */
module FlowTable {
  import opened SampleQueue
  import RateEstimator

  datatype Pair = Pair(src: int, dst: int)

  // A packet of a stream with its length field, or a timer tick.
  datatype Event = Packet(pair: Pair, len: int) | Tick

  // Streams the arrays have room for.
  const QN: nat := 65536

  /* ---------- what the history says ---------- */

  // The pairs seen, in order of first appearance: stream `i + 1` is the one at index `i`.
  function Flows(es: seq<Event>): seq<Pair> {
    if es == [] then []
    else
      var f, e := Flows(es[..|es|-1]), es[|es|-1];
      if e.Packet? && e.pair !in f then f + [e.pair] else f
  }

  // What a pair has sent since the last tick.
  function Live(es: seq<Event>, p: Pair): int {
    if es == [] then 0
    else
      var before, e := es[..|es|-1], es[|es|-1];
      match e
      case Tick => 0
      case Packet(pair, len) => Live(before, p) + if pair == p then len - PACKET_HEADER else 0
  }

  // What it has sent between each two ticks since it appeared.
  function Samples(es: seq<Event>, p: Pair): seq<int> {
    if es == [] then []
    else
      var before, e := es[..|es|-1], es[|es|-1];
      if e.Tick? && p in Flows(before) then Samples(before, p) + [Live(before, p)] else Samples(before, p)
  }

  function Total(es: seq<Event>, p: Pair): int {
    if es == [] then 0
    else
      var before, e := es[..|es|-1], es[|es|-1];
      Total(before, p) + if e.Packet? && e.pair == p then e.len - PACKET_HEADER else 0
  }

  function Sum(s: seq<int>): int {
    if s == [] then 0 else Sum(s[..|s|-1]) + s[|s|-1]
  }

  // One more packet, one more tick.
  lemma AfterPacket(es: seq<Event>, pair: Pair, len: int)
    ensures var es' := es + [Packet(pair, len)];
            && Flows(es') == (if pair in Flows(es) then Flows(es) else Flows(es) + [pair])
            && (forall p :: Live(es', p) == Live(es, p) + if pair == p then len - PACKET_HEADER else 0)
            && (forall p :: Samples(es', p) == Samples(es, p))
  {
    assert (es + [Packet(pair, len)])[..|es|] == es;
  }

  lemma AfterTick(es: seq<Event>)
    ensures var es' := es + [Tick];
            && Flows(es') == Flows(es)
            && (forall p :: Live(es', p) == 0)
            && (forall p :: p in Flows(es) ==> Samples(es', p) == Samples(es, p) + [Live(es, p)])
  {
    assert (es + [Tick])[..|es|] == es;
  }

  // Before its first packet a pair has neither traffic nor samples.
  lemma {:induction false} Unseen(es: seq<Event>, p: Pair)
    requires p !in Flows(es)
    ensures Live(es, p) == 0 && Samples(es, p) == [] && Total(es, p) == 0
  {
    if es != [] {
      Unseen(es[..|es|-1], p);
    }
  }

  lemma {:induction false} FlowsDistinct(es: seq<Event>)
    ensures forall i, j :: 0 <= i < j < |Flows(es)| ==> Flows(es)[i] != Flows(es)[j]
  {
    if es != [] {
      FlowsDistinct(es[..|es|-1]);
    }
  }

  // A stream keeps its number for good.
  lemma {:induction false} NumbersStay(es: seq<Event>, fs: seq<Event>)
    ensures Flows(es) <= Flows(es + fs)
    decreases |fs|
  {
    if fs == [] {
      assert es + fs == es;
    } else {
      NumbersStay(es, fs[..|fs|-1]);
      assert (es + fs)[..|es + fs| - 1] == es + fs[..|fs|-1];
    }
  }

  // The bytes turned into samples and those still counting are all the bytes of the pair.
  lemma {:induction false} BytesAccounted(es: seq<Event>, p: Pair)
    ensures Sum(Samples(es, p)) + Live(es, p) == Total(es, p)
  {
    if es != [] {
      var before := es[..|es|-1];
      BytesAccounted(before, p);
      if es[|es|-1].Tick? {
        if p in Flows(before) {
          assert Samples(es, p)[..|Samples(before, p)|] == Samples(before, p);
        } else {
          Unseen(before, p);
        }
      }
    }
  }

  // A pair has a number exactly when one of its packets has come.
  lemma {:induction false} SeenIff(es: seq<Event>, p: Pair)
    ensures p in Flows(es) <==> exists k :: 0 <= k < |es| && es[k].Packet? && es[k].pair == p
  {
    if es != [] {
      var before := es[..|es|-1];
      SeenIff(before, p);
      assert forall k :: 0 <= k < |before| ==> es[k] == before[k];
    }
  }

  // No tick among these events.
  ghost predicate Quiet(es: seq<Event>) {
    forall k :: 0 <= k < |es| ==> es[k].Packet?
  }

  lemma {:induction false} QuietTraffic(es: seq<Event>, fs: seq<Event>, p: Pair)
    requires Quiet(fs)
    ensures Live(es + fs, p) == Live(es, p) + Total(fs, p) && Samples(es + fs, p) == Samples(es, p)
    decreases |fs|
  {
    if fs == [] {
      assert es + fs == es;
    } else {
      QuietTraffic(es, fs[..|fs|-1], p);
      assert (es + fs)[..|es + fs| - 1] == es + fs[..|fs|-1];
    }
  }

  // A sample of a pair is its traffic between two ticks, and every tick makes one, or none before its first packet.
  lemma TickReports(es: seq<Event>, fs: seq<Event>, p: Pair)
    requires Quiet(fs)
    ensures var ticked := es + [Tick];
            var all := ticked + fs;
            Samples(all + [Tick], p) == if p in Flows(all) then Samples(ticked, p) + [Total(fs, p)] else []
  {
    var ticked := es + [Tick];
    var all := ticked + fs;
    QuietTraffic(ticked, fs, p);
    assert ticked[..|es|] == es && (all + [Tick])[..|all|] == all;
    if p !in Flows(all) {
      Unseen(all, p);
    }
  }

  /* ---------- the books ---------- */

  // For every stream, in order of its number: the pair, the bytes since the last tick, the samples so far.
  datatype Book = Book(flows: seq<Pair>, live: seq<int>, samples: seq<seq<int>>)

  predicate WellFormed(b: Book) {
    |b.flows| == |b.live| == |b.samples|
  }

  function IndexOf(flows: seq<Pair>, p: Pair): (i: nat)
    ensures i <= |flows|
    ensures i == |flows| <==> p !in flows
    ensures i < |flows| ==> flows[i] == p
  {
    if flows == [] || flows[0] == p then 0 else 1 + IndexOf(flows[1..], p)
  }

  // A new pair opens a stream.
  function Open(b: Book, p: Pair): (b': Book)
    requires WellFormed(b) && p !in b.flows
    ensures WellFormed(b')
  {
    Book(b.flows + [p], b.live + [0], b.samples + [[]])
  }

  function Bump(b: Book, i: nat, bytes: int): (b': Book)
    requires WellFormed(b) && i < |b.flows|
    ensures WellFormed(b')
  {
    b.(live := b.live[i := b.live[i] + bytes])
  }

  // And the packet counts for its stream.
  function Arrive(b: Book, p: Pair, len: int): (b': Book)
    requires WellFormed(b)
    ensures WellFormed(b')
  {
    var o := if p in b.flows then b else Open(b, p);
    Bump(o, IndexOf(o.flows, p), len - PACKET_HEADER)
  }

  // Every counter becomes a sample.
  function Close(b: Book): (b': Book)
    requires WellFormed(b)
    ensures WellFormed(b')
  {
    Book(b.flows, seq(|b.live|, i => 0),
         seq(|b.samples|, i requires 0 <= i < |b.samples| => b.samples[i] + [b.live[i]]))
  }

  function BookOf(es: seq<Event>): (b: Book)
    ensures WellFormed(b)
  {
    if es == [] then Book([], [], [])
    else
      var b := BookOf(es[..|es|-1]);
      match es[|es|-1]
      case Packet(p, len) => Arrive(b, p, len)
      case Tick => Close(b)
  }

  // The books kept step by step say what the history says.
  ghost predicate Tells(b: Book, es: seq<Event>) {
    && WellFormed(b) && b.flows == Flows(es)
    && (forall i :: 0 <= i < |b.flows| ==>
          b.live[i] == Live(es, b.flows[i]) && b.samples[i] == Samples(es, b.flows[i]))
  }

  lemma ArriveTells(b: Book, es: seq<Event>, p: Pair, len: int)
    requires Tells(b, es)
    ensures Tells(Arrive(b, p, len), es + [Packet(p, len)])
  {
    AfterPacket(es, p, len);
    if p !in b.flows {
      Unseen(es, p);
    }
    var es' := es + [Packet(p, len)];
    FlowsDistinct(es');
    var b' := Arrive(b, p, len);
    var k := IndexOf(b'.flows, p);
    forall i | 0 <= i < |b'.flows|
      ensures b'.live[i] == Live(es', b'.flows[i]) && b'.samples[i] == Samples(es', b'.flows[i])
    {
      assert b'.flows[i] == p <==> i == k;
    }
  }

  lemma CloseTells(b: Book, es: seq<Event>)
    requires Tells(b, es)
    ensures Tells(Close(b), es + [Tick])
  {
    AfterTick(es);
  }

  lemma {:induction false} BookTellsHistory(es: seq<Event>)
    ensures Tells(BookOf(es), es)
  {
    if es != [] {
      var before, e := es[..|es|-1], es[|es|-1];
      BookTellsHistory(before);
      assert es == before + [e];
      match e {
        case Packet(p, len) => ArriveTells(BookOf(before), before, p, len);
        case Tick => CloseTells(BookOf(before), before);
      }
    }
  }

  // Per-flow accounting over a whole history: distinct pairs, and for each of them the samples and the live
  // counter add up to everything it has sent.
  lemma FlowAccounting(es: seq<Event>, i: nat)
    requires i < |BookOf(es).flows|
    ensures var b := BookOf(es);
            Sum(b.samples[i]) + b.live[i] == Total(es, b.flows[i])
  {
    BookTellsHistory(es);
    BytesAccounted(es, BookOf(es).flows[i]);
  }

  /* ---------- the table ---------- */

  class Table {
    var mp: map<Pair, nat>
    var totIppktLen: array<int>
    var q: array<seq<real>>
    var streamId: nat
    const interval: int
    ghost var book: Book

    // The table is a bijection between the pairs seen and the numbers 1 to streamId, and under its number
    // each stream has what the books say.
    ghost predicate Valid()
      reads this, totIppktLen, q
    {
      && interval > 0 && totIppktLen.Length == QN && q.Length == QN
      && WellFormed(book) && streamId == |book.flows| < QN
      && (forall i :: 0 <= i < streamId ==> book.flows[i] in mp && mp[book.flows[i]] == i + 1)
      && (forall p :: p in mp ==> p in book.flows)
      && (forall id :: 1 <= id <= streamId ==>
            totIppktLen[id] == book.live[id - 1] && q[id] == Window(book.samples[id - 1], interval))
      && (forall id :: streamId < id < QN ==> totIppktLen[id] == 0 && q[id] == [])
    }

    constructor (interval: int)
      requires interval > 0
      ensures Valid() && book == BookOf([]) && this.interval == interval
    {
      this.interval := interval;
      mp, streamId, book := map[], 0, Book([], [], []);
      totIppktLen := new int[QN](i => 0);
      q := new seq<real>[QN](i => []);
    }

    // handle_IP behind the header checks.  A new pair beyond the last number indexes past the arrays: there
    // the model stops.
    method HandleIP(pair: Pair, len: int) returns (overrun: bool)
      requires Valid()
      modifies this, totIppktLen
      ensures Valid() && totIppktLen == old(totIppktLen) && q == old(q)
      ensures overrun <==> pair !in old(book).flows && |old(book).flows| + 1 == QN
      ensures book == if overrun then old(book) else Arrive(old(book), pair, len)
    {
      assert pair in mp <==> pair in book.flows;
      if pair !in mp {
        if streamId + 1 >= QN {
          return true;
        }
        Register(pair);
      }
      var nowId := mp[pair];
      assert IndexOf(book.flows, pair) == nowId - 1 by {
        assert book.flows[IndexOf(book.flows, pair)] == pair;
      }
      Add(nowId, len - PACKET_HEADER);
      return false;
    }

    method Add(nowId: nat, bytes: int)
      requires Valid() && 1 <= nowId <= streamId
      modifies `book, totIppktLen
      ensures Valid() && book == Bump(old(book), nowId - 1, bytes)
    {
      totIppktLen[nowId] := totIppktLen[nowId] + bytes;
      book := Bump(book, nowId - 1, bytes);
    }

    method Register(pair: Pair)
      requires Valid() && pair !in mp && pair !in book.flows && streamId + 1 < QN
      modifies `mp, `streamId, `book
      ensures Valid() && book == Open(old(book), pair) && pair in mp
    {
      streamId := streamId + 1;
      mp := mp[pair := streamId];
      book := Open(book, pair);
    }

    // The body of the loop in test_func, for one stream.
    method Sample(nowId: nat, ghost samples: seq<int>) returns (smooth: real)
      requires interval > 0 && totIppktLen.Length == q.Length == QN && 0 < nowId < QN
      requires q[nowId] == Window(samples, interval)
      modifies totIppktLen, q
      ensures totIppktLen[nowId] == 0
      ensures q[nowId] == Window(samples + [old(totIppktLen[nowId])], interval) && q[nowId] != []
      ensures RateEstimator.IsEstimate(q[nowId], smooth)
      ensures forall id :: 0 <= id < QN && id != nowId ==>
        totIppktLen[id] == old(totIppktLen[id]) && q[id] == old(q[id])
    {
      var ratio := Ratio(totIppktLen[nowId], interval);
      PushKeepsWindow(samples, interval, totIppktLen[nowId]);
      if |q[nowId]| < QUEUE_SIZE {
        q[nowId] := q[nowId] + [ratio];
      } else {
        q[nowId] := q[nowId][1..] + [ratio];
      }
      smooth := RateEstimator.GetRatio(q[nowId]);
      totIppktLen[nowId] := 0;
    }

    // test_func: a tick turns every counter into a sample.  `printed` holds the smoothed rates, stream 1 first.
    method TestFunc() returns (printed: seq<real>)
      requires Valid()
      modifies this, totIppktLen, q
      ensures Valid() && totIppktLen == old(totIppktLen) && q == old(q)
      ensures book == Close(old(book)) && |printed| == streamId
      ensures forall id :: 1 <= id <= streamId ==>
        q[id] != [] && RateEstimator.IsEstimate(q[id], printed[id - 1])
    {
      printed := [];
      for nowId := 1 to streamId + 1
        invariant totIppktLen == old(totIppktLen) && q == old(q) && unchanged(this)
        invariant |printed| == nowId - 1
        invariant forall id :: 1 <= id < nowId ==>
          && totIppktLen[id] == 0 && q[id] != []
          && q[id] == Window(book.samples[id - 1] + [book.live[id - 1]], interval)
          && RateEstimator.IsEstimate(q[id], printed[id - 1]) == true
        invariant forall id :: nowId <= id < QN ==> totIppktLen[id] == old(totIppktLen[id]) && q[id] == old(q[id])
      {
        var smooth := Sample(nowId, book.samples[nowId - 1]);
        printed := printed + [smooth];
      }
      book := Close(book);
    }
  }
}
