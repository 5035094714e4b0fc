/**
 The interval state machine of the single-stream meter: bytes are counted against the interval that is
 current when their packet arrives, and a packet behind the end of it turns the count into a sample.
 */
module IntervalMeter {
  import opened Wrappers
  import opened SampleQueue
  import RateEstimator

  // A packet that passed the header checks: when it arrived and what it counts for.
  datatype Seen = Seen(time: int, bytes: int)

  // The bytes counted for the interval that began at `from`.
  datatype Sample = Sample(from: int, bytes: int)

  // The current interval and count, and the history of packets, samples and abandoned counts.
  datatype Meter = Meter(start: int, nxtEnd: int, count: int, seen: seq<Seen>, samples: seq<Sample>,
                         abandoned: seq<Sample>)

  const IDLE := Meter(-1, -1, 0, [], [], [])

  /* ---------- one packet ---------- */

  // The first packet starts the first interval.
  function Begin(interval: int, m: Meter, now: int): Meter {
    if m.start == -1 then m.(start := now, nxtEnd := now + interval) else m
  }

  // After a silence of two intervals the current one is abandoned and a new one starts.
  function Resync(interval: int, m: Meter, now: int): Meter {
    if now - m.start >= 2 * interval
    then m.(start := now, nxtEnd := now + interval, count := 0,
            abandoned := m.abandoned + [Sample(m.start, m.count)])
    else m
  }

  // Behind its end the current interval becomes a sample, and the next one begins where it ended.
  function Roll(interval: int, m: Meter, now: int): Meter {
    if now >= m.nxtEnd
    then m.(start := m.start + interval, nxtEnd := m.nxtEnd + interval, count := 0,
            samples := m.samples + [Sample(m.start, m.count)])
    else m
  }

  function Count(m: Meter, now: int, len: int): Meter {
    m.(count := m.count + (len - PACKET_HEADER), seen := m.seen + [Seen(now, len - PACKET_HEADER)])
  }

  function Step(interval: int, m: Meter, now: int, len: int): Meter {
    Count(Roll(interval, Resync(interval, Begin(interval, m, now), now), now), now, len)
  }

  /* ---------- what the counts mean ---------- */

  // Bytes of the packets stamped from `a` up to, but not including, `b`.
  function Between(seen: seq<Seen>, a: int, b: int): int {
    if seen == [] then 0
    else
      var last := seen[|seen|-1];
      Between(seen[..|seen|-1], a, b) + if a <= last.time < b then last.bytes else 0
  }

  function Total(seen: seq<Seen>): int {
    if seen == [] then 0 else Total(seen[..|seen|-1]) + seen[|seen|-1].bytes
  }

  function Reported(samples: seq<Sample>): int {
    if samples == [] then 0 else Reported(samples[..|samples|-1]) + samples[|samples|-1].bytes
  }

  lemma BetweenMore(seen: seq<Seen>, x: Seen, a: int, b: int)
    ensures Between(seen + [x], a, b) == Between(seen, a, b) + if a <= x.time < b then x.bytes else 0
  {
    assert (seen + [x])[..|seen|] == seen;
  }

  lemma {:induction false} BetweenNone(seen: seq<Seen>, a: int, b: int)
    requires forall i :: 0 <= i < |seen| ==> seen[i].time < a
    ensures Between(seen, a, b) == 0
  {
    if seen != [] {
      BetweenNone(seen[..|seen|-1], a, b);
    }
  }

  ghost predicate SampleInv(interval: int, m: Meter, s: Sample) {
    s.from + interval <= m.start && s.bytes == Between(m.seen, s.from, s.from + interval)
  }

  // The whole traffic of an interval, and no packet in the next one.
  ghost predicate Silenced(interval: int, m: Meter, s: Sample) {
    && s.from + 2 * interval <= m.start && s.bytes == Between(m.seen, s.from, s.from + interval)
    && (forall i :: 0 <= i < |m.seen| ==> !(s.from + interval <= m.seen[i].time < s.from + 2 * interval))
  }

  // The counter is the traffic of the current interval, every sample the traffic of one whole interval that
  // is over, in order and without overlap, and no byte is unaccounted for.
  ghost predicate Books(interval: int, m: Meter) {
    && m.nxtEnd == m.start + interval
    && (forall i :: 0 <= i < |m.seen| ==> m.seen[i].time < m.nxtEnd)
    && m.count == Between(m.seen, m.start, m.nxtEnd)
    && (forall i :: 0 <= i < |m.samples| ==> SampleInv(interval, m, m.samples[i]))
    && (forall i :: 0 < i < |m.samples| ==> m.samples[i - 1].from + interval <= m.samples[i].from)
    && (forall i :: 0 <= i < |m.abandoned| ==> Silenced(interval, m, m.abandoned[i]))
    && Total(m.seen) == Reported(m.samples) + m.count + Reported(m.abandoned)
  }

  // Nothing has been seen yet, or the last packet lies in the current interval and the books are right.
  ghost predicate Inv(interval: int, m: Meter) {
    m == IDLE ||
    (m.seen != [] && Books(interval, m) && 0 <= m.start <= m.seen[|m.seen|-1].time < m.nxtEnd)
  }

  // The clock never goes back.
  ghost predicate OnTime(m: Meter, now: int) {
    0 <= now && (m.seen != [] ==> m.seen[|m.seen|-1].time <= now)
  }

  lemma BeginKeeps(interval: int, m: Meter, now: int)
    requires interval > 0 && Inv(interval, m) && OnTime(m, now)
    ensures var b := Begin(interval, m, now); Books(interval, b) && 0 <= b.start <= now && OnTime(b, now)
  {
  }

  lemma ResyncKeeps(interval: int, m: Meter, now: int)
    requires interval > 0 && Books(interval, m) && 0 <= m.start <= now && OnTime(m, now)
    ensures var r := Resync(interval, m, now);
            Books(interval, r) && 0 <= r.start <= now < r.start + 2 * interval && OnTime(r, now)
  {
    if now - m.start >= 2 * interval {
      var r := Resync(interval, m, now);
      BetweenNone(m.seen, now, now + interval);
      SamplesKept(interval, m, r);
      AbandonedKept(interval, m, r);
      assert r.abandoned[..|m.abandoned|] == m.abandoned;
    }
  }

  lemma RollKeeps(interval: int, m: Meter, now: int)
    requires interval > 0 && Books(interval, m) && 0 <= m.start <= now < m.start + 2 * interval
    requires OnTime(m, now)
    ensures var r := Roll(interval, m, now);
            Books(interval, r) && 0 <= r.start <= now < r.nxtEnd && OnTime(r, now)
  {
    if now >= m.nxtEnd {
      var r := Roll(interval, m, now);
      BetweenNone(m.seen, r.start, r.nxtEnd);
      assert r.samples[..|m.samples|] == m.samples;
      SamplesKept(interval, m, r);
      AbandonedKept(interval, m, r);
    }
  }

  // Samples stay right while nothing is seen and the interval only moves on.
  lemma SamplesKept(interval: int, m: Meter, r: Meter)
    requires m.seen == r.seen && m.start <= r.start
    requires forall i :: 0 <= i < |m.samples| ==> SampleInv(interval, m, m.samples[i])
    ensures forall i :: 0 <= i < |m.samples| ==> SampleInv(interval, r, m.samples[i])
  {
    forall i | 0 <= i < |m.samples| ensures SampleInv(interval, r, m.samples[i]) {
      assert SampleInv(interval, m, m.samples[i]);
    }
  }

  lemma AbandonedKept(interval: int, m: Meter, r: Meter)
    requires m.seen == r.seen && m.start <= r.start
    requires forall i :: 0 <= i < |m.abandoned| ==> Silenced(interval, m, m.abandoned[i])
    ensures forall i :: 0 <= i < |m.abandoned| ==> Silenced(interval, r, m.abandoned[i])
  {
    forall i | 0 <= i < |m.abandoned| ensures Silenced(interval, r, m.abandoned[i]) {
      assert Silenced(interval, m, m.abandoned[i]);
    }
  }

  lemma CountKeeps(interval: int, m: Meter, now: int, len: int)
    requires interval > 0 && Books(interval, m) && 0 <= m.start <= now < m.nxtEnd
    ensures Inv(interval, Count(m, now, len))
  {
    var x := Seen(now, len - PACKET_HEADER);
    var c := Count(m, now, len);
    BetweenMore(m.seen, x, m.start, m.nxtEnd);
    assert c.seen[..|m.seen|] == m.seen;
    forall i | 0 <= i < |c.samples| ensures SampleInv(interval, c, c.samples[i]) {
      assert SampleInv(interval, m, m.samples[i]);
      BetweenMore(m.seen, x, m.samples[i].from, m.samples[i].from + interval);
    }
    forall i | 0 <= i < |c.abandoned| ensures Silenced(interval, c, c.abandoned[i]) {
      assert Silenced(interval, m, m.abandoned[i]);
      BetweenMore(m.seen, x, m.abandoned[i].from, m.abandoned[i].from + interval);
    }
  }

  lemma StepKeeps(interval: int, m: Meter, now: int, len: int)
    requires interval > 0 && Inv(interval, m) && OnTime(m, now)
    ensures Inv(interval, Step(interval, m, now, len))
  {
    BeginKeeps(interval, m, now);
    var b := Begin(interval, m, now);
    ResyncKeeps(interval, b, now);
    var r := Resync(interval, b, now);
    RollKeeps(interval, r, now);
    CountKeeps(interval, Roll(interval, r, now), now, len);
  }

  /* ---------- whole runs ---------- */

  // Packets as they arrive: the clock and the length field of each.
  datatype Arrival = Arrival(now: int, len: int)

  ghost predicate Punctual(ps: seq<Arrival>) {
    && (forall i :: 0 <= i < |ps| ==> 0 <= ps[i].now)
    && (forall i, j :: 0 <= i < j < |ps| ==> ps[i].now <= ps[j].now)
  }

  function Run(interval: int, ps: seq<Arrival>): Meter {
    if ps == [] then IDLE
    else
      var last := ps[|ps|-1];
      Step(interval, Run(interval, ps[..|ps|-1]), last.now, last.len)
  }

  function Stamps(ps: seq<Arrival>): (r: seq<Seen>)
    ensures |r| == |ps| && forall i :: 0 <= i < |r| ==> r[i] == Seen(ps[i].now, ps[i].len - PACKET_HEADER)
  {
    seq(|ps|, i requires 0 <= i < |ps| => Seen(ps[i].now, ps[i].len - PACKET_HEADER))
  }

  lemma StampsMore(ps: seq<Arrival>)
    requires ps != []
    ensures var last := ps[|ps|-1];
            Stamps(ps) == Stamps(ps[..|ps|-1]) + [Seen(last.now, last.len - PACKET_HEADER)]
  {
  }

  lemma {:induction false} RunSeen(interval: int, ps: seq<Arrival>)
    ensures Run(interval, ps).seen == Stamps(ps)
  {
    if ps != [] {
      RunSeen(interval, ps[..|ps|-1]);
      StampsMore(ps);
    }
  }

  lemma {:induction false} RunKeeps(interval: int, ps: seq<Arrival>)
    requires interval > 0 && Punctual(ps)
    ensures Inv(interval, Run(interval, ps)) && Run(interval, ps).seen == Stamps(ps)
  {
    RunSeen(interval, ps);
    if ps != [] {
      var before, last := ps[..|ps|-1], ps[|ps|-1];
      RunKeeps(interval, before);
      var m := Run(interval, before);
      assert OnTime(m, last.now) by {
        assert m.seen != [] ==> m.seen[|m.seen|-1].time == ps[|ps|-2].now;
      }
      StepKeeps(interval, m, last.now, last.len);
    }
  }

  // Attribution: after every run the last packet lies in the current interval, the counter is the traffic of
  // that interval, and every sample is the traffic of one whole interval among all packets of the run.
  lemma Attribution(interval: int, ps: seq<Arrival>)
    requires interval > 0 && Punctual(ps) && ps != []
    ensures var m := Run(interval, ps);
            && m.start <= ps[|ps|-1].now < m.nxtEnd == m.start + interval
            && m.count == Between(Stamps(ps), m.start, m.nxtEnd)
            && (forall i :: 0 <= i < |m.samples| ==>
                  m.samples[i].bytes == Between(Stamps(ps), m.samples[i].from, m.samples[i].from + interval))
  {
    RunKeeps(interval, ps);
    var m := Run(interval, ps);
    forall i | 0 <= i < |m.samples|
      ensures m.samples[i].bytes == Between(Stamps(ps), m.samples[i].from, m.samples[i].from + interval)
    {
      assert SampleInv(interval, m, m.samples[i]);
    }
  }

  // The counts of the samples and the current counter add up to all the traffic, except for the whole traffic
  // of certain intervals that are over: those behind which a whole interval passed without a packet.
  lemma NothingElseLost(interval: int, ps: seq<Arrival>)
    requires interval > 0 && Punctual(ps)
    ensures var m := Run(interval, ps);
            && Total(Stamps(ps)) == Reported(m.samples) + m.count + Reported(m.abandoned)
            && (forall i :: 0 <= i < |m.abandoned| ==>
                  var from := m.abandoned[i].from;
                  && m.abandoned[i].bytes == Between(Stamps(ps), from, from + interval)
                  && forall j :: 0 <= j < |ps| ==> !(from + interval <= ps[j].now < from + 2 * interval))
  {
    RunKeeps(interval, ps);
    var m := Run(interval, ps);
    forall i | 0 <= i < |m.abandoned| ensures Silenced(interval, m, m.abandoned[i]) {
    }
    assert forall j :: 0 <= j < |ps| ==> m.seen[j].time == ps[j].now;
  }

  // The interval that is current when a packet comes is reported by that packet exactly when it comes behind
  // the end of it and before twice its length is over; later than that it is never reported.
  lemma ReportedIff(interval: int, m: Meter, now: int, len: int)
    requires interval > 0 && Inv(interval, m) && m.seen != [] && OnTime(m, now)
    ensures var m' := Step(interval, m, now, len);
            && (m'.samples == m.samples + [Sample(m.start, Between(m.seen, m.start, m.nxtEnd))]
                <==> m.nxtEnd <= now < m.start + 2 * interval)
            && (now >= m.start + 2 * interval ==> m'.samples == m.samples && m'.start > m.start)
  {
  }

  // Where the interval begins: at the packet itself when it is the first one or ends a silence of two intervals,
  // one length further when it comes behind the end, and otherwise where it began.
  lemma StartMoves(interval: int, m: Meter, now: int, len: int)
    requires interval > 0 && Inv(interval, m) && OnTime(m, now)
    ensures var m' := Step(interval, m, now, len);
            var bytes := len - PACKET_HEADER;
            if m.seen == [] || now >= m.start + 2 * interval then
              m'.start == now && m'.nxtEnd == now + interval && m'.count == bytes && m'.samples == m.samples
            else if now >= m.nxtEnd then
              && m'.start == m.start + interval && m'.nxtEnd == m.nxtEnd + interval && m'.count == bytes
              && m'.samples == m.samples + [Sample(m.start, m.count)] && m'.abandoned == m.abandoned
            else
              m' == m.(count := m.count + bytes, seen := m'.seen)
  {
  }

  // Packet `i` begins a new series of intervals: it is the first, or two intervals after the start of the one that
  // was current.
  ghost predicate Opens(interval: int, ps: seq<Arrival>, i: nat) {
    i < |ps| && (i == 0 || ps[i].now >= Run(interval, ps[..i]).start + 2 * interval)
  }

  ghost predicate LastOpens(interval: int, ps: seq<Arrival>, i: nat) {
    Opens(interval, ps, i) && (forall j :: i < j < |ps| ==> !Opens(interval, ps, j))
  }

  // Behind `base` samples every interval begins where the one before it ended, the first of them at `anchor`.
  ghost predicate Anchored(interval: int, m: Meter, anchor: int, base: nat) {
    && base <= |m.samples|
    && m.start == anchor + (|m.samples| - base) * interval
    && (forall q :: base <= q < |m.samples| ==> m.samples[q].from == anchor + (q - base) * interval)
  }

  lemma AnchoredMore(interval: int, m: Meter, now: int, len: int, anchor: int, base: nat)
    requires interval > 0 && Inv(interval, m) && OnTime(m, now)
    requires m.seen != [] && now < m.start + 2 * interval && Anchored(interval, m, anchor, base)
    ensures Anchored(interval, Step(interval, m, now, len), anchor, base)
  {
    StartMoves(interval, m, now, len);
    var k := |m.samples| - base;
    assert (k + 1) * interval == k * interval + interval;
  }

  lemma OpensBefore(interval: int, ps: seq<Arrival>, i: nat)
    requires ps != [] && i < |ps| - 1
    ensures ps[..|ps| - 1][..i + 1] == ps[..i + 1]
    ensures Opens(interval, ps[..|ps| - 1], i) <==> Opens(interval, ps, i)
  {
    assert ps[..|ps| - 1][..i] == ps[..i];
  }

  lemma LastOpensBefore(interval: int, ps: seq<Arrival>, i: nat)
    requires ps != [] && !Opens(interval, ps, |ps| - 1) && LastOpens(interval, ps[..|ps| - 1], i)
    ensures LastOpens(interval, ps, i)
  {
    forall j | i <= j < |ps| - 1 ensures Opens(interval, ps[..|ps| - 1], j) <==> Opens(interval, ps, j) {
      OpensBefore(interval, ps, j);
    }
  }

  lemma RunOnTime(interval: int, ps: seq<Arrival>)
    requires interval > 0 && Punctual(ps) && ps != []
    ensures var m, last := Run(interval, ps[..|ps| - 1]), ps[|ps| - 1];
            && Inv(interval, m) && OnTime(m, last.now) && (m.seen == [] <==> |ps| == 1)
            && Run(interval, ps) == Step(interval, m, last.now, last.len)
  {
    RunKeeps(interval, ps[..|ps| - 1]);
  }

  // Packet `i` is the last that opens, and since then every interval has begun where the one before it ended.
  ghost predicate Series(interval: int, ps: seq<Arrival>, i: nat) {
    && LastOpens(interval, ps, i)
    && Anchored(interval, Run(interval, ps), ps[i].now, |Run(interval, ps[..i + 1]).samples|)
  }

  lemma SeriesBegins(interval: int, ps: seq<Arrival>)
    requires interval > 0 && Punctual(ps) && ps != [] && Opens(interval, ps, |ps| - 1)
    ensures Series(interval, ps, |ps| - 1)
  {
    RunOnTime(interval, ps);
    StartMoves(interval, Run(interval, ps[..|ps| - 1]), ps[|ps| - 1].now, ps[|ps| - 1].len);
    assert ps[..|ps|] == ps;
  }

  lemma SeriesMore(interval: int, ps: seq<Arrival>, i: nat)
    requires interval > 0 && Punctual(ps) && ps != [] && !Opens(interval, ps, |ps| - 1)
    requires Series(interval, ps[..|ps| - 1], i)
    ensures Series(interval, ps, i)
  {
    var before, last := ps[..|ps| - 1], ps[|ps| - 1];
    RunOnTime(interval, ps);
    LastOpensBefore(interval, ps, i);
    OpensBefore(interval, ps, i);
    AnchoredMore(interval, Run(interval, before), last.now, last.len, ps[i].now,
                 |Run(interval, ps[..i + 1]).samples|);
  }

  // So after every run the current interval and the samples since the last opening packet begin whole intervals
  // after that packet.
  lemma {:induction false} StartIsAnchored(interval: int, ps: seq<Arrival>) returns (i: nat)
    requires interval > 0 && Punctual(ps) && ps != []
    ensures Series(interval, ps, i) == true
  {
    if Opens(interval, ps, |ps| - 1) {
      i := |ps| - 1;
      SeriesBegins(interval, ps);
    } else {
      i := StartIsAnchored(interval, ps[..|ps| - 1]);
      SeriesMore(interval, ps, i);
    }
  }

  lemma {:induction false} SamplesGrow(interval: int, ps: seq<Arrival>, i: nat)
    requires interval > 0 && Punctual(ps) && i <= |ps|
    ensures Run(interval, ps[..i]).samples <= Run(interval, ps).samples
  {
    if i < |ps| {
      var before, last := ps[..|ps| - 1], ps[|ps| - 1];
      assert before[..i] == ps[..i];
      SamplesGrow(interval, before, i);
      RunOnTime(interval, ps);
      StartMoves(interval, Run(interval, before), last.now, last.len);
    } else {
      assert ps[..i] == ps;
    }
  }

  lemma OpeningReports(interval: int, ps: seq<Arrival>, i: nat)
    requires interval > 0 && Punctual(ps) && Opens(interval, ps, i)
    ensures Run(interval, ps[..i + 1]).samples == Run(interval, ps[..i]).samples
  {
    assert ps[..i + 1][..i] == ps[..i];
    RunOnTime(interval, ps[..i + 1]);
    StartMoves(interval, Run(interval, ps[..i]), ps[i].now, ps[i].len);
  }

  // Sample `q` is for the interval as many lengths after packet `i`, which opens, as samples were reported between.
  ghost predicate SampleAnchored(interval: int, ps: seq<Arrival>, s: Sample, q: nat, i: nat) {
    && Opens(interval, ps, i) && |Run(interval, ps[..i + 1]).samples| <= q
    && s.from == ps[i].now + (q - |Run(interval, ps[..i + 1]).samples|) * interval
  }

  lemma SampleAnchoredBefore(interval: int, ps: seq<Arrival>, k: nat, s: Sample, q: nat, i: nat)
    requires k <= |ps| && SampleAnchored(interval, ps[..k], s, q, i)
    ensures SampleAnchored(interval, ps, s, q, i)
  {
    assert ps[..k][..i + 1] == ps[..i + 1] && ps[..k][..i] == ps[..i];
  }

  // And so does every sample.
  lemma {:induction false} SampleIsAnchored(interval: int, ps: seq<Arrival>, q: nat) returns (i: nat)
    requires interval > 0 && Punctual(ps) && q < |Run(interval, ps).samples|
    ensures SampleAnchored(interval, ps, Run(interval, ps).samples[q], q, i) == true
    decreases |ps|
  {
    i := StartIsAnchored(interval, ps);
    if q < |Run(interval, ps[..i + 1]).samples| {
      var first := i;
      OpeningReports(interval, ps, first);
      SamplesGrow(interval, ps, first);
      i := SampleIsAnchored(interval, ps[..first], q);
      SampleAnchoredBefore(interval, ps, first, Run(interval, ps).samples[q], q, i);
    }
  }

  // A packet at time 0 and the next two intervals later: what the first counted is thrown away.
  lemma Abandons()
    ensures var m := Run(1_000, [Arrival(0, 128), Arrival(2_000, 128)]);
            m.samples == [] && m.abandoned == [Sample(0, 100)] && m.count == 100
  {
    var first := Run(1_000, [Arrival(0, 128)]);
    assert [Arrival(0, 128)][..0] == [];
    assert first == Meter(0, 1_000, 100, [Seen(0, 100)], [], []);
    assert [Arrival(0, 128), Arrival(2_000, 128)][..1] == [Arrival(0, 128)];
  }

  /* ---------- the handler ---------- */

  class Handler {
    var start: int
    var nxtEnd: int
    var totIppktLen: int
    var q: seq<real>
    const interval: int
    ghost var meter: Meter

    ghost predicate Valid()
      reads this
    {
      && interval > 0
      && start == meter.start && nxtEnd == meter.nxtEnd && totIppktLen == meter.count
      && q == Window(Amounts(meter.samples), interval)
    }

    constructor (interval: int)
      requires interval > 0
      ensures Valid() && meter == IDLE && this.interval == interval
    {
      start, nxtEnd, totIppktLen, q, meter := -1, -1, 0, [], IDLE;
      this.interval := interval;
    }

    // handle_IP behind the header checks.  `printed` is the smoothed rate, if one is printed.
    method HandleIP(now: int, len: int) returns (printed: Option<real>)
      requires Valid()
      modifies this
      ensures Valid() && meter == Step(interval, old(meter), now, len)
      ensures printed.Some? <==> |meter.samples| > |old(meter).samples|
      ensures printed.Some? ==> q != [] && RateEstimator.IsEstimate(q, printed.value)
    {
      printed := None;
      if start == -1 {
        start := now;
        nxtEnd := start + interval;
      }
      if now - start >= 2 * interval {
        start := now;
        nxtEnd := start + interval;
        totIppktLen := 0;
      }
      if now >= nxtEnd {
        var ratio := Ratio(totIppktLen, interval);
        ghost var amounts := Amounts(meter.samples);
        PushKeepsWindow(amounts, interval, totIppktLen);
        assert amounts + [totIppktLen] == Amounts(meter.samples + [Sample(start, totIppktLen)]);
        if |q| < QUEUE_SIZE {
          q := q + [ratio];
        } else {
          q := q[1..] + [ratio];
        }
        var smooth := RateEstimator.GetRatio(q);
        printed := Some(smooth);
        start := start + interval;
        nxtEnd := nxtEnd + interval;
        totIppktLen := 0;
      }
      totIppktLen := totIppktLen + (len - PACKET_HEADER);
      meter := Step(interval, meter, now, len);
    }
  }

  function Amounts(samples: seq<Sample>): (r: seq<int>)
    ensures |r| == |samples| && forall i :: 0 <= i < |r| ==> r[i] == samples[i].bytes
  {
    seq(|samples|, i requires 0 <= i < |samples| => samples[i].bytes)
  }
}
