/** The queue of the last few rate samples, one for each elapsed interval. */
module SampleQueue {
  const PACKET_HEADER: int := 28
  const QUEUE_SIZE: nat := 4

  // Bytes of one interval of `interval` milliseconds as megabits per second.
  function Ratio(bytes: int, interval: int): real
    requires interval > 0
  {
    bytes as real / interval as real * 8.0 / 1000.0
  }

  function Ratios(samples: seq<int>, interval: int): (r: seq<real>)
    requires interval > 0
    ensures |r| == |samples| && forall i :: 0 <= i < |r| ==> r[i] == Ratio(samples[i], interval)
  {
    seq(|samples|, i requires 0 <= i < |samples| => Ratio(samples[i], interval))
  }

  // A full queue gives up its oldest sample.
  function Push(q: seq<real>, x: real): seq<real> {
    if |q| < QUEUE_SIZE then q + [x] else q[1..] + [x]
  }

  // What the queue should hold after `samples`: the last four of them, or all while there are fewer.
  function Window(samples: seq<int>, interval: int): seq<real>
    requires interval > 0
  {
    Ratios(samples[if |samples| < QUEUE_SIZE then 0 else |samples| - QUEUE_SIZE..], interval)
  }

  lemma PushKeepsWindow(samples: seq<int>, interval: int, bytes: int)
    requires interval > 0
    ensures Push(Window(samples, interval), Ratio(bytes, interval)) == Window(samples + [bytes], interval)
  {
    var w := Window(samples + [bytes], interval);
    var p := Push(Window(samples, interval), Ratio(bytes, interval));
    assert |p| == |w|;
    forall i | 0 <= i < |w| ensures p[i] == w[i] {
    }
  }

  // Traffic at `rate` megabits per second gives that sample, whatever the interval.
  lemma RatioOfRate(rate: int, interval: int)
    requires interval > 0
    ensures Ratio(rate * 125 * interval, interval) == rate as real
  {
    var n, x := interval as real, (rate * 125 * interval) as real / interval as real;
    assert (rate * 125 * interval) as real == (rate * 125) as real * n;
    assert x * n == (rate * 125) as real * n;
    assert (x - (rate * 125) as real) * n == 0.0;
  }
}
