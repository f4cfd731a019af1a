/** One token bucket charged by a stream of packets: the bound every window keeps, and the exact
    condition under which the bucket never runs short. */
module TokenBucket {
  import opened Basics

  /** Times are in ticks. */
  datatype Packet = Packet(time: nat, cost: nat)

  /** `rate` tokens flow in per tick, up to `size`; it held `tokens` at time `since`. */
  datatype Bucket = Bucket(rate: nat, size: nat, tokens: nat, since: nat)

  /** The packets come one after another, none before the bucket was set up. */
  ghost predicate Timely(since: nat, trace: seq<Packet>) {
    && (forall i :: 0 <= i < |trace| ==> since <= trace[i].time)
    && (forall i, j :: 0 <= i < j < |trace| ==> trace[i].time <= trace[j].time)
  }

  /** What flows in during so many ticks. */
  function Flow(rate: int, ticks: int): int {
    rate * ticks
  }

  function Refill(size: int, level: int, rate: int, ticks: int): int {
    Min(size, level + Flow(rate, ticks))
  }

  function LastTime(b: Bucket, trace: seq<Packet>): nat {
    if trace == [] then b.since else trace[|trace| - 1].time
  }

  /** What is in the bucket when the last packet of a nonempty trace arrives, before it is charged. */
  function Top(b: Bucket, trace: seq<Packet>, charged: seq<bool>): int
    requires |trace| == |charged| > 0
    decreases |trace|, 0
  {
    var n := |trace| - 1;
    Refill(b.size, Level(b, trace[..n], charged[..n]), b.rate, trace[n].time - LastTime(b, trace[..n]))
  }

  /** What is left after the whole trace, each packet marked charged having paid its cost. */
  function Level(b: Bucket, trace: seq<Packet>, charged: seq<bool>): int
    requires |trace| == |charged|
    decreases |trace|, 1
  {
    if trace == [] then b.tokens
    else Top(b, trace, charged) - if charged[|trace| - 1] then trace[|trace| - 1].cost else 0
  }

  /** Total cost of the charged packets from number i on. */
  function Charged(trace: seq<Packet>, charged: seq<bool>, i: nat): nat
    requires |trace| == |charged|
    decreases |trace|
  {
    if |trace| <= i then 0
    else
      var n := |trace| - 1;
      Charged(trace[..n], charged[..n], i) + if charged[n] then trace[n].cost else 0
  }

  /** No packet was charged more than the bucket held. */
  ghost predicate Covered(b: Bucket, trace: seq<Packet>, charged: seq<bool>)
    requires |trace| == |charged|
    decreases |trace|
  {
    trace != [] ==>
      var n := |trace| - 1;
      Covered(b, trace[..n], charged[..n]) && (charged[n] ==> trace[n].cost <= Top(b, trace, charged))
  }

  lemma TimelyFront(b: Bucket, trace: seq<Packet>)
    requires trace != [] && Timely(b.since, trace)
    ensures Timely(b.since, trace[..|trace| - 1])
    ensures Flow(b.rate, trace[|trace| - 1].time - LastTime(b, trace[..|trace| - 1])) >= 0
  {
  }

  lemma {:induction false} NeverNegative(b: Bucket, trace: seq<Packet>, charged: seq<bool>)
    requires |trace| == |charged| && Timely(b.since, trace) && Covered(b, trace, charged)
    ensures Level(b, trace, charged) >= 0
    decreases |trace|
  {
    if trace != [] {
      TimelyFront(b, trace);
      hide Timely, LastTime;
      NeverNegative(b, trace[..|trace| - 1], charged[..|trace| - 1]);
    }
  }

  /** Whatever is charged from packet i on, plus what is left, fits in the burst and the refill. */
  lemma {:induction false} WindowBalance(b: Bucket, trace: seq<Packet>, charged: seq<bool>, i: nat)
    requires |trace| == |charged| && i < |trace| && Timely(b.since, trace)
    ensures Level(b, trace, charged) + Charged(trace, charged, i)
            <= b.size + Flow(b.rate, trace[|trace| - 1].time - trace[i].time)
    decreases |trace|
  {
    TopBounds(b, trace, charged);
    OneMore(b, trace, charged, i);
    hide Top, Timely, LastTime, Level, Charged, Flow;
    var n := |trace| - 1;
    if i < n {
      TimelyFront(b, trace);
      WindowBalance(b, trace[..n], charged[..n], i);
      AddUp(b.rate, trace[i].time, trace[n - 1].time, trace[n].time, b.size, Charged(trace[..n], charged[..n], i),
            Level(b, trace[..n], charged[..n]), Top(b, trace, charged));
    }
  }

  lemma TopBounds(b: Bucket, trace: seq<Packet>, charged: seq<bool>)
    requires |trace| == |charged| > 0
    ensures Top(b, trace, charged) <= b.size
    ensures |trace| > 1 ==>
              var n := |trace| - 1;
              Top(b, trace, charged)
              <= Level(b, trace[..n], charged[..n]) + Flow(b.rate, trace[n].time - trace[n - 1].time)
  {
  }

  lemma OneMore(b: Bucket, trace: seq<Packet>, charged: seq<bool>, i: nat)
    requires |trace| == |charged| && i < |trace|
    ensures var n := |trace| - 1;
            && Level(b, trace, charged) + Charged(trace, charged, i)
               == Top(b, trace, charged) + Charged(trace[..n], charged[..n], i)
            && (i == n ==> Charged(trace[..n], charged[..n], i) == 0)
  {
  }

  lemma AddUp(rate: nat, t0: nat, t1: nat, t2: nat, size: nat, charged: nat, level: int, top: int)
    requires top <= level + Flow(rate, t2 - t1) && level + charged <= size + Flow(rate, t1 - t0)
    ensures top + charged <= size + Flow(rate, t2 - t0)
  {
    Refills(rate, t0, t1, t2);
  }

  lemma Refills(rate: nat, t0: nat, t1: nat, t2: nat)
    ensures rate * (t1 - t0) + rate * (t2 - t1) == rate * (t2 - t0)
  {
  }

  /** Soundness: no window of the trace, however chosen, is charged more than the bucket's size and
      what flows in over the window. */
  lemma {:induction false} ChargeBound(b: Bucket, trace: seq<Packet>, charged: seq<bool>, i: nat, j: nat)
    requires |trace| == |charged| && i < j <= |trace| && Timely(b.since, trace) && Covered(b, trace, charged)
    ensures Charged(trace[..j], charged[..j], i) <= b.size + b.rate * (trace[j - 1].time - trace[i].time)
  {
    CoveredPrefix(b, trace, charged, j);
    NeverNegative(b, trace[..j], charged[..j]);
    WindowBalance(b, trace[..j], charged[..j], i);
  }

  lemma {:induction false} CoveredPrefix(b: Bucket, trace: seq<Packet>, charged: seq<bool>, j: nat)
    requires |trace| == |charged| && j <= |trace| && Covered(b, trace, charged)
    ensures Covered(b, trace[..j], charged[..j])
    decreases |trace|
  {
    if j < |trace| {
      var n := |trace| - 1;
      CoveredPrefix(b, trace[..n], charged[..n], j);
      assert trace[..n][..j] == trace[..j] && charged[..n][..j] == charged[..j];
    } else {
      assert trace[..j] == trace && charged[..j] == charged;
    }
  }

  function AllTrue(n: nat): (c: seq<bool>)
    ensures |c| == n && forall i :: 0 <= i < n ==> c[i]
  {
    seq(n, _ => true)
  }

  /** Cost of packets i to j - 1. */
  function Cost(trace: seq<Packet>, i: nat, j: nat): nat
    requires j <= |trace|
    decreases j
  {
    if j <= i then 0 else Cost(trace, i, j - 1) + trace[j - 1].cost
  }

  /** Every window carries no more than the size and what flows in over it. */
  ghost predicate Conforms(rate: nat, size: nat, trace: seq<Packet>) {
    forall i, j :: 0 <= i < j <= |trace| ==> Cost(trace, i, j) <= size + rate * (trace[j - 1].time - trace[i].time)
  }

  lemma {:induction false} CostPrefix(trace: seq<Packet>, n: nat, i: nat, j: nat)
    requires j <= n <= |trace|
    ensures Cost(trace[..n], i, j) == Cost(trace, i, j)
    decreases j
  {
    if j > i { CostPrefix(trace, n, i, j - 1); }
  }

  lemma {:induction false} ChargedAll(trace: seq<Packet>, i: nat)
    ensures Charged(trace, AllTrue(|trace|), i) == Cost(trace, i, |trace|)
    decreases |trace|
  {
    if |trace| > i {
      var n := |trace| - 1;
      ChargedAll(trace[..n], i);
      assert AllTrue(|trace|)[..n] == AllTrue(n);
      CostPrefix(trace, n, i, n);
    }
  }

  /** Whatever is charged, the level of a bucket that starts full always dates from some packet at which
      it was last full. */
  lemma {:induction false} LastFull(b: Bucket, trace: seq<Packet>, charged: seq<bool>) returns (i: nat)
    requires |trace| == |charged| > 0 && b.tokens == b.size && Timely(b.since, trace)
    ensures i < |trace|
    ensures var n := |trace| - 1;
            Top(b, trace, charged) ==
            b.size + Flow(b.rate, trace[n].time - trace[i].time) - Charged(trace[..n], charged[..n], i)
    decreases |trace|
  {
    var n := |trace| - 1;
    if n == 0 || Top(b, trace, charged) == b.size {
      TimelyFront(b, trace);
      i := n;
    } else {
      i := LastFull(b, trace[..n], charged[..n]);
      OneMore(b, trace[..n], charged[..n], i);
      TimelyFront(b, trace);
      hide Timely;
      TopUncapped(b, trace, charged);
      hide Top, Level, Charged, Flow;
      Flows(b.rate, trace[i].time, trace[n - 1].time, trace[n].time);
    }
  }

  lemma TopUncapped(b: Bucket, trace: seq<Packet>, charged: seq<bool>)
    requires |trace| == |charged| > 1 && Top(b, trace, charged) != b.size
    ensures var n := |trace| - 1;
            Top(b, trace, charged)
            == Level(b, trace[..n], charged[..n]) + Flow(b.rate, trace[n].time - trace[n - 1].time)
  {
  }

  lemma Flows(rate: nat, t0: nat, t1: nat, t2: nat)
    ensures Flow(rate, t1 - t0) + Flow(rate, t2 - t1) == Flow(rate, t2 - t0)
  {
    Refills(rate, t0, t1, t2);
  }

  /** What a packet finds is no more than the size and the inflow from any packet on, less what was
      charged since. */
  lemma TopAtMost(b: Bucket, trace: seq<Packet>, charged: seq<bool>, i: nat)
    requires |trace| == |charged| && i < |trace| && Timely(b.since, trace)
    ensures var n := |trace| - 1;
            Top(b, trace, charged) <=
            b.size + Flow(b.rate, trace[n].time - trace[i].time) - Charged(trace[..n], charged[..n], i)
  {
    WindowBalance(b, trace, charged, i);
    OneMore(b, trace, charged, i);
  }

  /** Exactness for any stream: a bucket that starts full falls short of a packet if and only if some
      window ending with it, of the packets charged and it, exceeds the size and the inflow. */
  lemma ShortIffExceeds(b: Bucket, trace: seq<Packet>, charged: seq<bool>, cost: nat)
    requires |trace| == |charged| > 0 && b.tokens == b.size && Timely(b.since, trace)
    ensures var n := |trace| - 1;
            Top(b, trace, charged) < cost <==>
            exists i :: 0 <= i <= n && Charged(trace[..n], charged[..n], i) + cost >
                                       b.size + Flow(b.rate, trace[n].time - trace[i].time)
  {
    hide Top, Charged, Flow, Timely;
    var i := LastFull(b, trace, charged);
    forall j | 0 <= j < |trace|
      ensures var n := |trace| - 1;
              Top(b, trace, charged) <=
              b.size + Flow(b.rate, trace[n].time - trace[j].time) - Charged(trace[..n], charged[..n], j)
    {
      TopAtMost(b, trace, charged, j);
    }
  }

  /** Exactness: a bucket that starts full can pay for every packet if and only if every window of
      the trace conforms. */
  lemma {:induction false} CoversIffConforms(b: Bucket, trace: seq<Packet>)
    requires b.tokens == b.size && Timely(b.since, trace)
    ensures Covered(b, trace, AllTrue(|trace|)) <==> Conforms(b.rate, b.size, trace)
    decreases |trace|
  {
    var all := AllTrue(|trace|);
    if Covered(b, trace, all) {
      forall i, j | 0 <= i < j <= |trace|
        ensures Cost(trace, i, j) <= b.size + b.rate * (trace[j - 1].time - trace[i].time)
      {
        ChargeBound(b, trace, all, i, j);
        assert all[..j] == AllTrue(j);
        ChargedAll(trace[..j], i);
        CostPrefix(trace, j, i, j);
      }
    }
    if Conforms(b.rate, b.size, trace) && trace != [] {
      var n := |trace| - 1;
      ConformsPrefix(b.rate, b.size, trace, n);
      CoversIffConforms(b, trace[..n]);
      assert all[..n] == AllTrue(n);
      var i := LastFull(b, trace, all);
      ChargedAll(trace[..n], i);
      CostPrefix(trace, n, i, n);
      assert Cost(trace, i, |trace|) == Cost(trace, i, n) + trace[n].cost;
    }
  }

  lemma ConformsPrefix(rate: nat, size: nat, trace: seq<Packet>, n: nat)
    requires n <= |trace| && Conforms(rate, size, trace)
    ensures Conforms(rate, size, trace[..n])
  {
    forall i, j | 0 <= i < j <= n
      ensures Cost(trace[..n], i, j) <= size + rate * (trace[..n][j - 1].time - trace[..n][i].time)
    {
      CostPrefix(trace, n, i, j);
    }
  }
}
