/** The two-rate three-colour meter the program configures (section 3 of RFC 2698, colour-blind),
    and the policy that drops red packets before the receive loop. */
module Meter {
  import opened Basics
  import opened TokenBucket

  datatype Color = Green | Yellow | Red

  /** Rates in bytes a second, bursts in bytes, hz clock ticks a second. A token here is 1/hz of a
      byte, so what flows in during a tick is a whole number of tokens. */
  datatype Profile = Profile(hz: nat, cir: nat, pir: nat, cbs: nat, pbs: nat)

  /** The profile the program fills in. */
  function Configured(hz: nat): Profile {
    Profile(hz, 10 * 1000 * 1000, 20 * 1000 * 1000, 64 * 1024, 128 * 1024)
  }

  datatype Arrival = Arrival(time: nat, len: nat)

  datatype State = State(c: int, p: int, last: nat)

  function Start(prof: Profile, since: nat): State {
    State(prof.hz * prof.cbs, prof.hz * prof.pbs, since)
  }

  function Refilled(prof: Profile, s: State, now: nat): State {
    State(Refill(prof.hz * prof.cbs, s.c, prof.cir, now - s.last),
          Refill(prof.hz * prof.pbs, s.p, prof.pir, now - s.last),
          now)
  }

  /** The peak bucket is looked at first; a green packet pays from both buckets, a yellow one from
      the peak bucket only, a red one from neither. */
  function Mark(prof: Profile, s: State, a: Arrival): (State, Color) {
    var r := Refilled(prof, s, a.time);
    var cost := prof.hz * a.len;
    if r.p < cost then (r, Red)
    else if r.c < cost then (r.(p := r.p - cost), Yellow)
    else (r.(p := r.p - cost, c := r.c - cost), Green)
  }

  function Run(prof: Profile, since: nat, trace: seq<Arrival>): (r: (State, seq<Color>))
    ensures |r.1| == |trace|
  {
    if trace == [] then (Start(prof, since), [])
    else
      var before := Run(prof, since, trace[..|trace| - 1]);
      var m := Mark(prof, before.0, trace[|trace| - 1]);
      (m.0, before.1 + [m.1])
  }

  /** The trace in tokens. */
  function Priced(hz: nat, trace: seq<Arrival>): (t: seq<Packet>)
    ensures |t| == |trace|
    ensures forall i :: 0 <= i < |trace| ==> t[i] == Packet(trace[i].time, hz * trace[i].len)
  {
    seq(|trace|, i requires 0 <= i < |trace| => Packet(trace[i].time, hz * trace[i].len))
  }

  ghost predicate InOrder(since: nat, trace: seq<Arrival>) {
    && (forall i :: 0 <= i < |trace| ==> since <= trace[i].time)
    && (forall i, j :: 0 <= i < j < |trace| ==> trace[i].time <= trace[j].time)
  }

  function Greens(colors: seq<Color>): (g: seq<bool>)
    ensures |g| == |colors| && forall i :: 0 <= i < |colors| ==> g[i] == (colors[i] == Green)
  {
    seq(|colors|, i requires 0 <= i < |colors| => colors[i] == Green)
  }

  /** Green and yellow: what the policy lets through. */
  function Passed(colors: seq<Color>): (g: seq<bool>)
    ensures |g| == |colors| && forall i :: 0 <= i < |colors| ==> g[i] == (colors[i] != Red)
  {
    seq(|colors|, i requires 0 <= i < |colors| => colors[i] != Red)
  }

  function CBucket(prof: Profile, since: nat): Bucket {
    Bucket(prof.cir, prof.hz * prof.cbs, prof.hz * prof.cbs, since)
  }

  function PBucket(prof: Profile, since: nat): Bucket {
    Bucket(prof.pir, prof.hz * prof.pbs, prof.hz * prof.pbs, since)
  }

  /** The meter's state is the two buckets' levels. */
  ghost predicate Agrees(prof: Profile, since: nat, trace: seq<Arrival>) {
    var s, t := Run(prof, since, trace), Priced(prof.hz, trace);
    && s.0.last == LastTime(CBucket(prof, since), t) == LastTime(PBucket(prof, since), t)
    && s.0.c == Level(CBucket(prof, since), t, Greens(s.1))
    && s.0.p == Level(PBucket(prof, since), t, Passed(s.1))
  }

  lemma TopFrom(b: Bucket, t: seq<Packet>, charged: seq<bool>, level: int, last: nat)
    requires |t| == |charged| > 0
    requires level == Level(b, t[..|t| - 1], charged[..|t| - 1]) && last == LastTime(b, t[..|t| - 1])
    ensures Top(b, t, charged) == Refill(b.size, level, b.rate, t[|t| - 1].time - last)
  {
  }

  lemma {:induction false} TopsAgree(prof: Profile, since: nat, trace: seq<Arrival>)
    requires trace != [] && Agrees(prof, since, trace[..|trace| - 1])
    ensures var n, s, t := |trace| - 1, Run(prof, since, trace), Priced(prof.hz, trace);
            var r := Refilled(prof, Run(prof, since, trace[..n]).0, trace[n].time);
            r.c == Top(CBucket(prof, since), t, Greens(s.1)) && r.p == Top(PBucket(prof, since), t, Passed(s.1))
  {
    hide Run, Level, LastTime, Greens, Passed, Priced, Top, Refill;
    SplitLast(prof, since, trace);
    var n, colors, t := |trace| - 1, Run(prof, since, trace).1, Priced(prof.hz, trace);
    var s := Run(prof, since, trace[..n]).0;
    TopFrom(CBucket(prof, since), t, Greens(colors), s.c, s.last);
    TopFrom(PBucket(prof, since), t, Passed(colors), s.p, s.last);
  }

  /** The meter is two buckets, one paid by green packets and one by green and yellow; neither is
      ever overcharged, and the last packet's colour is what the two levels say. */
  lemma {:induction false} TwoBuckets(prof: Profile, since: nat, trace: seq<Arrival>)
    requires InOrder(since, trace)
    ensures Agrees(prof, since, trace)
    ensures Covered(CBucket(prof, since), Priced(prof.hz, trace), Greens(Run(prof, since, trace).1))
    ensures Covered(PBucket(prof, since), Priced(prof.hz, trace), Passed(Run(prof, since, trace).1))
    ensures trace != [] ==> Decided(prof, since, trace)
  {
    hide Top;
    if trace != [] {
      var n := |trace| - 1;
      TwoBuckets(prof, since, trace[..n]);
      SplitLast(prof, since, trace);
      TopsAgree(prof, since, trace);
    }
  }

  /** The colour of the last packet, by what the two buckets hold when it comes. */
  ghost predicate Decided(prof: Profile, since: nat, trace: seq<Arrival>)
    requires trace != []
  {
    var colors, t := Run(prof, since, trace).1, Priced(prof.hz, trace);
    var n := |trace| - 1;
    && (colors[n] == Red <==> Top(PBucket(prof, since), t, Passed(colors)) < t[n].cost)
    && (colors[n] == Green <==> && t[n].cost <= Top(PBucket(prof, since), t, Passed(colors))
                                && t[n].cost <= Top(CBucket(prof, since), t, Greens(colors)))
  }

  lemma SplitLast(prof: Profile, since: nat, trace: seq<Arrival>)
    requires trace != []
    ensures var n, colors := |trace| - 1, Run(prof, since, trace).1;
            && Priced(prof.hz, trace)[..n] == Priced(prof.hz, trace[..n])
            && colors[..n] == Run(prof, since, trace[..n]).1
            && Greens(colors)[..n] == Greens(colors[..n])
            && Passed(colors)[..n] == Passed(colors[..n])
  {
  }

  /** Bytes of the packets from number i on that carry the mark. */
  function Bytes(trace: seq<Arrival>, marked: seq<bool>, i: nat): nat
    requires |trace| == |marked|
    decreases |trace|
  {
    if |trace| <= i then 0
    else
      var n := |trace| - 1;
      Bytes(trace[..n], marked[..n], i) + if marked[n] then trace[n].len else 0
  }

  lemma {:induction false} BytesPriced(hz: nat, trace: seq<Arrival>, marked: seq<bool>, i: nat)
    requires |trace| == |marked|
    ensures Charged(Priced(hz, trace), marked, i) == hz * Bytes(trace, marked, i)
    decreases |trace|
  {
    if |trace| > i {
      var n := |trace| - 1;
      BytesPriced(hz, trace[..n], marked[..n], i);
      assert Priced(hz, trace)[..n] == Priced(hz, trace[..n]);
      var b := Bytes(trace[..n], marked[..n], i);
      assert hz * (b + trace[n].len) == hz * b + hz * trace[n].len;
    }
  }

  lemma PricedTimely(since: nat, hz: nat, trace: seq<Arrival>)
    requires InOrder(since, trace)
    ensures Timely(since, Priced(hz, trace))
  {
    hide Priced;
  }

  /** Soundness: in every window of every packet stream, green bytes stay within the committed burst
      and rate, and green and yellow bytes, all that reach the receive loop, within the peak burst
      and rate. Multiplied out by hz; times are in ticks. */
  lemma {:induction false} MeterSound(prof: Profile, since: nat, trace: seq<Arrival>, i: nat, j: nat)
    requires InOrder(since, trace) && i < j <= |trace|
    ensures var colors, ticks := Run(prof, since, trace).1, trace[j - 1].time - trace[i].time;
            && prof.hz * Bytes(trace[..j], Greens(colors)[..j], i) <= prof.hz * prof.cbs + prof.cir * ticks
            && prof.hz * Bytes(trace[..j], Passed(colors)[..j], i) <= prof.hz * prof.pbs + prof.pir * ticks
  {
    hide Run, Priced, Greens, Passed, Covered;
    var colors, t := Run(prof, since, trace).1, Priced(prof.hz, trace);
    TwoBuckets(prof, since, trace);
    PricedTimely(since, prof.hz, trace);
    ChargeBound(CBucket(prof, since), t, Greens(colors), i, j);
    ChargeBound(PBucket(prof, since), t, Passed(colors), i, j);
    assert t[..j] == Priced(prof.hz, trace[..j]);
    BytesPriced(prof.hz, trace[..j], Greens(colors)[..j], i);
    BytesPriced(prof.hz, trace[..j], Passed(colors)[..j], i);
  }

  ghost predicate AllColor(colors: seq<Color>, ok: set<Color>) {
    forall i :: 0 <= i < |colors| ==> colors[i] in ok
  }

  /** Every window of the stream fits the given rate and burst. */
  ghost predicate Fits(hz: nat, rate: nat, burst: nat, trace: seq<Arrival>) {
    Conforms(rate, hz * burst, Priced(hz, trace))
  }

  /** What the last packet finds in the bucket does not depend on whether it pays. */
  lemma TopSame(b: Bucket, t: seq<Packet>, x: seq<bool>, y: seq<bool>)
    requires |t| == |x| == |y| > 0 && x[..|t| - 1] == y[..|t| - 1]
    ensures Top(b, t, x) == Top(b, t, y)
  {
  }

  /** If the peak bucket can pay for everything, nothing is red. */
  lemma {:induction false} PeakPaysAll(prof: Profile, since: nat, trace: seq<Arrival>)
    requires InOrder(since, trace)
    requires Covered(PBucket(prof, since), Priced(prof.hz, trace), AllTrue(|trace|))
    ensures AllColor(Run(prof, since, trace).1, {Green, Yellow})
    decreases |trace|
  {
    hide Top, Level, Priced;
    if trace != [] {
      var n, colors, t := |trace| - 1, Run(prof, since, trace).1, Priced(prof.hz, trace);
      SplitLast(prof, since, trace);
      assert AllTrue(|trace|)[..n] == AllTrue(n);
      PeakPaysAll(prof, since, trace[..n]);
      assert Passed(colors)[..n] == AllTrue(n);
      TopSame(PBucket(prof, since), t, Passed(colors), AllTrue(|trace|));
      TwoBuckets(prof, since, trace);
    }
  }

  /** If both buckets can pay for everything, everything is green. */
  lemma {:induction false} BothPayAll(prof: Profile, since: nat, trace: seq<Arrival>)
    requires InOrder(since, trace)
    requires Covered(CBucket(prof, since), Priced(prof.hz, trace), AllTrue(|trace|))
    requires Covered(PBucket(prof, since), Priced(prof.hz, trace), AllTrue(|trace|))
    ensures AllColor(Run(prof, since, trace).1, {Green})
    decreases |trace|
  {
    hide Top, Level, Priced;
    if trace != [] {
      var n, colors, t := |trace| - 1, Run(prof, since, trace).1, Priced(prof.hz, trace);
      SplitLast(prof, since, trace);
      assert AllTrue(|trace|)[..n] == AllTrue(n);
      BothPayAll(prof, since, trace[..n]);
      assert Passed(colors)[..n] == AllTrue(n) && Greens(colors)[..n] == AllTrue(n);
      TopSame(CBucket(prof, since), t, Greens(colors), AllTrue(|trace|));
      TopSame(PBucket(prof, since), t, Passed(colors), AllTrue(|trace|));
      TwoBuckets(prof, since, trace);
    }
  }

  /** No packet is dropped if and only if every window fits the peak rate and burst. */
  lemma {:induction false} NoRedIffFitsPeak(prof: Profile, since: nat, trace: seq<Arrival>)
    requires InOrder(since, trace)
    ensures AllColor(Run(prof, since, trace).1, {Green, Yellow}) <==> Fits(prof.hz, prof.pir, prof.pbs, trace)
  {
    hide Run, Covered, Conforms;
    var colors := Run(prof, since, trace).1;
    TwoBuckets(prof, since, trace);
    PricedTimely(since, prof.hz, trace);
    CoversIffConforms(PBucket(prof, since), Priced(prof.hz, trace));
    if AllColor(colors, {Green, Yellow}) {
      assert Passed(colors) == AllTrue(|trace|);
    } else if Fits(prof.hz, prof.pir, prof.pbs, trace) {
      PeakPaysAll(prof, since, trace);
    }
  }

  /** Every packet is green if and only if every window fits both rates and bursts. */
  lemma {:induction false} AllGreenIffFitsBoth(prof: Profile, since: nat, trace: seq<Arrival>)
    requires InOrder(since, trace)
    ensures AllColor(Run(prof, since, trace).1, {Green}) <==>
            Fits(prof.hz, prof.cir, prof.cbs, trace) && Fits(prof.hz, prof.pir, prof.pbs, trace)
  {
    hide Run, Covered, Conforms;
    var colors := Run(prof, since, trace).1;
    TwoBuckets(prof, since, trace);
    PricedTimely(since, prof.hz, trace);
    CoversIffConforms(CBucket(prof, since), Priced(prof.hz, trace));
    CoversIffConforms(PBucket(prof, since), Priced(prof.hz, trace));
    if AllColor(colors, {Green}) {
      assert Greens(colors) == AllTrue(|trace|) && Passed(colors) == AllTrue(|trace|);
    } else if Fits(prof.hz, prof.cir, prof.cbs, trace) && Fits(prof.hz, prof.pir, prof.pbs, trace) {
      BothPayAll(prof, since, trace);
    }
  }

  /** Completeness: where the committed rate and burst do not exceed the peak ones, as in the
      configured profile, a stream is coloured entirely green exactly when every window fits the
      committed rate and burst: the two buckets together never penalise conforming traffic. */
  lemma {:induction false} AllGreenIffFitsCommitted(prof: Profile, since: nat, trace: seq<Arrival>)
    requires InOrder(since, trace) && prof.cir <= prof.pir && prof.cbs <= prof.pbs
    ensures AllColor(Run(prof, since, trace).1, {Green}) <==> Fits(prof.hz, prof.cir, prof.cbs, trace)
  {
    hide Run, Priced;
    AllGreenIffFitsBoth(prof, since, trace);
    var t := Priced(prof.hz, trace);
    PricedTimely(since, prof.hz, trace);
    if Conforms(prof.cir, prof.hz * prof.cbs, t) {
      forall i, j | 0 <= i < j <= |t|
        ensures Cost(t, i, j) <= prof.hz * prof.pbs + prof.pir * (t[j - 1].time - t[i].time)
      {
        Grows(prof.cir, prof.pir, t[j - 1].time - t[i].time);
        Grows(prof.cbs, prof.pbs, prof.hz);
      }
    }
  }

  lemma Grows(a: nat, b: nat, x: nat)
    requires a <= b
    ensures a * x <= b * x
  {
  }

  /** The profile the program installs is one of those. */
  lemma {:induction false} ConfiguredNeverPenalises(hz: nat, since: nat, trace: seq<Arrival>)
    requires InOrder(since, trace)
    ensures AllColor(Run(Configured(hz), since, trace).1, {Green}) <==> Fits(hz, 10_000_000, 65_536, trace)
  {
    hide Run;
    AllGreenIffFitsCommitted(Configured(hz), since, trace);
  }

  /** Nor drops traffic within the profile's peak. */
  lemma ConfiguredDropsIff(hz: nat, since: nat, trace: seq<Arrival>)
    requires InOrder(since, trace)
    ensures AllColor(Run(Configured(hz), since, trace).1, {Green, Yellow}) <==> Fits(hz, 20_000_000, 131_072, trace)
  {
    hide Run;
    NoRedIffFitsPeak(Configured(hz), since, trace);
  }

  // ---- The colour of every packet of every stream ----

  /** Some window of the stream that ends with the last packet, counting of the packets before it the
      marked ones, carries more than the rate and burst. */
  ghost predicate Exceeds(hz: nat, rate: nat, burst: nat, trace: seq<Arrival>, marked: seq<bool>)
    requires |marked| + 1 == |trace|
  {
    var n := |trace| - 1;
    exists i :: 0 <= i <= n &&
      hz * (Bytes(trace[..n], marked, i) + trace[n].len) > hz * burst + rate * (trace[n].time - trace[i].time)
  }

  lemma ShortBytes(b: Bucket, hz: nat, burst: nat, trace: seq<Arrival>, marked: seq<bool>)
    requires |trace| == |marked| > 0 && b.tokens == b.size == hz * burst && Timely(b.since, Priced(hz, trace))
    ensures Top(b, Priced(hz, trace), marked) < hz * trace[|trace| - 1].len
            <==> Exceeds(hz, b.rate, burst, trace, marked[..|trace| - 1])
  {
    var n, t := |trace| - 1, Priced(hz, trace);
    assert t[..n] == Priced(hz, trace[..n]);
    hide Top, Priced, Timely;
    ShortIffExceeds(b, t, marked, hz * trace[n].len);
    hide Charged, Bytes;
    forall i: nat
      ensures Charged(t[..n], marked[..n], i) + hz * trace[n].len
           == hz * (Bytes(trace[..n], marked[..n], i) + trace[n].len)
    {
      BytesPriced(hz, trace[..n], marked[..n], i);
      Distribute(hz, Bytes(trace[..n], marked[..n], i), trace[n].len);
    }
  }

  lemma Distribute(hz: nat, a: nat, b: nat)
    ensures hz * (a + b) == hz * a + hz * b
  {
  }

  /** The exact colour of the last packet of any stream, and so of every packet, whatever the colours
      before it: red if and only if some window of the packets passed and it exceeds the peak rate and
      burst, green if and only if it is not red and no window of the green packets and it exceeds the
      committed ones. */
  lemma ColourByBytes(prof: Profile, since: nat, trace: seq<Arrival>)
    requires InOrder(since, trace) && trace != []
    ensures var n := |trace| - 1;
            var before, color := Run(prof, since, trace[..n]).1, Run(prof, since, trace).1[n];
            && (color == Red <==> Exceeds(prof.hz, prof.pir, prof.pbs, trace, Passed(before)))
            && (color == Green <==> color != Red && !Exceeds(prof.hz, prof.cir, prof.cbs, trace, Greens(before)))
  {
    hide Run, Greens, Passed, Top, Exceeds, Covered;
    var n, colors := |trace| - 1, Run(prof, since, trace).1;
    TwoBuckets(prof, since, trace);
    SplitLast(prof, since, trace);
    PricedTimely(since, prof.hz, trace);
    ShortBytes(PBucket(prof, since), prof.hz, prof.pbs, trace, Passed(colors));
    ShortBytes(CBucket(prof, since), prof.hz, prof.cbs, trace, Greens(colors));
  }

  // ---- The meter as it runs ----

  /** The packets the policy lets through. */
  function Delivered(trace: seq<Arrival>, colors: seq<Color>): seq<Arrival>
    requires |trace| == |colors|
  {
    if trace == [] then []
    else
      var n := |trace| - 1;
      Delivered(trace[..n], colors[..n]) + if colors[n] == Red then [] else [trace[n]]
  }

  /** They are exactly the packets not red, in order. */
  lemma {:induction false} DeliveredSelects(trace: seq<Arrival>, colors: seq<Color>) returns (idx: seq<nat>)
    requires |trace| == |colors|
    ensures Selects(trace, Delivered(trace, colors), idx)
    ensures forall i :: 0 <= i < |trace| ==> (i in idx <==> colors[i] != Red)
  {
    if trace == [] {
      idx := [];
    } else {
      var n := |trace| - 1;
      idx := DeliveredSelects(trace[..n], colors[..n]);
      SelectsMore(trace[..n], Delivered(trace[..n], colors[..n]), idx, trace[n]);
      assert trace[..n] + [trace[n]] == trace;
      var d := Delivered(trace[..n], colors[..n]);
      assert forall i :: 0 <= i < n ==> (i in idx <==> colors[..n][i] != Red);
      if colors[n] != Red {
        idx := idx + [n];
      } else {
        assert d + [] == d;
      }
    }
  }

  class Policer {
    const prof: Profile
    var c: int
    var p: int
    var last: nat

    function View(): State
      reads this
    {
      State(c, p, last)
    }

    constructor (profile: Profile, now: nat)
      ensures prof == profile && View() == Start(profile, now)
    {
      prof := profile;
      c, p, last := profile.hz * profile.cbs, profile.hz * profile.pbs, now;
    }

    /** Colour one packet, deducting tokens from the persistent buckets. */
    method Meter(a: Arrival) returns (color: Color)
      modifies this
      ensures (View(), color) == Mark(prof, old(View()), a)
    {
      c := Min(prof.hz * prof.cbs, c + prof.cir * (a.time - last));
      p := Min(prof.hz * prof.pbs, p + prof.pir * (a.time - last));
      last := a.time;
      var cost := prof.hz * a.len;
      if p < cost {
        color := Red;
      } else if c < cost {
        color := Yellow;
        p := p - cost;
      } else {
        color := Green;
        p := p - cost;
        c := c - cost;
      }
    }

    /** Meter a stream and apply the policy: exactly the packets not red reach the receive loop, in
        order, and they keep to the peak rate and burst over every window of the stream. */
    method Police(trace: seq<Arrival>) returns (colors: seq<Color>, received: seq<Arrival>, ghost idx: seq<nat>)
      requires InOrder(last, trace) && View() == Start(prof, last)
      modifies this
      ensures colors == Run(prof, old(last), trace).1
      ensures Selects(trace, received, idx) && forall i :: 0 <= i < |trace| ==> (i in idx <==> colors[i] != Red)
      ensures forall i, j :: 0 <= i < j <= |trace| ==>
                prof.hz * Bytes(trace[..j], Passed(colors)[..j], i)
                <= prof.hz * prof.pbs + prof.pir * (trace[j - 1].time - trace[i].time)
    {
      ghost var since := last;
      colors, received := [], [];
      for k := 0 to |trace|
        invariant (View(), colors) == Run(prof, since, trace[..k])
        invariant received == Delivered(trace[..k], colors)
      {
        assert trace[..k + 1][..k] == trace[..k];
        var color := Meter(trace[k]);
        assert (colors + [color])[..k] == colors;
        if color != Red {
          received := received + [trace[k]];
        }
        colors := colors + [color];
      }
      assert trace[..|trace|] == trace;
      idx := DeliveredSelects(trace, colors);
      forall i, j | 0 <= i < j <= |trace|
        ensures prof.hz * Bytes(trace[..j], Passed(colors)[..j], i)
                <= prof.hz * prof.pbs + prof.pir * (trace[j - 1].time - trace[i].time)
      {
        MeterSound(prof, since, trace, i, j);
      }
    }
  }
}
