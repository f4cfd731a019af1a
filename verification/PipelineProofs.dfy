/** What every reachable state of the pipeline keeps. */
module PipelineProofs {
  import opened Basics
  import opened PipelineSpec

  ghost predicate Sane(c: Config) {
    c.limit > 0 && c.burst > 0
  }

  /** Order: packets finish, and stand in line, in the order they came. */
  ghost predicate Ordered(s: State) {
    Increasing(Whole(s)) && forall i :: 0 <= i < |Whole(s)| ==> Whole(s)[i] < s.arrived
  }

  /** Conservation: every packet received is finished, under way, refused by a ring and freed, or
      refused by a ring and leaked; what is finished went to the NIC or was freed. */
  ghost predicate Conserved(s: State) {
    && multiset(Arrivals(0, s.arrived)) ==
         multiset(Whole(s)) + multiset(s.rxFreed) + multiset(s.leaked)
    && multiset(s.finished) == multiset(s.sent) + multiset(s.txFreed)
  }

  ghost predicate StageOk(c: Config, g: Stage, count: nat) {
    && (g.Top? ==> count < c.limit)
    && (g.Stopped? ==> count >= c.limit)
    && |InHand(g)| <= c.burst
  }

  /** The counters count what has gone by, and each thread looks at its own before another round. */
  ghost predicate Counted(c: Config, s: State) {
    && s.rxCount == s.parsed + |s.ring1|
    && s.parsed == |s.finished| + |InHand(s.tx)| + |s.ring2| + |InHand(s.parser)| + |s.leaked|
    && s.sentCount == |s.sent| && |s.finished| == |s.sent| + |s.txFreed|
    && StageOk(c, s.rx, s.rxCount) && (s.rx.Hand? ==> s.rxCount < c.limit)
    && StageOk(c, s.parser, s.parsed) && (s.parser.Hand? ==> s.parsed - |s.parser.pkts| < c.limit)
    && StageOk(c, s.tx, s.sentCount) && (s.tx.Hand? ==> s.sentCount < c.limit)
    && (s.rx.Hand? ==> 0 < |s.rx.pkts|) && (s.parser.Hand? ==> 0 < |s.parser.pkts|) && (s.tx.Hand? ==> 0 < |s.tx.pkts|)
    && s.rxCount <= c.limit - 1 + c.burst && s.parsed <= c.limit - 1 + c.burst && s.sentCount <= c.limit - 1 + c.burst
  }

  ghost predicate Inv(c: Config, s: State) {
    Ordered(s) && Ordered(SentView(s)) && Conserved(s) && Counted(c, s)
  }

  lemma CountedStep(c: Config, s: State, a: Action)
    requires Sane(c) && Counted(c, s)
    ensures Counted(c, Next(c, s, a))
  {
  }

  /** The whole line: what is finished, then what is under way. */
  function Whole(s: State): seq<Packet> {
    s.finished + Line(s)
  }

  /** A suffix of p taken out of the middle of a line. */
  lemma Refuse(ahead: seq<Packet>, p: seq<Packet>, behind: seq<Packet>, k: nat)
    requires k <= |p|
    ensures var w := (ahead + p) + behind;
            && w[..|ahead| + k] + w[|ahead| + |p|..] == (ahead + p[..k]) + behind
            && w[|ahead| + k..|ahead| + |p|] == p[k..]
  {
  }

  lemma RxEnqueueLine(c: Config, s: State)
    requires s.rx.Hand?
    ensures var k := Accepts(c, |s.ring1|, |s.rx.pkts|);
            var at := |Whole(s)| - |s.rx.pkts|;
            && at >= 0 && Whole(Next(c, s, RxEnqueue)) == Whole(s)[..at + k] + Whole(s)[at + |s.rx.pkts|..]
            && s.rx.pkts[k..] == Whole(s)[at + k..at + |s.rx.pkts|]
  {
    var k, p := Accepts(c, |s.ring1|, |s.rx.pkts|), s.rx.pkts;
    var ahead := s.finished + (InHand(s.tx) + s.ring2 + InHand(s.parser));
    assert Whole(s) == ahead + (s.ring1 + p);
    assert Whole(Next(c, s, RxEnqueue)) == ahead + (s.ring1 + p[..k]);
  }

  /** Packets that move from a ring into empty hands stay where they are in the line. */
  lemma TakeUp(ahead: seq<Packet>, ring: seq<Packet>, behind: seq<Packet>, k: nat)
    requires k <= |ring|
    ensures ahead + [] + ring + behind == ahead + ring[..k] + ring[k..] + behind
  {
    assert ahead + [] == ahead;
    assert ahead + ring[..k] + ring[k..] == ahead + (ring[..k] + ring[k..]);
    assert ring[..k] + ring[k..] == ring;
  }

  lemma ParserDequeueLine(c: Config, s: State)
    requires Enabled(c, s, ParserDequeue)
    ensures Whole(Next(c, s, ParserDequeue)) == Whole(s)
  {
    TakeUp(InHand(s.tx) + s.ring2, s.ring1, InHand(s.rx), Min(c.burst, |s.ring1|));
  }

  lemma ParserEnqueueLine(c: Config, s: State)
    requires s.parser.Hand?
    ensures var k, at := Accepts(c, |s.ring2|, |s.parser.pkts|), |s.finished| + |InHand(s.tx)| + |s.ring2|;
            && at + |s.parser.pkts| <= |Whole(s)|
            && Whole(Next(c, s, ParserEnqueue)) == Whole(s)[..at + k] + Whole(s)[at + |s.parser.pkts|..]
            && s.parser.pkts[k..] == Whole(s)[at + k..at + |s.parser.pkts|]
  {
    PutDown(c, s);
    hide Whole, Next, Accepts, InHand;
    CutLine(s.finished, InHand(s.tx) + s.ring2, s.parser.pkts, s.ring1, InHand(s.rx),
            Accepts(c, |s.ring2|, |s.parser.pkts|));
  }

  lemma CutLine(f: seq<Packet>, a: seq<Packet>, p: seq<Packet>, r: seq<Packet>, x: seq<Packet>, k: nat)
    requires k <= |p|
    ensures var w, at := f + (a + p + r + x), |f| + |a|;
            && |w| >= at + |p|
            && f + (a + p[..k] + r + x) == w[..at + k] + w[at + |p|..] && w[at + k..at + |p|] == p[k..]
  {
    Regroup(f, a, p, r, x);
    Regroup(f, a, p[..k], r, x);
    Refuse(f + a, p, r + x, k);
  }

  lemma Regroup(f: seq<Packet>, a: seq<Packet>, p: seq<Packet>, r: seq<Packet>, x: seq<Packet>)
    ensures f + (a + p + r + x) == ((f + a) + p) + (r + x)
  {
  }

  lemma PutDown(c: Config, s: State)
    requires s.parser.Hand?
    ensures var k, p := Accepts(c, |s.ring2|, |s.parser.pkts|), s.parser.pkts;
            && Whole(s) == s.finished + (InHand(s.tx) + s.ring2 + p + s.ring1 + InHand(s.rx))
            && Whole(Next(c, s, ParserEnqueue))
               == s.finished + (InHand(s.tx) + s.ring2 + p[..k] + s.ring1 + InHand(s.rx))
  {
    var k := Accepts(c, |s.ring2|, |s.parser.pkts|);
    assert InHand(s.tx) + (s.ring2 + s.parser.pkts[..k]) + [] == InHand(s.tx) + s.ring2 + s.parser.pkts[..k];
  }

  lemma TxDequeueLine(c: Config, s: State)
    requires Enabled(c, s, TxDequeue)
    ensures Whole(Next(c, s, TxDequeue)) == Whole(s)
  {
    var k := Min(c.burst, |s.ring2|);
    assert [] + s.ring2 == s.ring2 && s.ring2[..k] + s.ring2[k..] == s.ring2;
  }

  lemma TxBurstLine(c: Config, s: State, k: nat)
    requires Enabled(c, s, TxBurst(k))
    ensures Whole(Next(c, s, TxBurst(k))) == Whole(s)
  {
    var behind := s.ring2 + InHand(s.parser) + s.ring1 + InHand(s.rx);
    assert Line(s) == s.tx.pkts + behind;
    assert Line(Next(c, s, TxBurst(k))) == behind;
    assert Whole(Next(c, s, TxBurst(k))) == (s.finished + s.tx.pkts) + behind;
  }

  lemma RxBurstLine(c: Config, s: State, n: nat)
    requires Enabled(c, s, RxBurst(n))
    ensures Whole(Next(c, s, RxBurst(n))) == Whole(s) + Arrivals(s.arrived, n)
  {
  }

  lemma CutOut(w: seq<Packet>, from: nat, to: nat)
    requires from <= to <= |w|
    ensures multiset(w) == multiset(w[..from] + w[to..]) + multiset(w[from..to])
    ensures Increasing(w) ==> Increasing(w[..from] + w[to..])
  {
    assert w == (w[..from] + w[from..to]) + w[to..];
  }

  lemma OrderedStep(c: Config, s: State, a: Action)
    requires Ordered(s)
    ensures Ordered(Next(c, s, a))
  {
    hide Whole, Accepts, InHand;
    if Enabled(c, s, a) {
      var w := Whole(s);
      match a
      case RxBurst(n) => RxBurstLine(c, s, n);
      case RxEnqueue =>
        RxEnqueueLine(c, s);
        var k, at := Accepts(c, |s.ring1|, |s.rx.pkts|), |w| - |s.rx.pkts|;
        CutOut(w, at + k, at + |s.rx.pkts|);
      case ParserDequeue => ParserDequeueLine(c, s);
      case ParserEnqueue =>
        ParserEnqueueLine(c, s);
        var k, at := Accepts(c, |s.ring2|, |s.parser.pkts|), |s.finished| + |InHand(s.tx)| + |s.ring2|;
        CutOut(w, at + k, at + |s.parser.pkts|);
      case TxDequeue => TxDequeueLine(c, s);
      case TxBurst(k) => TxBurstLine(c, s, k);
    }
  }

  lemma RxBurstKeeps(c: Config, s: State, n: nat)
    requires Conserved(s) && Enabled(c, s, RxBurst(n))
    ensures Conserved(Next(c, s, RxBurst(n)))
  {
    hide Whole;
    RxBurstLine(c, s, n);
    assert Arrivals(0, s.arrived + n) == Arrivals(0, s.arrived) + Arrivals(s.arrived, n);
    var refused := multiset(s.rxFreed) + multiset(s.leaked);
    assert multiset(Arrivals(0, s.arrived + n)) == (multiset(Whole(s)) + multiset(Arrivals(s.arrived, n))) + refused;
  }

  /** A ring refuses a stretch of the line: the stretch is accounted for. */
  lemma RefusalKeeps(s: State, t: State, from: nat, to: nat)
    requires Conserved(s) && from <= to <= |Whole(s)|
    requires Whole(t) == Whole(s)[..from] + Whole(s)[to..]
    requires t.arrived == s.arrived && t.finished == s.finished && t.sent == s.sent && t.txFreed == s.txFreed
    requires multiset(t.rxFreed) + multiset(t.leaked) ==
             multiset(s.rxFreed) + multiset(s.leaked) + multiset(Whole(s)[from..to])
    ensures Conserved(t)
  {
    hide Whole;
    CutOut(Whole(s), from, to);
    var lost := multiset(Whole(s)[from..to]);
    calc {
      multiset(Arrivals(0, s.arrived));
    == multiset(Whole(t)) + (multiset(s.rxFreed) + multiset(s.leaked) + lost);
    == multiset(Whole(t)) + multiset(t.rxFreed) + multiset(t.leaked);
    }
  }

  lemma RxEnqueueKeeps(c: Config, s: State)
    requires Conserved(s) && s.rx.Hand?
    ensures Conserved(Next(c, s, RxEnqueue))
  {
    hide Whole, Accepts, Conserved;
    RxEnqueueLine(c, s);
    var k, at := Accepts(c, |s.ring1|, |s.rx.pkts|), |Whole(s)| - |s.rx.pkts|;
    RefusalKeeps(s, Next(c, s, RxEnqueue), at + k, at + |s.rx.pkts|);
  }

  lemma ParserEnqueueKeeps(c: Config, s: State)
    requires Conserved(s) && s.parser.Hand?
    ensures Conserved(Next(c, s, ParserEnqueue))
  {
    hide Whole, Accepts, Conserved, InHand;
    ParserEnqueueLine(c, s);
    var k, at := Accepts(c, |s.ring2|, |s.parser.pkts|), |s.finished| + |InHand(s.tx)| + |s.ring2|;
    RefusalKeeps(s, Next(c, s, ParserEnqueue), at + k, at + |s.parser.pkts|);
  }

  lemma TxBurstKeeps(c: Config, s: State, k: nat)
    requires Conserved(s) && Enabled(c, s, TxBurst(k))
    ensures Conserved(Next(c, s, TxBurst(k)))
  {
    hide Whole;
    TxBurstLine(c, s, k);
    var t, p := Next(c, s, TxBurst(k)), s.tx.pkts;
    assert p == p[..k] + p[k..];
    calc {
      multiset(t.finished);
    == multiset(s.finished) + (multiset(p[..k]) + multiset(p[k..]));
    == (multiset(s.sent) + multiset(p[..k])) + (multiset(s.txFreed) + multiset(p[k..]));
    == multiset(t.sent) + multiset(t.txFreed);
    }
  }

  /** The line behind what the NIC took instead of behind what is finished. */
  function SentView(s: State): State {
    s.(finished := s.sent)
  }

  /** Output order: what the NIC took, and what is still under way behind it, is in arrival order. */
  lemma SentStep(c: Config, s: State, a: Action)
    requires Ordered(SentView(s))
    ensures Ordered(SentView(Next(c, s, a)))
  {
    hide Whole, Ordered;
    if Enabled(c, s, a) && a.TxBurst? {
      OrderedStep(c, SentView(s), a);
      SentCut(Next(c, SentView(s), a), SentView(Next(c, s, a)), |s.sent| + a.taken, |s.sent| + |s.tx.pkts|);
    } else {
      OrderedStep(c, SentView(s), a);
      assert Next(c, SentView(s), a) == SentView(Next(c, s, a));
    }
  }

  lemma SentCut(s: State, t: State, from: nat, to: nat)
    requires Ordered(s) && from <= to <= |s.finished| && t.arrived == s.arrived && Line(t) == Line(s)
    requires t.finished == s.finished[..from] + s.finished[to..]
    ensures Ordered(t)
  {
    hide Line;
    assert Whole(t) == Whole(s)[..from] + Whole(s)[to..];
    CutOut(Whole(s), from, to);
  }

  lemma NextKeepsInv(c: Config, s: State, a: Action)
    requires Sane(c) && Inv(c, s)
    ensures Inv(c, Next(c, s, a))
  {
    hide Whole, Counted, Ordered, Conserved;
    CountedStep(c, s, a);
    OrderedStep(c, s, a);
    SentStep(c, s, a);
    ConservedStep(c, s, a);
  }

  lemma ConservedStep(c: Config, s: State, a: Action)
    requires Conserved(s)
    ensures Conserved(Next(c, s, a))
  {
    hide Whole;
    if Enabled(c, s, a) {
      match a
      case RxBurst(n) => RxBurstKeeps(c, s, n);
      case RxEnqueue => RxEnqueueKeeps(c, s);
      case ParserDequeue => ParserDequeueLine(c, s);
      case ParserEnqueue => ParserEnqueueKeeps(c, s);
      case TxDequeue => TxDequeueLine(c, s);
      case TxBurst(k) => TxBurstKeeps(c, s, k);
    }
  }

  /** Order and conservation in every reachable state, whatever the limits, ring sizes and refusals. */
  lemma {:induction false} RunKeepsInv(c: Config, acts: seq<Action>)
    requires Sane(c)
    ensures Inv(c, Run(c, acts))
  {
    if acts == [] {
      assert Whole(Init()) == [];
    } else {
      RunKeepsInv(c, acts[..|acts| - 1]);
      NextKeepsInv(c, Run(c, acts[..|acts| - 1]), acts[|acts| - 1]);
    }
  }

  /** A stage that passes on part of its burst passes on the front of it. */
  ghost predicate FrontTaken(burst: seq<Packet>, before: seq<Packet>, after: seq<Packet>,
                             refusedBefore: seq<Packet>, refusedAfter: seq<Packet>) {
    exists k :: 0 <= k <= |burst| && after == before + burst[..k] && refusedAfter == refusedBefore + burst[k..]
  }

  lemma FrontIsTaken(burst: seq<Packet>, k: nat, before: seq<Packet>, refusedBefore: seq<Packet>)
    requires k <= |burst|
    ensures FrontTaken(burst, before, before + burst[..k], refusedBefore, refusedBefore + burst[k..])
  {
  }

  lemma MiddleRises(a: seq<Packet>, m: seq<Packet>, b: seq<Packet>)
    requires Increasing((a + m) + b)
    ensures Increasing(m)
  {
    forall i, j | 0 <= i < j < |m| ensures m[i] < m[j] {
      assert ((a + m) + b)[|a| + i] == m[i] && ((a + m) + b)[|a| + j] == m[j];
    }
  }

  lemma HandRises(c: Config, s: State)
    requires Inv(c, s)
    ensures Increasing(InHand(s.rx)) && Increasing(InHand(s.parser)) && Increasing(InHand(s.tx))
  {
    var f, t, p, x := s.finished, InHand(s.tx), InHand(s.parser), InHand(s.rx);
    LineRises(f, t, s.ring2, p, s.ring1, x);
  }

  lemma LineRises(f: seq<Packet>, t: seq<Packet>, r2: seq<Packet>, p: seq<Packet>, r1: seq<Packet>, x: seq<Packet>)
    requires Increasing(f + (t + r2 + p + r1 + x))
    ensures Increasing(t) && Increasing(p) && Increasing(x)
  {
    hide Increasing;
    assert f + (t + r2 + p + r1 + x) == (f + t) + (r2 + p + r1 + x);
    MiddleRises(f, t, r2 + p + r1 + x);
    Regroup(f, t + r2, p, r1, x);
    MiddleRises(f + (t + r2), p, r1 + x);
    assert f + (t + r2 + p + r1 + x) == (f + (t + r2 + p + r1) + x) + [];
    MiddleRises(f + (t + r2 + p + r1), x, []);
  }

  /** Each stage passes on the front of its burst and gives up the rest, in every reachable state: the
      receive stage to ring 1, the parser to ring 2, the transmit stage to the card, which takes k. What
      it passes on came before what it gives up. */
  lemma FrontGoesOn(c: Config, acts: seq<Action>, k: nat)
    requires Sane(c)
    ensures var s := Run(c, acts);
            && (Enabled(c, s, RxEnqueue) ==>
                  var t := Next(c, s, RxEnqueue);
                  Increasing(s.rx.pkts) && FrontTaken(s.rx.pkts, s.ring1, t.ring1, s.rxFreed, t.rxFreed))
            && (Enabled(c, s, ParserEnqueue) ==>
                  var t := Next(c, s, ParserEnqueue);
                  Increasing(s.parser.pkts) && FrontTaken(s.parser.pkts, s.ring2, t.ring2, s.leaked, t.leaked))
            && (Enabled(c, s, TxBurst(k)) ==>
                  var t := Next(c, s, TxBurst(k));
                  && Increasing(s.tx.pkts) && FrontTaken(s.tx.pkts, s.sent, t.sent, s.txFreed, t.txFreed)
                  && |t.sent| == |s.sent| + k && t.finished == s.finished + s.tx.pkts)
  {
    hide Run, Inv;
    var s := Run(c, acts);
    RunKeepsInv(c, acts);
    HandRises(c, s);
    hide Increasing, FrontTaken;
    if Enabled(c, s, RxEnqueue) {
      FrontIsTaken(s.rx.pkts, Accepts(c, |s.ring1|, |s.rx.pkts|), s.ring1, s.rxFreed);
    }
    if Enabled(c, s, ParserEnqueue) {
      FrontIsTaken(s.parser.pkts, Accepts(c, |s.ring2|, |s.parser.pkts|), s.ring2, s.leaked);
    }
    if Enabled(c, s, TxBurst(k)) {
      FrontIsTaken(s.tx.pkts, k, s.sent, s.txFreed);
    }
  }

  /** In every reachable state the three counters say how many packets each stage has passed on, refused
      ones not counted, and a thread has stopped exactly if it has looked at a counter at its limit. */
  lemma CountersCount(c: Config, acts: seq<Action>)
    requires Sane(c)
    ensures var s := Run(c, acts);
            && s.rxCount + |s.rxFreed| + |InHand(s.rx)| == s.arrived
            && s.parsed + |s.ring1| == s.rxCount
            && |s.finished| + |InHand(s.tx)| + |s.ring2| + |InHand(s.parser)| + |s.leaked| == s.parsed
            && s.sentCount == |s.sent| && |s.sent| + |s.txFreed| == |s.finished|
            && (s.rx.Stopped? ==> s.rxCount >= c.limit) && (s.rx.Top? ==> s.rxCount < c.limit)
            && (s.parser.Stopped? ==> s.parsed >= c.limit) && (s.parser.Top? ==> s.parsed < c.limit)
            && (s.tx.Stopped? ==> s.sentCount >= c.limit) && (s.tx.Top? ==> s.sentCount < c.limit)
  {
    hide Run;
    RunKeepsInv(c, acts);
    ArrivedCount(c, Run(c, acts));
  }

  lemma ArrivedCount(c: Config, s: State)
    requires Inv(c, s)
    ensures |Whole(s)| + |s.rxFreed| + |s.leaked| == s.arrived
  {
    calc {
      s.arrived;
    == |Arrivals(0, s.arrived)|;
    == |multiset(Arrivals(0, s.arrived))|;
    == |multiset(Whole(s)) + multiset(s.rxFreed) + multiset(s.leaked)|;
    == |Whole(s)| + |s.rxFreed| + |s.leaked|;
    }
  }
}
