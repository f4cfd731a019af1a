/** Main results about the pipeline: when rings never refuse, what comes out, when it stops. */
module PipelineTheorems {
  import opened Basics
  import opened PipelineSpec
  import opened PipelineProofs

  ghost predicate Refused(s: State) {
    s.rxFreed != [] || s.leaked != []
  }

  ghost predicate Roomy(c: Config) {
    c.limit - 1 + c.burst <= c.cap
  }

  /** Where the rings have room for everything a stage can handle before it stops, no ring refuses. */
  lemma {:induction false} RoomyNeverRefuses(c: Config, acts: seq<Action>)
    requires Sane(c) && Roomy(c)
    ensures !Refused(Run(c, acts))
  {
    if acts != [] {
      RoomyNeverRefuses(c, acts[..|acts| - 1]);
      RunKeepsInv(c, acts[..|acts| - 1]);
      RoomyStep(c, Run(c, acts[..|acts| - 1]), acts[|acts| - 1]);
    }
  }

  lemma RoomyStep(c: Config, s: State, a: Action)
    requires Roomy(c) && Counted(c, s) && !Refused(s)
    ensures !Refused(Next(c, s, a))
  {
  }

  /** Receive k single packets, the other stages never being scheduled. */
  function Singles(k: nat): (acts: seq<Action>)
    ensures |acts| == 2 * k
  {
    if k == 0 then [] else Singles(k - 1) + [RxBurst(1), RxEnqueue]
  }

  lemma RunTwo(c: Config, acts: seq<Action>, a: Action, b: Action)
    ensures Run(c, acts + [a, b]) == Next(c, Next(c, Run(c, acts), a), b)
  {
    assert (acts + [a, b])[..|acts| + 1] == acts + [a];
    assert (acts + [a])[..|acts|] == acts;
  }

  lemma {:induction false} SinglesFill(c: Config, k: nat)
    requires Sane(c) && k < c.limit && k <= c.cap
    ensures var s := Run(c, Singles(k));
            s.rx.Top? && s.rxCount == k && |s.ring1| == k && s.rxFreed == []
  {
    if k > 0 {
      SinglesFill(c, k - 1);
      RunTwo(c, Singles(k - 1), RxBurst(1), RxEnqueue);
    }
  }

  /** Exactly then: with a smaller ring some schedule makes ring 1 refuse. */
  lemma NeverRefusesIffRoomy(c: Config)
    requires Sane(c)
    ensures (forall acts :: !Refused(Run(c, acts))) <==> Roomy(c)
  {
    if Roomy(c) {
      forall acts ensures !Refused(Run(c, acts)) { RoomyNeverRefuses(c, acts); }
    } else {
      var k := Min(c.limit - 1, c.cap);
      SinglesFill(c, k);
      RunTwo(c, Singles(k), RxBurst(c.burst), RxEnqueue);
      assert Refused(Run(c, Singles(k) + [RxBurst(c.burst), RxEnqueue]));
    }
  }

  /** The program's own constants are roomy, so the parser's ignored short enqueue loses nothing. */
  lemma ConfiguredNeverRefuses(acts: seq<Action>)
    ensures Run(CONFIGURED, acts).leaked == [] && Run(CONFIGURED, acts).rxFreed == []
    ensures Run(CONFIGURED, acts).rxCount <= 56 && Run(CONFIGURED, acts).parsed <= 56
    ensures Run(CONFIGURED, acts).sentCount <= 56
  {
    RoomyNeverRefuses(CONFIGURED, acts);
    RunKeepsInv(CONFIGURED, acts);
  }

  // ---- When the parser's missing free loses packets ----

  /** What the rings and the parser's hands hold fits a ring. */
  ghost predicate Held(c: Config, s: State) {
    |s.ring1| <= c.cap && |InHand(s.parser)| <= Min(c.burst, c.cap)
  }

  /** A burst of the parser's, which one ring has held, fits the other beside what came before it. */
  ghost predicate Spacious(c: Config) {
    c.cap == 0 || c.limit - 1 + Min(c.burst, c.cap) <= c.cap
  }

  lemma SpaciousStep(c: Config, s: State, a: Action)
    requires Spacious(c) && Counted(c, s) && Held(c, s) && s.leaked == []
    ensures Held(c, Next(c, s, a)) && Next(c, s, a).leaked == []
  {
  }

  lemma {:induction false} SpaciousKeeps(c: Config, acts: seq<Action>)
    requires Sane(c) && Spacious(c)
    ensures Held(c, Run(c, acts)) && Run(c, acts).leaked == []
  {
    hide Next, Held, Inv;
    if acts == [] {
      NothingHeld(c);
    } else {
      var s := Run(c, acts[..|acts| - 1]);
      SpaciousKeeps(c, acts[..|acts| - 1]);
      RunKeepsInv(c, acts[..|acts| - 1]);
      InvCounts(c, s);
      SpaciousStep(c, s, acts[|acts| - 1]);
    }
  }

  lemma NothingHeld(c: Config)
    ensures Held(c, Init())
  {
  }

  /** k packets taken as far as ring 2, one at a time. */
  function Feeds(k: nat): seq<Action> {
    if k == 0 then [] else Feeds(k - 1) + [RxBurst(1), RxEnqueue] + [ParserDequeue, ParserEnqueue]
  }

  /** Receive and parser between two rounds, ring 1 empty and k packets on ring 2. */
  ghost predicate Fed(s: State, k: nat) {
    && s.rx.Top? && s.rxCount == k && s.ring1 == [] && s.parser.Top? && s.parsed == k
    && |s.ring2| == k && s.leaked == []
  }

  lemma FeedBurst(c: Config, s: State, k: nat, n: nat)
    requires Fed(s, k) && 0 < n <= c.burst && k < c.limit && k <= c.cap
    ensures var t := Next(c, Next(c, Next(c, Next(c, s, RxBurst(n)), RxEnqueue), ParserDequeue), ParserEnqueue);
            && (n == 1 && k < c.cap && k + 1 < c.limit ==> Fed(t, k + 1))
            && (c.cap > 0 && k + Min(n, c.cap) > c.cap ==> t.leaked != [])
  {
    var h := Min(n, c.cap);
    var t1 := Next(c, Next(c, s, RxBurst(n)), RxEnqueue);
    assert |t1.ring1| == h && t1.ring2 == s.ring2 && t1.parser == s.parser && t1.leaked == [];
    if h > 0 {
      var t2 := Next(c, t1, ParserDequeue);
      assert t2.parser == Hand(t1.ring1[..h]) && t2.ring1 == [] && t2.ring2 == s.ring2;
    }
  }

  lemma {:induction false} FeedsFill(c: Config, k: nat)
    requires Sane(c) && k < c.limit && k <= c.cap
    ensures Fed(Run(c, Feeds(k)), k)
  {
    if k > 0 {
      hide Next, Fed;
      FeedsFill(c, k - 1);
      RunTwo(c, Feeds(k - 1), RxBurst(1), RxEnqueue);
      RunTwo(c, Feeds(k - 1) + [RxBurst(1), RxEnqueue], ParserDequeue, ParserEnqueue);
      FeedBurst(c, Run(c, Feeds(k - 1)), k - 1, 1);
    }
  }

  /** The parser's ignored short enqueue never loses a packet, in any schedule, if and only if the rings
      are spacious. */
  lemma NeverLeaksIffSpacious(c: Config)
    requires Sane(c)
    ensures (forall acts :: Run(c, acts).leaked == []) <==> Spacious(c)
  {
    if Spacious(c) {
      forall acts ensures Run(c, acts).leaked == [] { SpaciousKeeps(c, acts); }
    } else {
      var k := Min(c.limit - 1, c.cap);
      FeedsFill(c, k);
      RunTwo(c, Feeds(k), RxBurst(c.burst), RxEnqueue);
      RunTwo(c, Feeds(k) + [RxBurst(c.burst), RxEnqueue], ParserDequeue, ParserEnqueue);
      hide Next;
      FeedBurst(c, Run(c, Feeds(k)), k, c.burst);
      assert Run(c, Feeds(k) + [RxBurst(c.burst), RxEnqueue] + [ParserDequeue, ParserEnqueue]).leaked != [];
    }
  }

  // ---- Order ----

  lemma {:induction false} IncreasingBelow(p: seq<Packet>, n: nat)
    requires Increasing(p) && |p| == n && forall i :: 0 <= i < n ==> p[i] < n
    ensures p == Arrivals(0, n)
  {
    if n > 0 {
      assert p[n - 1] >= n - 1 by { IncreasingAtLeast(p, n - 1); }
      IncreasingBelow(p[..n - 1], n - 1);
      assert p == p[..n - 1] + [n - 1];
    }
  }

  lemma {:induction false} IncreasingAtLeast(p: seq<Packet>, i: nat)
    requires Increasing(p) && i < |p|
    ensures p[i] >= i
  {
    if i > 0 { IncreasingAtLeast(p, i - 1); }
  }

  /** Exact order: in a roomy pipeline the packets finished, on ring 2, on ring 1 and in hand are at
      every moment all the packets received, in arrival order; what the NIC took is in arrival order,
      and if the NIC refused none it is the first packets received. */
  lemma ArrivalOrder(c: Config, acts: seq<Action>)
    requires Sane(c) && Roomy(c)
    ensures var s := Run(c, acts);
            && s.finished + Line(s) == Arrivals(0, s.arrived)
            && Increasing(s.sent)
            && (s.txFreed == [] ==> s.sent == Arrivals(0, |s.sent|))
  {
    hide Line;
    RunKeepsInv(c, acts);
    RoomyNeverRefuses(c, acts);
    var s := Run(c, acts);
    assert |multiset(Arrivals(0, s.arrived))| == |multiset(Whole(s))|;
    IncreasingBelow(Whole(s), s.arrived);
    assert forall i :: 0 <= i < |s.sent| ==> s.sent[i] == Whole(SentView(s))[i];
    if s.txFreed == [] {
      assert multiset(s.sent) == multiset(s.finished);
      assert forall i :: 0 <= i < |s.finished| ==> s.finished[i] == Whole(s)[i];
      assert |s.sent| == |s.finished|;
      forall i | 0 <= i < |s.sent| ensures s.sent[i] < |s.sent| {
        assert s.sent[i] in multiset(s.sent);
        assert s.sent[i] in s.finished;
      }
      IncreasingBelow(s.sent, |s.sent|);
    }
  }

  // ---- Stopping ----

  /** How far the packets have come altogether, a place in line at a time. */
  function Progress(s: State): nat {
    |InHand(s.rx)| + 2 * |s.ring1| + 3 * |InHand(s.parser)| + 4 * |s.ring2| + 5 * |InHand(s.tx)|
    + 6 * (|s.finished| + |s.rxFreed| + |s.leaked|)
  }

  /** How many actions of a schedule move packets. */
  function Moves(c: Config, acts: seq<Action>): nat {
    if acts == [] then 0
    else Moves(c, acts[..|acts| - 1]) + if Enabled(c, Run(c, acts[..|acts| - 1]), acts[|acts| - 1]) then 1 else 0
  }

  lemma ProgressStep(c: Config, s: State, a: Action)
    requires Sane(c) && Counted(c, s) && Enabled(c, s, a)
    ensures Progress(Next(c, s, a)) > Progress(s)
  {
  }

  lemma {:induction false} MovesBound(c: Config, acts: seq<Action>)
    requires Sane(c)
    ensures Moves(c, acts) <= Progress(Run(c, acts))
  {
    hide Next, Progress, Inv;
    if acts == [] {
      assert Progress(Init()) >= 0;
    } else {
      var s := Run(c, acts[..|acts| - 1]);
      MovesBound(c, acts[..|acts| - 1]);
      RunKeepsInv(c, acts[..|acts| - 1]);
      InvCounts(c, s);
      var a := acts[|acts| - 1];
      if Enabled(c, s, a) { ProgressStep(c, s, a); } else { NotEnabled(c, s, a); }
    }
  }

  lemma InvCounts(c: Config, s: State)
    requires Inv(c, s)
    ensures Counted(c, s) && |s.finished + Line(s)| + |s.rxFreed| + |s.leaked| == s.arrived
  {
    assert |multiset(Arrivals(0, s.arrived))|
        == |multiset(Whole(s)) + multiset(s.rxFreed) + multiset(s.leaked)|;
  }

  lemma NotEnabled(c: Config, s: State, a: Action)
    requires !Enabled(c, s, a)
    ensures Next(c, s, a) == s
  {
  }

  /** Termination: a roomy pipeline makes at most six moves for each of the limit - 1 + burst packets
      it can ever receive, in any schedule. */
  lemma {:induction false} RoomyTerminates(c: Config, acts: seq<Action>)
    requires Sane(c) && Roomy(c)
    ensures Run(c, acts).arrived <= c.limit - 1 + c.burst
    ensures Moves(c, acts) <= 6 * (c.limit - 1 + c.burst)
  {
    hide Run, Inv;
    var s := Run(c, acts);
    MovesBound(c, acts);
    RunKeepsInv(c, acts);
    RoomyNeverRefuses(c, acts);
    InvCounts(c, s);
    assert s.arrived == s.rxCount + |InHand(s.rx)|;
  }

  /** No thread can move a packet, though the NIC may have any number to offer. */
  ghost predicate Stuck(c: Config, s: State) {
    forall a: Action :: !Enabled(c, s, a)
  }

  /** The transmit stage polls an empty ring for ever. */
  ghost predicate Hung(s: State) {
    s.rx.Stopped? && s.parser.Stopped? && s.tx.Top? && s.ring2 == []
  }

  ghost predicate AllStopped(s: State) {
    s.rx.Stopped? && s.parser.Stopped? && s.tx.Stopped?
  }

  lemma StuckShape(c: Config, s: State)
    requires Sane(c) && Roomy(c) && Counted(c, s) && !Refused(s)
    ensures Stuck(c, s) <==> AllStopped(s) || Hung(s)
    ensures Stuck(c, s) ==> (Hung(s) <==> |s.txFreed| > s.parsed - c.limit)
    ensures AllStopped(s) ==> |s.ring1| + |s.ring2| <= c.burst - 1
  {
    if Stuck(c, s) {
      assert !Enabled(c, s, RxBurst(1)) && !Enabled(c, s, RxEnqueue);
      assert !Enabled(c, s, ParserDequeue) && !Enabled(c, s, ParserEnqueue);
      assert !Enabled(c, s, TxDequeue) && !Enabled(c, s, TxBurst(0));
    }
  }

  /** Stopping: a roomy pipeline is stuck only when all three threads have stopped, at most burst - 1
      packets then staying on the rings, or when transmit polls an empty ring behind two stopped
      threads; and that happens exactly when the NIC refused more packets than were parsed beyond the
      limit. In particular a NIC that refuses none lets all three stop. */
  lemma StopsUnlessNicRefuses(c: Config, acts: seq<Action>)
    requires Sane(c) && Roomy(c)
    ensures var s := Run(c, acts);
            && (Stuck(c, s) <==> AllStopped(s) || Hung(s))
            && (Stuck(c, s) ==> (Hung(s) <==> |s.txFreed| > s.parsed - c.limit))
            && (Stuck(c, s) && s.txFreed == [] ==> AllStopped(s))
            && (AllStopped(s) ==> |s.ring1| + |s.ring2| <= c.burst - 1)
  {
    hide Run, Stuck;
    RunKeepsInv(c, acts);
    RoomyNeverRefuses(c, acts);
    StuckShape(c, Run(c, acts));
  }

  /** And it does happen: with the program's constants, one packet refused by the NIC out of the first
      25 leaves transmit short of its limit for ever. */
  lemma TransmitCanHang()
    ensures var s := Run(CONFIGURED, [RxBurst(25), RxEnqueue, ParserDequeue, ParserEnqueue, TxDequeue, TxBurst(24)]);
            Hung(s) && Stuck(CONFIGURED, s) && s.sentCount == 24
  {
    var c := CONFIGURED;
    RunTwo(c, [], RxBurst(25), RxEnqueue);
    RunTwo(c, [RxBurst(25), RxEnqueue], ParserDequeue, ParserEnqueue);
    RunTwo(c, [RxBurst(25), RxEnqueue, ParserDequeue, ParserEnqueue], TxDequeue, TxBurst(24));
    var acts := [RxBurst(25), RxEnqueue, ParserDequeue, ParserEnqueue, TxDequeue, TxBurst(24)];
    assert [] + [RxBurst(25), RxEnqueue] == [RxBurst(25), RxEnqueue];
    assert [RxBurst(25), RxEnqueue] + [ParserDequeue, ParserEnqueue]
        == [RxBurst(25), RxEnqueue, ParserDequeue, ParserEnqueue];
    assert [RxBurst(25), RxEnqueue, ParserDequeue, ParserEnqueue] + [TxDequeue, TxBurst(24)] == acts;
    var s2 := Run(c, [RxBurst(25), RxEnqueue]);
    assert s2.ring1 == Arrivals(0, 25) && s2.rx.Stopped?;
    var s4 := Run(c, [RxBurst(25), RxEnqueue, ParserDequeue, ParserEnqueue]);
    assert s4.ring2 == Arrivals(0, 25) && s4.parser.Stopped?;
    StopsUnlessNicRefuses(c, acts);
  }
}
