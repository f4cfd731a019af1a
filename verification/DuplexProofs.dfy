/** The exchange is a baton: at every moment at most one block exists and one process may move. */
module DuplexProofs {
  import opened DuplexSpec

  function Tenfold(m: seq<int>): (r: seq<int>)
    ensures |r| == |m| && forall k :: 0 <= k < |m| ==> r[k] == 10 * m[k]
  {
    seq(|m|, k requires 0 <= k < |m| => 10 * m[k])
  }

  /** Where the baton is: how many steps of its round trip the current message has made. */
  ghost predicate Baton(s: State, step: nat) {
    var more := s.i < |s.msgs|;
    var v := if more then s.msgs[s.i] else -1;
    var waiting := if more then Awaiting else PDone;
    match step
    case 0 => s.prim.Loop? && s.sec.Polling? && s.ring1 == [] && s.ring2 == [] && s.heap == map[]
    case 1 =>
      && s.sec.Polling? && s.ring1 == [] && s.ring2 == []
      && (if more then s.prim.Sending? else s.prim.Stopping?) && s.heap == map[s.prim.p := v]
    case 2 =>
      && s.prim == waiting && s.sec.Polling? && |s.ring1| == 1 && s.ring2 == []
      && s.heap == map[s.ring1[0] := v]
    case 3 =>
      && s.prim == waiting && s.sec.Received? && s.ring1 == [] && s.ring2 == []
      && s.heap == map[s.sec.p := v]
    case 4 =>
      && s.ring1 == [] && s.ring2 == [] && s.heap == map[] && s.prim == waiting
      && (if v == -1 then s.sec.SDone? else more && s.sec == Computed(10 * v))
    case 5 =>
      && v != -1 && s.prim.Awaiting? && s.sec.Replying? && s.ring1 == [] && s.ring2 == []
      && s.heap == map[s.sec.p := 10 * v]
    case 6 =>
      && v != -1 && s.prim.Awaiting? && s.sec.Polling? && s.ring1 == [] && |s.ring2| == 1
      && s.heap == map[s.ring2[0] := 10 * v]
    case 7 =>
      && v != -1 && s.prim.Got? && s.sec.Polling? && s.ring1 == [] && s.ring2 == []
      && s.heap == map[s.prim.p := 10 * v]
    case _ => false
  }

  ghost predicate Inv(s: State, step: nat) {
    && !s.crashed && s.cap > 0 && s.i <= |s.msgs| && Baton(s, step)
    && s.replies == Tenfold(s.msgs[..s.i]) && (forall k :: 0 <= k < s.i ==> s.msgs[k] != -1)
    && s.allocs == s.frees + |s.heap|
  }

  /** The baton is at rest for good: the secondary has met -1, the stop block or a message. */
  ghost predicate AtRest(s: State, step: nat) {
    step == 4 && (s.i < |s.msgs| ==> s.msgs[s.i] == -1)
  }

  /** A block in hand is live. */
  lemma Alive(s: State, at: nat)
    requires Inv(s, at)
    ensures !s.crashed && (s.prim.Got? ==> s.prim.p in s.heap) && (s.sec.Received? ==> s.sec.p in s.heap)
  {
  }

  lemma PrimMoves(s: State, step: nat, addr: Addr)
    requires Inv(s, step) && Enabled(s, Prim(addr))
    ensures !AtRest(s, step) && PrimStep(s, addr).msgs == s.msgs
    ensures if step == 7 then Inv(PrimStep(s, addr), 0) && PrimStep(s, addr).i == s.i + 1
            else Inv(PrimStep(s, addr), step + 1) && PrimStep(s, addr).i == s.i
  {
    if step == 7 { assert s.msgs[..s.i + 1] == s.msgs[..s.i] + [s.msgs[s.i]]; }
  }

  lemma SecMoves(s: State, step: nat, addr: Addr)
    requires Inv(s, step) && Enabled(s, Sec(addr))
    ensures !AtRest(s, step) && SecStep(s, addr).msgs == s.msgs
    ensures step < 7 && Inv(SecStep(s, addr), step + 1) && SecStep(s, addr).i == s.i
  {
  }

  /** Whoever can move carries the baton one step on, and nobody can once it is at rest. */
  lemma BatonMoves(s: State, step: nat, a: Action)
    requires Inv(s, step) && Enabled(s, a)
    ensures !AtRest(s, step) && Next(s, a).msgs == s.msgs
    ensures if step == 7 then Inv(Next(s, a), 0) && Next(s, a).i == s.i + 1
            else Inv(Next(s, a), step + 1) && Next(s, a).i == s.i
  {
    hide Baton;
    match a
    case Prim(addr) => PrimMoves(s, step, addr);
    case Sec(addr) => SecMoves(s, step, addr);
  }

  ghost predicate Stuck(s: State) {
    forall a: Action :: !Enabled(s, a)
  }

  /** Nobody can move exactly when the baton is at rest. */
  lemma StuckIffRest(s: State, step: nat)
    requires Inv(s, step)
    ensures Stuck(s) <==> AtRest(s, step)
  {
    if AtRest(s, step) {
      forall a: Action ensures !Enabled(s, a) {
        if Enabled(s, a) { BatonMoves(s, step, a); }
      }
    }
    if Stuck(s) {
      assert !Enabled(s, Prim(0)) && !Enabled(s, Sec(0));
    }
  }

  function Moves(s: State, acts: seq<Action>): nat {
    if acts == [] then 0
    else Moves(s, acts[..|acts| - 1]) + if Enabled(Run(s, acts[..|acts| - 1]), acts[|acts| - 1]) then 1 else 0
  }

  lemma {:induction false} RunKeepsInv(msgs: seq<int>, cap: nat, acts: seq<Action>) returns (step: nat)
    requires cap > 0
    ensures var s := Run(Init(msgs, cap), acts);
            Inv(s, step) && s.msgs == msgs && Moves(Init(msgs, cap), acts) == 8 * s.i + step
  {
    hide Baton, Next;
    if acts == [] {
      step := 0;
      InitInv(msgs, cap);
    } else {
      var before, a := acts[..|acts| - 1], acts[|acts| - 1];
      var s := Run(Init(msgs, cap), before);
      step := RunKeepsInv(msgs, cap, before);
      if Enabled(s, a) {
        BatonMoves(s, step, a);
        step := if step == 7 then 0 else step + 1;
      } else {
        NotEnabled(s, a);
      }
    }
  }

  lemma InitInv(msgs: seq<int>, cap: nat)
    requires cap > 0
    ensures Inv(Init(msgs, cap), 0) && Init(msgs, cap).i == 0 && Init(msgs, cap).msgs == msgs
  {
    assert msgs[..0] == [];
  }

  lemma NotEnabled(s: State, a: Action)
    requires !Enabled(s, a)
    ensures Next(s, a) == s
  {
  }

  /** Blocks a process holds. */
  function InHand(s: State): nat {
    (if s.prim.Sending? || s.prim.Got? || s.prim.Stopping? then 1 else 0)
    + (if s.sec.Received? || s.sec.Replying? then 1 else 0)
  }

  /** Safety, for any messages, any ring size, any addresses and any interleaving: no dead block is
      read or freed; at most one block exists, and it is what the rings and hands hold between them;
      the k-th reply is ten times the k-th message, a 32-bit int if the messages are small; the block
      count balances. */
  lemma HandshakeSafe(msgs: seq<int>, cap: nat, acts: seq<Action>)
    requires cap > 0
    ensures var s := Run(Init(msgs, cap), acts);
            && s.msgs == msgs && !s.crashed && |s.ring1| + |s.ring2| + InHand(s) == |s.heap| <= 1
            && |s.replies| <= |msgs| && s.replies == Tenfold(msgs[..|s.replies|])
            && s.allocs == s.frees + |s.heap|
            && (s.prim.Stopping? ==> s.ring1 == [])
            && (SmallMessages(msgs) ==> forall k :: 0 <= k < |s.replies| ==> Fits(s.replies[k]))
  {
    var step := RunKeepsInv(msgs, cap, acts);
    var s := Run(Init(msgs, cap), acts);
    assert s.heap == map[] || exists p :: s.heap.Keys == {p} by { OneBlock(s, step); }
    if SmallMessages(msgs) {
      forall k | 0 <= k < |s.replies| ensures Fits(s.replies[k]) { ReplyFits(s, step, k); }
    }
  }

  lemma ReplyFits(s: State, step: nat, k: nat)
    requires Inv(s, step) && SmallMessages(s.msgs) && k < |s.replies|
    ensures Fits(s.replies[k])
  {
    assert Reached(s.msgs, k);
  }

  lemma OneBlock(s: State, step: nat)
    requires Inv(s, step)
    ensures s.heap == map[] || exists p :: s.heap.Keys == {p}
    ensures |s.ring1| + |s.ring2| + InHand(s) == |s.heap| <= 1
  {
    if s.heap != map[] {
      var p :| p in s.heap;
      assert s.heap.Keys == {p};
      assert |s.heap| == |s.heap.Keys|;
    }
  }

  ghost predicate Completed(s: State) {
    && s.prim.PDone? && s.sec.SDone? && s.ring1 == [] && s.ring2 == [] && s.heap == map[] && s.allocs == s.frees
    && s.replies == Tenfold(s.msgs)
  }

  /** Termination and exactness: every schedule makes at most eight moves a message and four for the
      stop block, and the exchange can only come to rest; when it does, both processes have finished
      with empty rings, no block left and every reply received if and only if no message was -1.
      Otherwise the secondary stopped at the first such message and the primary polls for ever. */
  lemma HandshakeCompletesIff(msgs: seq<int>, cap: nat, acts: seq<Action>)
    requires cap > 0
    ensures var s := Run(Init(msgs, cap), acts);
            && s.msgs == msgs && Moves(Init(msgs, cap), acts) <= 8 * |msgs| + 4
            && (Stuck(s) ==> (Completed(s) <==> -1 !in msgs))
            && (Stuck(s) && -1 in msgs ==>
                  && s.prim.Awaiting? && s.sec.SDone? && s.ring2 == []
                  && |s.replies| < |msgs| && msgs[|s.replies|] == -1)
  {
    hide Baton, Moves;
    var step := RunKeepsInv(msgs, cap, acts);
    var s := Run(Init(msgs, cap), acts);
    StepBound(s, step);
    if Stuck(s) {
      StuckIffRest(s, step);
      RestShape(s, step);
    }
  }

  lemma StepBound(s: State, step: nat)
    requires Inv(s, step)
    ensures step <= 7 && (s.i == |s.msgs| ==> step <= 4)
  {
  }

  lemma RestShape(s: State, step: nat)
    requires Inv(s, step) && AtRest(s, step)
    ensures s.sec.SDone? && s.ring1 == [] && s.ring2 == [] && s.heap == map[] && |s.replies| == s.i
    ensures s.i == |s.msgs| ==> Completed(s) && -1 !in s.msgs
    ensures s.i < |s.msgs| ==> s.prim.Awaiting? && s.msgs[s.i] == -1 && !Completed(s)
  {
    assert s.i == |s.msgs| ==> s.msgs[..s.i] == s.msgs;
  }

  // ---- Every move can be made, and 32-bit arithmetic ----

  /** Who carries the baton at each step of the round. */
  function Carrier(step: nat): Action {
    if step < 2 || step > 5 then Prim(0) else Sec(0)
  }

  lemma CarrierMoves(s: State, step: nat)
    requires Inv(s, step) && !AtRest(s, step)
    ensures Enabled(s, Carrier(step))
  {
  }

  /** A schedule without a turn of a spin loop. */
  function Straight(n: nat): (acts: seq<Action>)
    ensures |acts| == n
  {
    if n == 0 then [] else Straight(n - 1) + [Carrier((n - 1) % 8)]
  }

  /** It carries the exchange on, eight moves a message, as far as no message is -1. */
  lemma {:induction false} StraightCarries(msgs: seq<int>, cap: nat, n: nat)
    requires cap > 0 && n <= 8 * |msgs| + 4
    requires forall k :: 0 <= k < |msgs| && 8 * k + 4 < n ==> msgs[k] != -1
    ensures var s := Run(Init(msgs, cap), Straight(n));
            Inv(s, n % 8) && s.i == n / 8 && s.msgs == msgs
  {
    hide Run, Inv, Straight, Init, Carrier, Next, Enabled;
    if n == 0 {
      InitInv(msgs, cap);
      RunNothing(Init(msgs, cap));
    } else {
      StraightCarries(msgs, cap, n - 1);
      StraightMore(Init(msgs, cap), n);
      CountOn(n);
      CarryOn(Run(Init(msgs, cap), Straight(n - 1)), (n - 1) % 8);
    }
  }

  lemma RunNothing(s: State)
    ensures Run(s, Straight(0)) == s
  {
  }

  lemma StraightMore(s: State, n: nat)
    requires n > 0
    ensures Run(s, Straight(n)) == Next(Run(s, Straight(n - 1)), Carrier((n - 1) % 8))
  {
    assert Straight(n)[..n - 1] == Straight(n - 1);
  }

  lemma CarryOn(s: State, step: nat)
    requires Inv(s, step) && (step == 4 ==> s.i < |s.msgs| && s.msgs[s.i] != -1)
    ensures var t := Next(s, Carrier(step));
            && t.msgs == s.msgs && Inv(t, if step == 7 then 0 else step + 1)
            && t.i == s.i + if step == 7 then 1 else 0
  {
    hide Next, Enabled, Inv;
    CarrierMoves(s, step);
    BatonMoves(s, step, Carrier(step));
  }

  lemma CountOn(n: nat)
    requires n > 0
    ensures if (n - 1) % 8 == 7 then n % 8 == 0 && n / 8 == (n - 1) / 8 + 1
            else n % 8 == (n - 1) % 8 + 1 && n / 8 == (n - 1) / 8
  {
  }

  const INT_MIN: int := -0x8000_0000
  const INT_MAX: int := 0x7FFF_FFFF

  predicate Fits(v: int) {
    INT_MIN <= v <= INT_MAX
  }

  /** The messages the secondary multiplies: those before the first -1. */
  ghost predicate Reached(msgs: seq<int>, k: nat)
    ensures Reached(msgs, k) ==> k < |msgs|
  {
    k < |msgs| && -1 !in msgs[..k + 1]
  }

  /** In every run, every product the secondary computes is ten times a message it reaches. */
  lemma ComputedIsReached(msgs: seq<int>, cap: nat, acts: seq<Action>)
    requires cap > 0
    ensures var s := Run(Init(msgs, cap), acts);
            s.sec.Computed? ==> Reached(msgs, s.i) && s.sec.res == 10 * msgs[s.i]
  {
    var step := RunKeepsInv(msgs, cap, acts);
    var s := Run(Init(msgs, cap), acts);
    if s.sec.Computed? { AtComputed(s, step); }
  }

  lemma AtComputed(s: State, step: nat)
    requires Inv(s, step) && s.sec.Computed?
    ensures Reached(s.msgs, s.i) && s.sec.res == 10 * s.msgs[s.i]
  {
  }

  ghost predicate ProductFits(s: State) {
    s.sec.Computed? ==> Fits(s.sec.res)
  }

  lemma NoneBefore(msgs: seq<int>, k: nat)
    requires Reached(msgs, k)
    ensures forall j :: 0 <= j <= k ==> msgs[j] != -1
  {
    forall j | 0 <= j <= k ensures msgs[j] != -1 { assert msgs[j] in msgs[..k + 1]; }
  }

  lemma MessageComputed(msgs: seq<int>, cap: nat, k: nat)
    requires cap > 0 && Reached(msgs, k)
    ensures Run(Init(msgs, cap), Straight(8 * k + 4)).sec == Computed(10 * msgs[k])
  {
    NoneBefore(msgs, k);
    hide Run, Init, Inv, Straight, Reached;
    StraightCarries(msgs, cap, 8 * k + 4);
    ComputedNow(Run(Init(msgs, cap), Straight(8 * k + 4)));
  }

  /** Every message before the first -1 is at most 214748364 either way. */
  ghost predicate SmallMessages(msgs: seq<int>) {
    forall k: nat :: Reached(msgs, k) ==> -214748364 <= msgs[k] <= 214748364
  }

  ghost predicate NeverOverflows(msgs: seq<int>, cap: nat) {
    forall acts :: ProductFits(Run(Init(msgs, cap), acts))
  }

  /** 32-bit arithmetic: no product of any run overflows if and only if the messages are small. */
  lemma ProductsFitIff(msgs: seq<int>, cap: nat)
    requires cap > 0
    ensures NeverOverflows(msgs, cap) <==> SmallMessages(msgs)
  {
    if SmallMessages(msgs) {
      forall acts ensures ProductFits(Run(Init(msgs, cap), acts)) {
        ComputedIsReached(msgs, cap, acts);
      }
    }
    if NeverOverflows(msgs, cap) {
      forall k: nat | Reached(msgs, k) ensures -214748364 <= msgs[k] <= 214748364 {
        MessageComputed(msgs, cap, k);
        assert ProductFits(Run(Init(msgs, cap), Straight(8 * k + 4)));
      }
    }
  }

  lemma ComputedNow(s: State)
    requires Inv(s, 4) && s.i < |s.msgs| && s.msgs[s.i] != -1
    ensures s.sec == Computed(10 * s.msgs[s.i])
  {
  }

  /** The program's own messages, 0 to 9, fit. */
  lemma ConfiguredFits(cap: nat, acts: seq<Action>)
    requires cap > 0
    ensures var s := Run(Init([0, 1, 2, 3, 4, 5, 6, 7, 8, 9], cap), acts);
            s.sec.Computed? ==> 0 <= s.sec.res <= 90
  {
    ComputedIsReached([0, 1, 2, 3, 4, 5, 6, 7, 8, 9], cap, acts);
  }

  /** The exchange does come to its end: without a spin, in eight moves a message and four for the
      stop block. */
  lemma StraightCompletes(msgs: seq<int>, cap: nat)
    requires cap > 0 && -1 !in msgs
    ensures Completed(Run(Init(msgs, cap), Straight(8 * |msgs| + 4)))
  {
    StraightCarries(msgs, cap, 8 * |msgs| + 4);
    RestShape(Run(Init(msgs, cap), Straight(8 * |msgs| + 4)), 4);
  }
}
