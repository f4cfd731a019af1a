/** The RCU program as a whole: however many updates it makes, it comes to its end, and in how many
    rounds of its threads. */
module RcuCompletion {
  import opened RcuSpec
  import opened RcuProofs
  import opened RcuProgress

  /** How many of its own steps the writer is from its end: four an update and two to stop. */
  function Rank(s: State): int {
    var left := 4 * (s.updates - s.made);
    match s.writer
    case Idle => left + 2
    case Allocated(_) => left + 1
    case Swapped(_) => left
    case Waiting(_, _, _) => left - 1
    case Joining => 1
    case Done => 0
  }

  /** Each step of the writer brings it exactly one nearer and nobody else's step moves it. */
  lemma RankStep(s: State, a: Action)
    requires Inv(s)
    ensures Rank(Next(s, a)) == Rank(s) - (if a.Write? && Enabled(s, a) then 1 else 0)
    ensures Rank(s) >= 0 && (Rank(s) == 0 <==> s.writer.Done?)
  {
    hide ReaderOk;
    if a.Read? && Enabled(s, a) {
      hide ReaderStep;
      ReadFrame(s, a.r);
    }
  }

  lemma {:induction false} RankFalls(s: State, acts: seq<Action>)
    requires Inv(s)
    ensures Rank(Run(s, acts)) <= Rank(s)
  {
    hide Next, Rank, Inv;
    if acts != [] {
      RankFalls(s, acts[..|acts| - 1]);
      RunKeepsInv(s, acts[..|acts| - 1]);
      RankStep(Run(s, acts[..|acts| - 1]), acts[|acts| - 1]);
    }
  }

  /** The rank tells which phase the writer is in. */
  lemma RankTells(s: State, t: State)
    requires Inv(s) && Inv(t) && s.updates == t.updates && Rank(s) == Rank(t)
    ensures s.writer.Waiting? == t.writer.Waiting? && s.writer.Joining? == t.writer.Joining?
    ensures s.writer.Waiting? ==> s.made == t.made
  {
    hide ReaderOk;
  }

  lemma {:induction false} RunAppend(s: State, a: seq<Action>, b: seq<Action>)
    ensures Run(s, a + b) == Run(Run(s, a), b)
  {
    hide Next;
    if b == [] {
      assert a + b == a;
    } else {
      RunAppend(s, a, b[..|b| - 1]);
      assert (a + b)[..|a + b| - 1] == a + b[..|b| - 1];
    }
  }

  /** One round: any schedule, synchronize looking at every thread, and a step of the writer. */
  datatype Round = Round(acts: seq<Action>, order: seq<Rid>, addr: Addr)

  function Waited(x: Round): seq<Action> {
    x.acts + Passes(x.order)
  }

  function Schedule(x: Round): seq<Action> {
    Waited(x) + [Write(x.addr)]
  }

  /** It is fair if every reader takes eight steps and is looked at, and an address not in use is there
      for the writer. */
  ghost predicate Fair(s: State, x: Round) {
    && (forall r :: r in s.readers ==> Reads(x.acts, r) >= 8 && r in x.order)
    && x.addr !in Run(s, Waited(x)).heap
  }

  /** After the readers' steps nothing keeps a writer that is still in the same phase. */
  lemma NothingHolds(s: State, x: Round)
    requires Inv(s) && Fair(s, x) && !s.writer.Done?
    requires Rank(Run(s, Waited(x))) == Rank(s)
    ensures Enabled(Run(s, Waited(x)), Write(x.addr))
  {
    hide Next, Inv, Rank, Passable;
    var t, m := Run(s, x.acts), Run(s, Waited(x));
    RunAppend(s, x.acts, Passes(x.order));
    RunKeepsInv(s, x.acts);
    RunKeepsInv(s, Waited(x));
    RunParameters(s, x.acts);
    RunParameters(s, Waited(x));
    RankFalls(s, x.acts);
    RankFalls(t, Passes(x.order));
    RankTells(s, t);
    RankTells(s, m);
    RankStep(m, Write(x.addr));
    RankStep(s, Write(x.addr));
    if s.writer.Waiting? {
      WaitOver(s, x.acts, x.order);
    } else if s.writer.Joining? {
      JoinOver(s, x.acts, x.order);
      assert m.writer.Joining? && m == Run(t, Passes(x.order));
      assert forall r :: r in m.readers ==> m.readers[r] == Exited;
    } else {
      assert m.writer.Idle? || m.writer.Allocated? || m.writer.Swapped?;
    }
  }

  lemma WaitOver(s: State, acts: seq<Action>, order: seq<Rid>)
    requires Inv(s) && s.writer.Waiting? && Run(s, acts).made == s.made
    requires forall r :: r in s.readers ==> Reads(acts, r) >= 8 && r in order
    ensures var m := Run(Run(s, acts), Passes(order)); m.writer.Waiting? && m.writer.todo == {}
  {
    hide Next, Inv;
    SameGrace(s, acts);
    RunKeepsInv(s, acts);
    var t := Run(s, acts);
    GraceTodo(t);
    forall r | r in t.writer.todo ensures Passable(t, r, t.writer.t) { GraceBound(s, acts, r); }
    PassAll(t, order);
    assert forall r :: r in t.writer.todo ==> r in Covered(order);
  }

  lemma JoinOver(s: State, acts: seq<Action>, order: seq<Rid>)
    requires Inv(s) && s.writer.Joining? && forall r :: r in s.readers ==> Reads(acts, r) >= 8
    ensures var m := Run(Run(s, acts), Passes(order)); forall r :: r in m.readers ==> m.readers[r].Exited?
  {
    hide Next;
    var t := Run(s, acts);
    RunKeepsInv(s, acts);
    hide Inv;
    StopStays(s, acts);
    StopStays(t, Passes(order));
    var m := Run(t, Passes(order));
    forall r | r in m.readers ensures m.readers[r].Exited? {
      StopBound(s, acts, r);
      StopBound(t, Passes(order), r);
    }
  }

  /** A fair round takes the writer at least one of its steps further. */
  lemma RoundAdvances(s: State, x: Round)
    requires Inv(s) && Fair(s, x)
    ensures var e := Run(s, Schedule(x)); Inv(e) && (e.writer.Done? || Rank(e) < Rank(s))
  {
    hide Next, Inv, Rank, Fair, Enabled;
    var m := Run(s, Waited(x));
    RunKeepsInv(s, Waited(x));
    RankFalls(s, Waited(x));
    RankStep(s, Write(x.addr));
    RankStep(m, Write(x.addr));
    assert Schedule(x)[..|Schedule(x)| - 1] == Waited(x);
    RunKeepsInv(s, Schedule(x));
    RankStep(Run(s, Schedule(x)), Write(x.addr));
    if Rank(m) == Rank(s) && !s.writer.Done? { NothingHolds(s, x); }
  }

  function Rounds(xs: seq<Round>): seq<Action> {
    if xs == [] then [] else Rounds(xs[..|xs| - 1]) + Schedule(xs[|xs| - 1])
  }

  ghost predicate AllFair(s: State, xs: seq<Round>) {
    xs != [] ==> AllFair(s, xs[..|xs| - 1]) && Fair(Run(s, Rounds(xs[..|xs| - 1])), xs[|xs| - 1])
  }

  lemma {:induction false} RoundsAdvance(s: State, xs: seq<Round>)
    requires Inv(s) && AllFair(s, xs)
    ensures var e := Run(s, Rounds(xs)); Inv(e) && (e.writer.Done? || Rank(e) <= Rank(s) - |xs|)
  {
    hide Next, Inv, Rank, Fair, Schedule;
    if xs != [] {
      var front, x := xs[..|xs| - 1], xs[|xs| - 1];
      RoundsAdvance(s, front);
      var t := Run(s, Rounds(front));
      RunAppend(s, Rounds(front), Schedule(x));
      RoundAdvances(t, x);
      RankStep(t, Write(0));
      RankFalls(t, Schedule(x));
      RankStep(Run(t, Schedule(x)), Write(0));
    }
  }

  /** The whole program, from any state it can be in: once as many fair rounds have gone by as the
      writer has steps left, whatever else its threads did in them, it has come to its end: four for
      each update still to make and two to stop, from the start. */
  lemma ProgramCompletes(s: State, xs: seq<Round>)
    requires Inv(s) && AllFair(s, xs) && |xs| >= Rank(s)
    ensures Run(s, Rounds(xs)).writer.Done?
  {
    RoundsAdvance(s, xs);
    RankStep(Run(s, Rounds(xs)), Write(0));
  }

  // ---- Such rounds can be had, and how long they are ----

  function Eight(r: Rid): seq<Action> {
    [Read(r), Read(r), Read(r), Read(r), Read(r), Read(r), Read(r), Read(r)]
  }

  /** Eight steps of each reader in turn. */
  function Turns(order: seq<Rid>): (acts: seq<Action>)
    ensures |acts| == 8 * |order|
  {
    if order == [] then [] else Turns(order[..|order| - 1]) + Eight(order[|order| - 1])
  }

  lemma {:induction false} ReadsAppend(a: seq<Action>, b: seq<Action>, r: Rid)
    ensures Reads(a + b, r) == Reads(a, r) + Reads(b, r)
  {
    if b == [] {
      assert a + b == a;
    } else {
      ReadsAppend(a, b[..|b| - 1], r);
      assert (a + b)[..|a + b| - 1] == a + b[..|b| - 1];
    }
  }

  lemma ReadsEight(r: Rid)
    ensures Reads(Eight(r), r) == 8
  {
    var e := Eight(r);
    assert e[..7][..6] == e[..6] && e[..6][..5] == e[..5] && e[..5][..4] == e[..4];
    assert e[..4][..3] == e[..3] && e[..3][..2] == e[..2] && e[..2][..1] == e[..1] && e[..1][..0] == [];
    assert Reads(e[..1], r) == 1;
    assert Reads(e[..2], r) == 2;
    assert Reads(e[..3], r) == 3;
    assert Reads(e[..4], r) == 4;
    assert Reads(e[..5], r) == 5;
    assert Reads(e[..6], r) == 6;
    assert Reads(e[..7], r) == 7;
  }

  lemma {:induction false} ReadsTurns(order: seq<Rid>, r: Rid)
    requires r in order
    ensures Reads(Turns(order), r) >= 8
  {
    var n := |order| - 1;
    ReadsAppend(Turns(order[..n]), Eight(order[n]), r);
    if r == order[n] {
      ReadsEight(r);
    } else {
      assert order == order[..n] + [order[n]];
      ReadsTurns(order[..n], r);
    }
  }

  lemma SomeAddress(s: State) returns (addr: Addr)
    requires Inv(s)
    ensures addr !in s.heap
  {
    HeapSmall(s);
    assert |s.heap| == |s.heap.Keys|;
    addr := if 0 !in s.heap then 0 else if 1 !in s.heap then 1 else 2;
    if addr in s.heap {
      SubsetSize({0, 1, 2}, s.heap.Keys);
    }
  }

  lemma {:induction false} SubsetSize(a: set<Addr>, b: set<Addr>)
    requires a <= b
    ensures |a| <= |b|
    decreases |a|
  {
    if a != {} {
      var x :| x in a;
      SubsetSize(a - {x}, b - {x});
    }
  }

  /** A fair round from any state: eight steps of each reader in turn, and some address not in use. */
  lemma FairRound(s: State, order: seq<Rid>) returns (x: Round)
    requires Inv(s) && forall r :: r in s.readers ==> r in order
    ensures Fair(s, x) && |Schedule(x)| == 9 * |order| + 1
  {
    hide Next, Inv, Run;
    var acts := Turns(order) + Passes(order);
    RunKeepsInv(s, acts);
    var addr := SomeAddress(Run(s, acts));
    x := Round(Turns(order), order, addr);
    forall r | r in s.readers ensures Reads(x.acts, r) >= 8 { ReadsTurns(order, r); }
    PassesLength(order);
  }

  lemma {:induction false} FairRounds(s: State, order: seq<Rid>, n: nat) returns (xs: seq<Round>)
    requires Inv(s) && forall r :: r in s.readers ==> r in order
    ensures |xs| == n && AllFair(s, xs) && |Rounds(xs)| == n * (9 * |order| + 1)
  {
    hide Next, Inv, Run, Fair, Schedule;
    if n == 0 {
      xs := [];
    } else {
      var front := FairRounds(s, order, n - 1);
      RunKeepsInv(s, Rounds(front));
      RunParameters(s, Rounds(front));
      var x := FairRound(Run(s, Rounds(front)), order);
      xs := front + [x];
      assert xs[..n - 1] == front;
      OnceMore(n, 9 * |order| + 1);
    }
  }

  lemma OnceMore(n: nat, k: nat)
    requires n > 0
    ensures (n - 1) * k + k == n * k
  {
  }

  lemma {:induction false} PassesLength(order: seq<Rid>)
    ensures |Passes(order)| == |order|
  {
    if order != [] { PassesLength(order[..|order| - 1]); }
  }

  /** From the start, for any readers and any number of updates, some schedule of at most so many steps
      ends with the writer done, every reader gone and every block freed. */
  lemma CompletesWithin(ids: set<Rid>, order: seq<Rid>, updates: nat, first: Addr) returns (acts: seq<Action>)
    requires forall r :: r in ids ==> r in order
    ensures |acts| == (4 * updates + 2) * (9 * |order| + 1)
    ensures var s := Run(Init(ids, updates, first), acts);
            s.writer.Done? && s.heap == map[] && |s.freed| == updates + 1
  {
    var s := Init(ids, updates, first);
    InitInv(ids, updates, first);
    var xs := FairRounds(s, order, 4 * updates + 2);
    acts := Rounds(xs);
    ProgramCompletes(s, xs);
    RcuSafe(ids, updates, first, acts);
  }

  // ---- One pass of the reader's loop is not always enough ----

  /** A program of one update whose only reader, 0, is at pc with counter c; the writer has not begun. */
  function Scene(pc: ReaderPc, c: nat, registered: set<Rid>, seen: seq<nat>): State {
    State(map[0 := 0], 0, 1, registered, map[0 := c], false, 1, 0, Idle, map[0 := pc], map[0 := seen], [], false)
  }

  /** k steps of reader 0. */
  function Steps(k: nat): (acts: seq<Action>)
    ensures |acts| == k && forall i :: 0 <= i < k ==> acts[i] == Read(0)
  {
    seq(k, _ => Read(0))
  }

  lemma StepsMore(s: State, k: nat)
    requires k > 0
    ensures Run(s, Steps(k)) == Next(Run(s, Steps(k - 1)), Read(0))
  {
    assert Steps(k)[..k - 1] == Steps(k - 1);
  }

  lemma SceneStep(pc: ReaderPc, c: nat, registered: set<Rid>, seen: seq<nat>)
    requires pc != Exited && (pc.Holding? ==> pc.p == 0)
    ensures var s := Scene(pc, c, registered, seen);
            Next(s, Read(0)) == Scene(PcAfter(s, pc), CntAfter(pc, c), RegisteredAfter(s, 0, pc), SeenAfter(s, 0, pc))
  {
    hide PcAfter, CntAfter, RegisteredAfter, SeenAfter;
    var s := Scene(pc, c, registered, seen);
    assert s.readers[0 := PcAfter(s, pc)] == map[0 := PcAfter(s, pc)];
    assert s.cnt[0 := CntAfter(pc, c)] == map[0 := CntAfter(pc, c)];
    assert s.seen[0 := SeenAfter(s, 0, pc)] == map[0 := SeenAfter(s, 0, pc)];
  }

  /** Where reader 0 is after k steps: into its first report, token read and not yet stored. */
  function Place(k: nat): State {
    match k
    case 0 => Scene(Start, 0, {}, [])
    case 1 => Scene(Registered, 0, {0}, [])
    case 2 => Scene(GoingOnline(1), 0, {0}, [])
    case 3 => Scene(LoopTop, 1, {0}, [])
    case 4 => Scene(Locked, 1, {0}, [])
    case 5 => Scene(Holding(0), 1, {0}, [])
    case 6 => Scene(Used(0), 1, {0}, [0])
    case 7 => Scene(Unlocked, 1, {0}, [0])
    case _ => Scene(Reporting(1), 1, {0}, [0])
  }

  lemma PlaceStep(k: nat)
    requires 0 < k <= 8
    ensures Next(Place(k - 1), Read(0)) == Place(k)
  {
    hide Next;
    var s := Place(k - 1);
    SceneStep(s.readers[0], s.cnt[0], s.registered, s.seen[0]);
    assert {} + {0} == {0} && [] + [0] == [0];
  }

  lemma {:induction false} InPlace(k: nat)
    requires k <= 8
    ensures Run(Init({0}, 1, 0), Steps(k)) == Place(k)
  {
    var s := Init({0}, 1, 0);
    if k == 0 {
      RunNothing(s);
      assert s.cnt == map[0 := 0] && s.readers == map[0 := Start] && s.seen == map[0 := []];
    } else {
      hide Run, Init, Next, Place, Steps;
      InPlace(k - 1);
      StepsMore(s, k);
      PlaceStep(k);
    }
  }

  lemma RunNothing(s: State)
    ensures Run(s, []) == s
  {
  }

  lemma {:induction false} StepsKeepGrace(s: State, k: nat)
    requires Inv(s) && 0 in s.readers
    ensures Run(s, Steps(k)).made == s.made && Reads(Steps(k), 0) == k
  {
    if k > 0 {
      StepsKeepGrace(s, k - 1);
      StepsMore(s, k);
      assert Steps(k)[..k - 1] == Steps(k - 1);
      var t := Run(s, Steps(k - 1));
      RunParameters(s, Steps(k - 1));
      hide ReaderStep, Run;
      ReadFrame(t, 0);
    }
  }

  /** Reader 0 is about to store a token read before the writer took its own. */
  function Caught(): seq<Action> {
    Steps(8) + [Write(1), Write(0), Write(0)]
  }

  /** The update up to the wait. */
  lemma UpToWait(s: State)
    requires s == Scene(Reporting(1), 1, {0}, [0])
    ensures var t := Next(Next(Next(s, Write(1)), Write(0)), Write(0));
            t.writer.Waiting? && t.writer.t == 2 && t.readers == map[0 := Reporting(1)] && t.cnt == map[0 := 1]
  {
    assert Next(s, Write(1)).writer == Allocated(1);
    assert Next(Next(s, Write(1)), Write(0)).writer == Swapped(0);
  }

  lemma CaughtState()
    ensures var s := Run(Init({0}, 1, 0), Caught());
            && Inv(s) && s.writer.Waiting? && s.writer.t == 2
            && s.readers == map[0 := Reporting(1)] && s.cnt == map[0 := 1]
  {
    InPlace(8);
    assert Place(8) == Scene(Reporting(1), 1, {0}, [0]);
    hide Next, Init, Scene, Run, Place;
    var i := Init({0}, 1, 0);
    InitInv({0}, 1, 0);
    UpToWait(Run(i, Steps(8)));
    RunOneMore(i, Steps(8), Write(1));
    RunOneMore(i, Steps(8) + [Write(1)], Write(0));
    RunOneMore(i, Steps(8) + [Write(1)] + [Write(0)], Write(0));
    assert Steps(8) + [Write(1)] + [Write(0)] + [Write(0)] == Caught();
    RunKeepsInv(i, Caught());
  }

  lemma RunOneMore(s: State, acts: seq<Action>, a: Action)
    ensures Run(s, acts + [a]) == Next(Run(s, acts), a)
  {
    assert (acts + [a])[..|acts|] == acts;
  }

  /** A state the program can reach in which a whole pass of the reader's loop, from report to report,
      does not let the writer past; the seventh step does. */
  lemma OnePassNotEnough()
    ensures var s := Run(Init({0}, 1, 0), Caught());
            && s.writer.Waiting? && 0 in s.readers && s.readers[0].Reporting?
            && 0 in Run(s, Steps(6)).readers && Run(s, Steps(6)).readers[0].Reporting?
            && !Passable(Run(s, Steps(6)), 0, s.writer.t) && Passable(Run(s, Steps(7)), 0, s.writer.t)
  {
    hide Run, Next, Inv, Caught;
    CaughtState();
    var s := Run(Init({0}, 1, 0), Caught());
    StepsKeepGrace(s, 6);
    StepsKeepGrace(s, 7);
    GraceBound(s, Steps(6), 0);
    GraceBound(s, Steps(7), 0);
    assert Dist(s, 0, 2) == 7;
    SameGrace(s, Steps(6));
    RunKeepsInv(s, Steps(6));
    OneAway(Run(s, Steps(6)), 0);
  }

  lemma OneAway(s: State, r: Rid)
    requires Inv(s) && s.writer.Waiting? && r in s.readers && Dist(s, r, s.writer.t) == 1
    ensures s.readers[r].Reporting? && !Passable(s, r, s.writer.t)
  {
    assert ReaderOk(s, r);
  }
}
