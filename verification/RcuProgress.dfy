/** The main results about the RCU program: safety over every interleaving, and how soon the writer
    gets past each reader. */
module RcuProgress {
  import opened RcuSpec
  import opened RcuProofs

  lemma {:induction false} RunKeepsMonotone(s: State, acts: seq<Action>)
    requires Inv(s) && Monotone(s)
    ensures Inv(Run(s, acts)) && Monotone(Run(s, acts))
  {
    if acts != [] {
      RunKeepsMonotone(s, acts[..|acts| - 1]);
      NextKeepsInv(Run(s, acts[..|acts| - 1]), acts[|acts| - 1]);
      NextKeepsMonotone(Run(s, acts[..|acts| - 1]), acts[|acts| - 1]);
    }
  }

  /** Safety, for any readers, any number of updates, any addresses and any interleaving: nothing dead
      is read or freed; whatever a reader holds between load and unlock is live; at most two blocks
      are live; what each reader prints never goes down; and the blocks freed are the first versions,
      each exactly once, in order. When the writer is done every reader has exited, every block is
      freed and all the versions are accounted for. */
  lemma RcuSafe(ids: set<Rid>, updates: nat, first: Addr, acts: seq<Action>)
    ensures var s := Run(Init(ids, updates, first), acts);
            && s.updates == updates && s.readers.Keys == ids
            && !s.crashed && |s.heap| <= 2
            && (forall r :: r in s.readers && (s.readers[r].Holding? || s.readers[r].Used?) ==>
                  s.readers[r].p in s.heap)
            && (forall r :: r in s.readers ==> Nondecreasing(Seen(s, r)))
            && s.freed == Counting(|s.freed|)
            && (s.writer.Done? ==> && s.heap == map[] && |s.freed| == updates + 1
                                   && forall r :: r in ids ==> s.readers[r].Exited?)
  {
    hide Run;
    RunParameters(Init(ids, updates, first), acts);
    InitInv(ids, updates, first);
    RunKeepsMonotone(Init(ids, updates, first), acts);
    var s := Run(Init(ids, updates, first), acts);
    HeapSmall(s);
    forall r | r in s.readers
      ensures Nondecreasing(Seen(s, r))
      ensures s.readers[r].Holding? || s.readers[r].Used? ==> s.readers[r].p in s.heap
    {
      assert MonotoneAt(s, r);
      if s.readers[r].Holding? || s.readers[r].Used? { HeldIsLive(s, r); }
    }
  }

  lemma NextParameters(s: State, a: Action)
    ensures Next(s, a).updates == s.updates && Next(s, a).readers.Keys == s.readers.Keys
  {
    hide PcAfter, CntAfter, RegisteredAfter, SeenAfter, Passable;
    if a.Read? && a.r in s.readers { assert s.readers.Keys + {a.r} == s.readers.Keys; }
  }

  /** A run changes neither the number of updates asked for nor which readers there are. */
  lemma {:induction false} RunParameters(s: State, acts: seq<Action>)
    ensures Run(s, acts).updates == s.updates && Run(s, acts).readers.Keys == s.readers.Keys
  {
    hide Next;
    if acts != [] {
      RunParameters(s, acts[..|acts| - 1]);
      NextParameters(Run(s, acts[..|acts| - 1]), acts[|acts| - 1]);
    }
  }

  lemma HeapSmall(s: State)
    requires Inv(s)
    ensures |s.heap| <= 2 && s.freed == Counting(|s.freed|)
    ensures s.writer.Done? ==> s.heap == map[] && |s.freed| == s.made + 1 == s.updates + 1
                               && forall r :: r in s.readers ==> s.readers[r].Exited?
  {
    match s.writer
    case Idle => assert s.heap.Keys == {s.gdata};
    case Allocated(n) => assert s.heap.Keys == {s.gdata, n};
    case Swapped(p) => assert s.heap.Keys == {s.gdata, p};
    case Waiting(p, _, _) => assert s.heap.Keys == {s.gdata, p};
    case Joining => assert s.heap.Keys == {s.gdata};
    case Done =>
  }

  lemma OwnPrint(s: State, r: Rid)
    requires Inv(s) && r in s.readers
    ensures var t := ReaderStep(s, r);
            if s.readers[r].Holding? then |Seen(t, r)| == |Seen(s, r)| + 1 else Seen(t, r) == Seen(s, r)
  {
    if s.readers[r].Holding? { HeldIsLive(s, r); }
  }

  lemma OtherPrints(s: State, q: Rid, r: Rid)
    requires q in s.readers && r in s.readers && q != r
    ensures Seen(ReaderStep(s, q), r) == Seen(s, r) && ReaderStep(s, q).readers[r] == s.readers[r]
  {
    hide PcAfter, CntAfter, RegisteredAfter, SeenAfter;
  }

  /** What a reader has printed changes by nobody's step but its own dereference, which adds one value. */
  lemma PrintsOnce(s: State, a: Action, r: Rid)
    requires Inv(s) && r in s.readers
    ensures var t := Next(s, a);
            && r in t.readers && (a != Read(r) ==> t.readers[r] == s.readers[r])
            && (if a == Read(r) && s.readers[r].Holding? then |Seen(t, r)| == |Seen(s, r)| + 1
                else Seen(t, r) == Seen(s, r))
  {
    NextParameters(s, a);
    FreedIsLive(s);
    hide Inv, ReaderStep, Seen;
    if Enabled(s, a) {
      match a
      case Read(q) => if q == r { OwnPrint(s, r); } else { OtherPrints(s, q, r); }
      case Write(addr) => hide Enabled; WriteLeaves(s, addr); SeenSame(s, WriterStep(s, addr), r);
      case Pass(_) => SeenSame(s, Next(s, a), r);
    }
  }

  lemma SeenSame(s: State, t: State, r: Rid)
    requires s.seen == t.seen
    ensures Seen(s, r) == Seen(t, r)
  {
  }

  /** A block that is held keeps its value. */
  lemma BlockStays(s: State, a: Action, r: Rid, p: Addr)
    requires Inv(s) && r in s.readers && s.readers[r] == Holding(p) && a != Read(r)
    ensures var t := Next(s, a);
            && Inv(t) && r in t.readers && t.readers[r] == Holding(p)
            && p in s.heap && p in t.heap && t.heap[p] == s.heap[p]
  {
    PrintsOnce(s, a, r);
    NextKeepsInv(s, a);
    HeldIsLive(s, r);
    HeldIsLive(Next(s, a), r);
    hide Inv;
    if a.Write? && Enabled(s, a) { AllocatesFresh(s, a.a); WriteKeepsBlock(s, a.a, p); }
    if a.Read? && Enabled(s, a) { hide ReaderStep; ReadFrame(s, a.r); }
  }

  lemma AllocatesFresh(s: State, addr: Addr)
    requires Enabled(s, Write(addr))
    ensures s.writer.Idle? && s.made < s.updates ==> addr !in s.heap
  {
  }

  ghost predicate Without(acts: seq<Action>, r: Rid) {
    forall i :: 0 <= i < |acts| ==> acts[i] != Read(r)
  }

  lemma {:induction false} HeldStays(s: State, acts: seq<Action>, r: Rid, p: Addr)
    requires Inv(s) && r in s.readers && s.readers[r] == Holding(p) && Without(acts, r)
    ensures var t := Run(s, acts);
            && Inv(t) && r in t.readers && t.readers[r] == Holding(p) && p in s.heap && p in t.heap
            && t.heap[p] == s.heap[p] && Seen(t, r) == Seen(s, r)
  {
    hide Inv, Next;
    if acts == [] {
      HeldIsLive(s, r);
    } else {
      var front, a := acts[..|acts| - 1], acts[|acts| - 1];
      HeldStays(s, front, r, p);
      BlockStays(Run(s, front), a, r, p);
      PrintsOnce(Run(s, front), a, r);
    }
  }

  /** A reader prints exactly the version that was current when it loaded the pointer, whatever all the
      others do before it dereferences. */
  lemma PrintsWhatItLoaded(s: State, acts: seq<Action>, r: Rid)
    requires Inv(s) && r in s.readers && s.readers[r].Locked? && !s.writer.Done? && Without(acts, r)
    ensures var t := Run(Next(s, Read(r)), acts);
            Seen(Next(t, Read(r)), r) == Seen(s, r) + [Latest(s)]
  {
    PointerIsLatest(s);
    NextKeepsInv(s, Read(r));
    PrintsOnce(s, Read(r), r);
    var h := Next(s, Read(r));
    assert h.readers[r] == Holding(s.gdata) && h.heap == s.heap;
    HeldStays(h, acts, r, s.gdata);
  }

  // ---- Grace period ----

  /** How many of its own steps a reader is from letting the writer past for good, when the writer
      waits for token t. */
  function Distance(pc: ReaderPc, c: nat, t: nat): nat {
    if c >= t then 0
    else
      match pc
      case GoingOnline(u) => if u >= t then 0 else 7
      case LoopTop => 6
      case Locked => 5
      case Holding(_) => 4
      case Used(_) => 3
      case Unlocked => 2
      case Reporting(u) => if u >= t then 1 else 7
      case _ => 0
  }

  function Dist(s: State, r: Rid, t: nat): nat {
    if r in s.readers then Distance(s.readers[r], Cnt(s, r), t) else 0
  }

  /** Each of a reader's own steps brings it exactly one nearer and nobody else's step moves it; at
      distance nought the writer may pass it. */
  lemma DistanceStep(s: State, a: Action, r: Rid)
    requires Inv(s) && s.writer.Waiting? && r in s.readers
    requires Next(s, a).writer.Waiting?
    ensures var d := Dist(s, r, s.writer.t);
            d <= 7 && Dist(Next(s, a), r, s.writer.t) == if a == Read(r) && d > 0 then d - 1 else d
    ensures Dist(s, r, s.writer.t) == 0 ==> Passable(s, r, s.writer.t)
  {
    assert ReaderOk(s, r);
    if a.Read? && a.r in s.readers {
      hide ReaderStep;
      ReadFrame(s, a.r);
      if a.r == r { OwnStep(s, r); }
    }
  }

  lemma OwnStep(s: State, r: Rid)
    requires Inv(s) && s.writer.Waiting? && r in s.readers && s.readers[r] != Exited
    ensures var t := s.writer.t;
            Dist(ReaderStep(s, r), r, t) == if Dist(s, r, t) > 0 then Dist(s, r, t) - 1 else 0
  {
    assert ReaderOk(s, r);
    if s.readers[r].Holding? { HeldIsLive(s, r); }
  }

  function Reads(acts: seq<Action>, r: Rid): nat {
    if acts == [] then 0
    else Reads(acts[..|acts| - 1], r) + if acts[|acts| - 1] == Read(r) then 1 else 0
  }

  /** What any single step keeps. */
  lemma NextFacts(s: State, a: Action)
    requires Inv(s)
    ensures Next(s, a).made >= s.made && Next(s, a).readers.Keys == s.readers.Keys
    ensures s.stop ==> Next(s, a).stop
    ensures s.writer.Waiting? && Next(s, a).made == s.made ==>
              && Next(s, a).writer.Waiting? && Next(s, a).writer.t == s.writer.t
              && Next(s, a).writer.old_ == s.writer.old_ && Next(s, a).writer.todo <= s.writer.todo
  {
    hide ReaderStep;
    if a.Read? && a.r in s.readers { ReadFrame(s, a.r); }
  }

  /** While the same grace period lasts, it is the same token the writer waits for. */
  lemma {:induction false} SameGrace(s: State, acts: seq<Action>)
    requires Inv(s) && s.writer.Waiting?
    ensures Run(s, acts).made >= s.made && Run(s, acts).readers.Keys == s.readers.Keys
    ensures Run(s, acts).made == s.made ==>
              && Run(s, acts).writer.Waiting? && Run(s, acts).writer.t == s.writer.t
              && Run(s, acts).writer.old_ == s.writer.old_ && Run(s, acts).writer.todo <= s.writer.todo
  {
    hide Next, Inv;
    if acts != [] {
      SameGrace(s, acts[..|acts| - 1]);
      RunKeepsInv(s, acts[..|acts| - 1]);
      NextFacts(Run(s, acts[..|acts| - 1]), acts[|acts| - 1]);
    }
  }

  /** Progress: whatever the others do, a reader that has taken d steps is d nearer, so after seven of
      its own steps, at the latest, the writer may pass it for the rest of the grace period. */
  lemma {:induction false} GraceBound(s: State, acts: seq<Action>, r: Rid)
    requires Inv(s) && s.writer.Waiting? && r in s.readers
    requires Run(s, acts).made == s.made
    ensures var t, d := s.writer.t, Dist(s, r, s.writer.t);
            && Dist(Run(s, acts), r, t) == (if Reads(acts, r) <= d then d - Reads(acts, r) else 0)
            && (Reads(acts, r) >= 7 ==> Passable(Run(s, acts), r, t))
  {
    hide Next, Inv;
    SameGrace(s, acts);
    if acts == [] {
      DistanceNow(s, r);
    } else {
      var before, a := acts[..|acts| - 1], acts[|acts| - 1];
      var m := Run(s, before);
      SameGrace(s, before);
      RunKeepsInv(s, before);
      NextFacts(m, a);
      GraceBound(s, before, r);
      DistanceStep(m, a, r);
      NextKeepsInv(m, a);
      DistanceNow(Next(m, a), r);
    }
    if Reads(acts, r) >= 7 { DistanceNow(s, r); RunKeepsInv(s, acts); DistanceNow(Run(s, acts), r); }
  }

  lemma DistanceNow(s: State, r: Rid)
    requires Inv(s) && s.writer.Waiting? && r in s.readers
    ensures Dist(s, r, s.writer.t) <= 7
    ensures Dist(s, r, s.writer.t) == 0 ==> Passable(s, r, s.writer.t)
  {
    assert ReaderOk(s, r);
  }

  function Passes(order: seq<Rid>): seq<Action> {
    if order == [] then [] else Passes(order[..|order| - 1]) + [Pass(order[|order| - 1])]
  }

  function Covered(order: seq<Rid>): set<Rid> {
    set i | 0 <= i < |order| :: order[i]
  }

  /** Passing a passable thread takes it off the list, if it is still on it. */
  lemma PassEffect(s: State, r: Rid)
    requires !s.crashed && s.writer.Waiting? && (r in s.writer.todo ==> Passable(s, r, s.writer.t))
    ensures Next(s, Pass(r)) == s.(writer := s.writer.(todo := s.writer.todo - {r}))
  {
    assert r !in s.writer.todo ==> s.writer.todo - {r} == s.writer.todo;
  }

  /** Once every thread left is passable, going through them in any order takes them off the list. */
  lemma {:induction false} PassAll(s: State, order: seq<Rid>)
    requires !s.crashed && s.writer.Waiting?
    requires forall r :: r in s.writer.todo ==> Passable(s, r, s.writer.t)
    ensures Run(s, Passes(order)) == s.(writer := s.writer.(todo := s.writer.todo - Covered(order)))
  {
    hide Next;
    if order == [] {
      assert s.writer.todo - Covered(order) == s.writer.todo;
    } else {
      var n := |order| - 1;
      PassAll(s, order[..n]);
      assert Passes(order)[..|Passes(order)| - 1] == Passes(order[..n]);
      assert order == order[..n] + [order[n]];
      assert Covered(order) == Covered(order[..n]) + {order[n]};
      var m := Run(s, Passes(order[..n]));
      assert s.writer.todo - Covered(order) == m.writer.todo - {order[n]};
      PassEffect(m, order[n]);
    }
  }

  /** synchronize returns: after any schedule in which every reader takes seven steps, either the
      update has completed already, or passing the readers and freeing the old block completes it. */
  lemma {:induction false} SynchronizeReturns(s: State, acts: seq<Action>, order: seq<Rid>, addr: Addr)
    requires Inv(s) && s.writer.Waiting?
    requires forall r :: r in s.readers ==> Reads(acts, r) >= 7 && r in order
    ensures var e := Run(s, acts);
            e.made > s.made ||
            (var f := Next(Run(e, Passes(order)), Write(addr));
             f.made == s.made + 1 && f.writer.Idle? && s.writer.old_ !in f.heap)
  {
    hide Next, Inv;
    SameGrace(s, acts);
    RunKeepsInv(s, acts);
    var e := Run(s, acts);
    if e.made == s.made {
      GraceTodo(e);
      forall r | r in e.writer.todo ensures Passable(e, r, e.writer.t) { GraceBound(s, acts, r); }
      PassAll(e, order);
      assert forall r :: r in e.writer.todo ==> r in Covered(order);
      assert Run(e, Passes(order)).writer.todo == {};
      RunKeepsInv(e, Passes(order));
      FreeCompletes(Run(e, Passes(order)), addr);
    }
  }

  lemma GraceTodo(s: State)
    requires Inv(s) && s.writer.Waiting?
    ensures s.writer.todo <= s.readers.Keys && !s.crashed
  {
  }

  lemma FreeCompletes(s: State, addr: Addr)
    requires Inv(s) && s.writer.Waiting? && s.writer.todo == {}
    ensures var f := Next(s, Write(addr));
            f.made == s.made + 1 && f.writer.Idle? && s.writer.old_ !in f.heap
  {
  }

  // ---- Shutdown ----

  /** How many of its own steps a reader is from exiting, once the stop flag is up. */
  function ToExit(pc: ReaderPc): nat {
    match pc
    case Start => 6
    case Registered => 5
    case GoingOnline(_) => 4
    case LoopTop => 3
    case Locked => 8
    case Holding(_) => 7
    case Used(_) => 6
    case Unlocked => 5
    case Reporting(_) => 4
    case Leaving => 2
    case Offline => 1
    case Exited => 0
  }

  lemma ExitStep(s: State, a: Action, r: Rid)
    requires Inv(s) && s.stop && r in s.readers
    ensures var m, n := ToExit(s.readers[r]), ToExit(Next(s, a).readers[r]);
            n == if a == Read(r) && m > 0 then m - 1 else m
  {
    hide ReaderStep;
    if a.Read? && a.r in s.readers {
      ReadFrame(s, a.r);
      if a.r == r && !s.readers[r].Exited? { OwnExitStep(s, r); }
    }
  }

  lemma OwnExitStep(s: State, r: Rid)
    requires Inv(s) && s.stop && r in s.readers && !s.readers[r].Exited?
    ensures ToExit(ReaderStep(s, r).readers[r]) == ToExit(s.readers[r]) - 1
  {
    assert ReaderOk(s, r);
    if s.readers[r].Holding? { HeldIsLive(s, r); }
  }

  /** After the stop flag is up, each of a reader's own steps brings it one nearer to exiting. */
  lemma {:induction false} StopBound(s: State, acts: seq<Action>, r: Rid)
    requires Inv(s) && s.stop && r in s.readers
    ensures Run(s, acts).stop && r in Run(s, acts).readers
    ensures var d := ToExit(s.readers[r]);
            ToExit(Run(s, acts).readers[r]) == (if Reads(acts, r) <= d then d - Reads(acts, r) else 0)
  {
    hide Next, Inv, ToExit;
    if acts != [] {
      var before, a := acts[..|acts| - 1], acts[|acts| - 1];
      StopBound(s, before, r);
      RunKeepsInv(s, before);
      NextFacts(Run(s, before), a);
      ExitStep(Run(s, before), a, r);
    }
  }

  /** Once the writer has stopped the readers, any schedule in which each takes eight steps lets the
      program free the last block and finish. */
  lemma ShutdownCompletes(s: State, acts: seq<Action>, addr: Addr)
    requires Inv(s) && s.stop && forall r :: r in s.readers ==> Reads(acts, r) >= 8
    ensures Next(Run(s, acts), Write(addr)).writer.Done?
  {
    hide Next, Inv;
    var e := Run(s, acts);
    RunKeepsInv(s, acts);
    StopStays(s, acts);
    forall r | r in e.readers ensures e.readers[r].Exited? {
      StopBound(s, acts, r);
    }
    LastFree(e, addr);
  }

  lemma LastFree(s: State, addr: Addr)
    requires Inv(s) && s.stop && forall r :: r in s.readers ==> s.readers[r].Exited?
    ensures Next(s, Write(addr)).writer.Done?
  {
  }

  lemma {:induction false} StopStays(s: State, acts: seq<Action>)
    requires Inv(s) && s.stop
    ensures Run(s, acts).stop && Run(s, acts).readers.Keys == s.readers.Keys
  {
    hide Next, Inv;
    if acts != [] {
      StopStays(s, acts[..|acts| - 1]);
      RunKeepsInv(s, acts[..|acts| - 1]);
      NextFacts(Run(s, acts[..|acts| - 1]), acts[|acts| - 1]);
    }
  }
}
