/** The invariants behind the RCU program's safety: what every step keeps, over every interleaving. */
module RcuProofs {
  import opened RcuSpec

  /** Between going online and offline: the reader may hold or fetch the pointer. */
  predicate Online(pc: ReaderPc) {
    !pc.Start? && !pc.Registered? && !pc.GoingOnline? && !pc.Offline? && !pc.Exited?
  }

  /** A held pointer is the current one, or the one the writer has unpublished and not yet been let
      past this reader to free. */
  ghost predicate Held(s: State, r: Rid, p: Addr) {
    || p == s.gdata
    || (s.writer.Swapped? && p == s.writer.old_)
    || (s.writer.Waiting? && p == s.writer.old_ && r in s.writer.todo && Cnt(s, r) < s.writer.t)
  }

  ghost predicate ReaderOk(s: State, r: Rid)
    requires r in s.readers
  {
    var pc := s.readers[r];
    && (r in s.registered <==> !pc.Start? && !pc.Exited?)
    && (Cnt(s, r) > 0 <==> Online(pc)) && Cnt(s, r) <= s.token
    && (pc.GoingOnline? || pc.Reporting? ==> 0 < pc.t && Cnt(s, r) <= pc.t <= s.token)
    && (pc.Holding? || pc.Used? ==> Held(s, r, pc.p))
    && (pc.Leaving? || pc.Offline? || pc.Exited? ==> s.stop)
  }

  function Counting(n: nat): (c: seq<nat>)
    ensures |c| == n
  {
    seq(n, i => i)
  }

  /** What the writer's phase says about the heap: never more than two blocks live, values counted up,
      and every block of a completed update freed exactly once, in order. */
  ghost predicate WriterOk(s: State) {
    && s.made <= s.updates && s.token > 0
    && (s.writer.Done? ==> s.freed == Counting(s.made + 1)) && (!s.writer.Done? ==> s.freed == Counting(s.made))
    && (s.stop <==> s.writer.Joining? || s.writer.Done?)
    && match s.writer
       case Idle => s.heap == map[s.gdata := s.made]
       case Allocated(n) => s.made < s.updates && n != s.gdata && s.heap == map[s.gdata := s.made, n := s.made + 1]
       case Swapped(p) => s.made < s.updates && p != s.gdata && s.heap == map[p := s.made, s.gdata := s.made + 1]
       case Waiting(p, t, todo) =>
         && s.made < s.updates && p != s.gdata && s.heap == map[p := s.made, s.gdata := s.made + 1]
         && t == s.token && todo <= s.readers.Keys
       case Joining => s.made == s.updates && s.heap == map[s.gdata := s.made]
       case Done => s.made == s.updates && s.heap == map[] && forall r :: r in s.readers ==> s.readers[r] == Exited
  }

  ghost predicate Inv(s: State) {
    && !s.crashed && WriterOk(s)
    && s.registered <= s.readers.Keys
    && forall r :: r in s.readers ==> ReaderOk(s, r)
  }

  lemma InitInv(ids: set<Rid>, updates: nat, first: Addr)
    ensures Inv(Init(ids, updates, first))
  {
  }

  /** What the writer frees is live. */
  lemma FreedIsLive(s: State)
    requires Inv(s)
    ensures !s.crashed && (s.writer.Waiting? ==> s.writer.old_ in s.heap) && (s.writer.Joining? ==> s.gdata in s.heap)
  {
  }

  /** A reader's part of the invariant looks only at its own entries and the shared pointer state. */
  lemma ReaderFrame(s: State, t: State, q: Rid)
    requires q in s.readers && q in t.readers && ReaderOk(s, q)
    requires s.readers[q] == t.readers[q] && Cnt(s, q) == Cnt(t, q) && (q in s.registered <==> q in t.registered)
    requires s.gdata == t.gdata && s.writer == t.writer && s.token == t.token && s.stop == t.stop
    ensures ReaderOk(t, q)
  {
  }

  /** What a reader's step leaves alone. */
  ghost predicate ReadLeaves(s: State, t: State, r: Rid) {
    && t.heap == s.heap && t.gdata == s.gdata && t.token == s.token && t.stop == s.stop
    && t.updates == s.updates && t.made == s.made && t.writer == s.writer && t.freed == s.freed
    && t.readers.Keys == s.readers.Keys && t.registered <= s.registered + {r}
    && forall q :: q in s.readers && q != r ==>
         t.readers[q] == s.readers[q] && Cnt(t, q) == Cnt(s, q) && (q in t.registered <==> q in s.registered)
  }

  lemma ReadFrame(s: State, r: Rid)
    requires r in s.readers
    ensures ReadLeaves(s, ReaderStep(s, r), r)
  {
  }

  /** The reader's own part, before the bound on its counter: where it is and what it may hold. */
  lemma ReadKeepsHeld(s: State, r: Rid)
    requires Inv(s) && Enabled(s, Read(r))
    ensures var t := ReaderStep(s, r);
            && !t.crashed
            && (t.readers[r].Holding? || t.readers[r].Used? ==> Held(t, r, t.readers[r].p))
  {
    ReadFrame(s, r);
    assert ReaderOk(s, r);
  }

  lemma ReadKeepsReader(s: State, r: Rid)
    requires Inv(s) && Enabled(s, Read(r))
    ensures ReaderOk(ReaderStep(s, r), r)
  {
    hide Held;
    ReadFrame(s, r);
    ReadKeepsHeld(s, r);
    assert ReaderOk(s, r);
  }

  lemma ReadKeepsWriter(s: State, t: State, r: Rid)
    requires Inv(s) && Enabled(s, Read(r)) && ReadLeaves(s, t, r)
    ensures WriterOk(t)
  {
    hide ReaderOk;
  }

  lemma ReadKeepsInv(s: State, r: Rid)
    requires Inv(s) && Enabled(s, Read(r))
    ensures Inv(ReaderStep(s, r))
  {
    hide ReaderOk, WriterOk, ReaderStep;
    var t := ReaderStep(s, r);
    ReadFrame(s, r);
    ReadKeepsHeld(s, r);
    ReadKeepsReader(s, r);
    ReadKeepsWriter(s, t, r);
    forall q | q in t.readers && q != r ensures ReaderOk(t, q) {
      ReaderFrame(s, t, q);
    }
  }

  lemma PassKeepsInv(s: State, r: Rid)
    requires Inv(s) && Enabled(s, Pass(r))
    ensures Inv(Next(s, Pass(r)))
  {
    var t := Next(s, Pass(r));
    forall q | q in t.readers ensures ReaderOk(t, q) {
      assert ReaderOk(s, q);
    }
  }

  lemma WriteKeepsReader(s: State, addr: Addr, q: Rid)
    requires Inv(s) && Enabled(s, Write(addr)) && q in s.readers
    ensures q in WriterStep(s, addr).readers && ReaderOk(WriterStep(s, addr), q)
  {
    assert ReaderOk(s, q);
  }

  lemma WriteKeepsWriter(s: State, addr: Addr)
    requires Inv(s) && Enabled(s, Write(addr))
    ensures WriterOk(WriterStep(s, addr)) && !WriterStep(s, addr).crashed
  {
    hide ReaderOk;
    assert Counting(s.made + 1) == Counting(s.made) + [s.made];
    var t := WriterStep(s, addr);
    match s.writer
    case Idle => if s.made < s.updates { assert t.heap == map[t.gdata := t.made, addr := t.made + 1]; }
    case Waiting(p, _, _) => assert t.heap == map[t.gdata := t.made];
    case Joining => assert t.heap == map[];
    case _ =>
  }

  lemma WriteKeepsInv(s: State, addr: Addr)
    requires Inv(s) && Enabled(s, Write(addr))
    ensures Inv(WriterStep(s, addr))
  {
    hide ReaderOk, WriterOk;
    WriteKeepsWriter(s, addr);
    var t := WriterStep(s, addr);
    forall q | q in t.readers ensures ReaderOk(t, q) {
      WriteKeepsReader(s, addr, q);
    }
  }

  lemma {:induction false} NextKeepsInv(s: State, a: Action)
    requires Inv(s)
    ensures Inv(Next(s, a))
  {
    if Enabled(s, a) {
      match a
      case Read(r) => ReadKeepsInv(s, r);
      case Write(addr) => WriteKeepsInv(s, addr);
      case Pass(r) => PassKeepsInv(s, r);
    }
  }

  lemma {:induction false} RunKeepsInv(s: State, acts: seq<Action>)
    requires Inv(s)
    ensures Inv(Run(s, acts))
  {
    if acts != [] {
      RunKeepsInv(s, acts[..|acts| - 1]);
      NextKeepsInv(Run(s, acts[..|acts| - 1]), acts[|acts| - 1]);
    }
  }

  /** The value readers who load the pointer now will see. */
  function Latest(s: State): nat {
    if s.writer.Swapped? || s.writer.Waiting? then s.made + 1 else s.made
  }

  ghost predicate Nondecreasing(v: seq<nat>) {
    forall i, j :: 0 <= i < j < |v| ==> v[i] <= v[j]
  }

  ghost predicate UpTo(v: seq<nat>, top: nat) {
    forall i :: 0 <= i < |v| ==> v[i] <= top
  }

  /** What a reader has printed never goes down, and what it holds is no older. */
  ghost predicate MonotoneAt(s: State, r: Rid)
    requires r in s.readers
  {
    && Nondecreasing(Seen(s, r)) && UpTo(Seen(s, r), Latest(s))
    && (s.readers[r].Holding? && s.readers[r].p in s.heap ==> UpTo(Seen(s, r), s.heap[s.readers[r].p]))
  }

  ghost predicate Monotone(s: State) {
    forall r :: r in s.readers ==> MonotoneAt(s, r)
  }

  lemma HeldIsLive(s: State, r: Rid)
    requires Inv(s) && r in s.readers && (s.readers[r].Holding? || s.readers[r].Used?)
    ensures s.readers[r].p in s.heap && Latest(s) - 1 <= s.heap[s.readers[r].p] <= Latest(s)
    ensures s.readers[r].p == s.gdata ==> s.heap[s.readers[r].p] == Latest(s)
  {
    assert ReaderOk(s, r);
  }

  lemma PointerIsLatest(s: State)
    requires Inv(s) && !s.writer.Done?
    ensures s.gdata in s.heap && s.heap[s.gdata] == Latest(s)
  {
  }

  lemma ReadKeepsOwn(s: State, r: Rid)
    requires Inv(s) && r in s.readers && !s.readers[r].Exited? && MonotoneAt(s, r)
    ensures MonotoneAt(ReaderStep(s, r), r)
  {
    hide ReaderOk, WriterOk;
    if s.readers[r].Holding? { HeldIsLive(s, r); }
    if s.readers[r].Locked? && !s.writer.Done? { PointerIsLatest(s); }
    if s.writer.Done? { DoneIsQuiet(s, r); }
  }

  lemma DoneIsQuiet(s: State, r: Rid)
    requires Inv(s) && s.writer.Done? && r in s.readers
    ensures s.readers[r].Exited?
  {
  }

  lemma ReadKeepsMonotone(s: State, r: Rid)
    requires Inv(s) && Monotone(s) && Enabled(s, Read(r))
    ensures Monotone(ReaderStep(s, r))
  {
    hide ReaderOk, WriterOk, Nondecreasing, UpTo;
    var t := ReaderStep(s, r);
    assert MonotoneAt(s, r);
    ReadKeepsOwn(s, r);
    assert t.heap == s.heap && Latest(t) == Latest(s);
    forall q | q in t.readers ensures MonotoneAt(t, q) {
      if q != r { assert MonotoneAt(s, q) && Seen(t, q) == Seen(s, q); }
    }
  }

  /** A step that is not a reader's: no reader moves, and what loads now see is no older. */
  lemma OtherKeepsMonotone(s: State, t: State, q: Rid)
    requires Inv(s) && Inv(t) && q in s.readers && MonotoneAt(s, q)
    requires t.readers == s.readers && t.seen == s.seen && Latest(s) <= Latest(t)
    requires forall p :: p in s.heap && p in t.heap ==> t.heap[p] == s.heap[p]
    ensures MonotoneAt(t, q)
  {
    if t.readers[q].Holding? {
      HeldIsLive(s, q);
      HeldIsLive(t, q);
    }
  }

  lemma FreeLeaves(s: State, p: Addr)
    ensures Free(s, p).readers == s.readers && Free(s, p).seen == s.seen
    ensures Free(s, p).made == s.made && Free(s, p).writer == s.writer
    ensures forall q :: q in Free(s, p).heap ==> q in s.heap && Free(s, p).heap[q] == s.heap[q]
  {
  }

  lemma WriteLeaves(s: State, addr: Addr)
    ensures var t := WriterStep(s, addr); t.readers == s.readers && t.seen == s.seen && Latest(s) <= Latest(t)
  {
    hide Free;
    match s.writer
    case Waiting(old_, _, _) => FreeLeaves(s, old_);
    case Joining => FreeLeaves(s, s.gdata);
    case _ =>
  }

  lemma WriteKeepsBlock(s: State, addr: Addr, p: Addr)
    requires s.writer.Idle? && s.made < s.updates ==> addr !in s.heap
    requires p in s.heap && p in WriterStep(s, addr).heap
    ensures WriterStep(s, addr).heap[p] == s.heap[p]
  {
    hide Free;
    match s.writer
    case Waiting(old_, _, _) => FreeLeaves(s, old_);
    case Joining => FreeLeaves(s, s.gdata);
    case _ =>
  }

  lemma WriteKeepsMonotone(s: State, addr: Addr)
    requires Inv(s) && Monotone(s) && Enabled(s, Write(addr))
    ensures Monotone(WriterStep(s, addr))
  {
    assert s.writer.Idle? && s.made < s.updates ==> addr !in s.heap;
    WriteKeepsInv(s, addr);
    WriteLeaves(s, addr);
    hide Inv, WriterStep, MonotoneAt, Enabled, Latest;
    var t := WriterStep(s, addr);
    forall p | p in s.heap && p in t.heap ensures t.heap[p] == s.heap[p] { WriteKeepsBlock(s, addr, p); }
    forall q | q in t.readers ensures MonotoneAt(t, q) { OtherKeepsMonotone(s, t, q); }
  }

  lemma PassKeepsMonotone(s: State, r: Rid)
    requires Inv(s) && Monotone(s) && Enabled(s, Pass(r))
    ensures Monotone(Next(s, Pass(r)))
  {
    PassKeepsInv(s, r);
    hide Inv, MonotoneAt;
    var t := Next(s, Pass(r));
    forall q | q in t.readers ensures MonotoneAt(t, q) { OtherKeepsMonotone(s, t, q); }
  }

  lemma {:induction false} NextKeepsMonotone(s: State, a: Action)
    requires Inv(s) && Monotone(s)
    ensures Monotone(Next(s, a))
  {
    hide Inv, Monotone, ReaderStep, WriterStep;
    if !s.crashed && Enabled(s, a) {
      match a
      case Read(r) => ReadKeepsMonotone(s, r);
      case Write(addr) => WriteKeepsMonotone(s, addr);
      case Pass(r) => PassKeepsMonotone(s, r);
    }
  }
}
