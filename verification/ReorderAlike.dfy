/** Renaming packets: the buffer looks at nothing but the 32-bit number, so runs on packets with the same
    numbers have the same shape. */
module ReorderAlike {
  import opened Basics
  import opened ReorderSpec
  import opened ReorderRuns

  ghost predicate AlikeSlot(R: (Mbuf, Mbuf) -> bool, x: Slot, y: Slot) {
    if x.Some? then y.Some? && R(x.value, y.value) else y.None?
  }

  ghost predicate AlikeSlots(R: (Mbuf, Mbuf) -> bool, v: seq<Slot>, w: seq<Slot>) {
    |v| == |w| && forall i :: 0 <= i < |v| ==> AlikeSlot(R, v[i], w[i])
  }

  ghost predicate AlikeQueue(R: (Mbuf, Mbuf) -> bool, p: seq<Mbuf>, q: seq<Mbuf>) {
    |p| == |q| && forall i :: 0 <= i < |p| ==> R(p[i], q[i])
  }

  /** Two buffers with related packets in the same places. */
  ghost predicate Alike(R: (Mbuf, Mbuf) -> bool, s: State, t: State) {
    && s.Valid() && t.Valid() && s.started == t.started && s.minSeqn == t.minSeqn
    && AlikeSlots(R, s.window, t.window) && AlikeQueue(R, s.ready, t.ready)
  }

  lemma AlikePass(R: (Mbuf, Mbuf) -> bool, s: State, t: State)
    requires Alike(R, s, t)
    ensures Alike(R, Pass(s), Pass(t))
  {
  }

  lemma {:induction false} AlikePassN(R: (Mbuf, Mbuf) -> bool, s: State, t: State, k: nat)
    requires Alike(R, s, t)
    ensures Alike(R, PassN(s, k), PassN(t, k))
  {
    if k > 0 {
      hide Alike;
      AlikeValid(R, s, t);
      AlikePassN(R, s, t, k - 1);
      AlikePass(R, PassN(s, k - 1), PassN(t, k - 1));
    }
  }

  lemma AlikeValid(R: (Mbuf, Mbuf) -> bool, s: State, t: State)
    requires Alike(R, s, t)
    ensures s.Valid() && t.Valid() && |s.window| == |t.window| && s.Free() == t.Free()
    ensures s.window[0].None? <==> t.window[0].None?
    ensures RunLen(s.window) == RunLen(t.window)
  {
    RunUnique(t.window, RunLen(s.window));
  }

  lemma AlikeTurn(R: (Mbuf, Mbuf) -> bool, s: State, t: State)
    requires Alike(R, s, t)
    ensures Turn(s) == Turn(t)
  {
    var gap := if s.window[0].None? then 1 else 0;
    AlikePassN(R, s, t, gap);
    AlikeValid(R, s, t);
    hide Alike, PassN, RunLen;
    AlikeValid(R, PassN(s, gap), PassN(t, gap));
  }

  lemma ScanOnce(s: State, n: nat, adv: nat)
    requires s.Valid()
    ensures Scan(s, n, adv) == if adv >= n || s.Free() == 0 then adv else Scan(PassN(s, Turn(s)), n, adv + Turn(s))
  {
  }

  lemma {:induction false} AlikeScan(R: (Mbuf, Mbuf) -> bool, s: State, t: State, n: nat, adv: nat)
    requires Alike(R, s, t)
    ensures Scan(s, n, adv) == Scan(t, n, adv)
    decreases n - adv
  {
    AlikeValid(R, s, t);
    hide Alike, PassN, RunLen, Turn, Scan;
    ScanOnce(s, n, adv);
    ScanOnce(t, n, adv);
    if adv < n && s.Free() > 0 {
      var k := Turn(s);
      AlikeTurn(R, s, t);
      AlikePassN(R, s, t, k);
      var s', t' := PassN(s, k), PassN(t, k);
      AlikeScan(R, s', t', n, adv + k);
    }
  }

  lemma AlikeOverflow(R: (Mbuf, Mbuf) -> bool, s: State, t: State, n: nat)
    requires Alike(R, s, t)
    ensures Overflow(s, n).1 == Overflow(t, n).1 && Alike(R, Overflow(s, n).0, Overflow(t, n).0)
  {
    hide Scan, PassN;
    AlikeScan(R, s, t, n, 0);
    AlikePassN(R, s, t, Scan(s, n, 0));
  }

  lemma AlikeStore(R: (Mbuf, Mbuf) -> bool, s: State, t: State, x: Mbuf, y: Mbuf)
    requires Alike(R, s, t) && R(x, y) && x.seqn == y.seqn && Offset(s, x) < |s.window|
    ensures Offset(t, y) == Offset(s, x) && Alike(R, Store(s, x), Store(t, y))
  {
  }

  lemma AlikeAhead(R: (Mbuf, Mbuf) -> bool, s: State, t: State, x: Mbuf, y: Mbuf)
    requires Alike(R, s, t) && R(x, y) && x.seqn == y.seqn < TWO32 && |s.window| < TWO32
    requires |s.window| <= Offset(s, x) < Reach(|s.window|)
    ensures Offset(t, y) == Offset(s, x)
    ensures InsertAhead(s, x).1 == InsertAhead(t, y).1 && Alike(R, InsertAhead(s, x).0, InsertAhead(t, y).0)
  {
    hide Overflow;
    var need := Offset(s, x) + 1 - |s.window|;
    AlikeOverflow(R, s, t, need);
    AlikeValid(R, s, t);
    if Overflow(s, need).1 >= need {
      ScanBound(s, need);
      AheadSlotEmpty(s, x);
      hide Alike, Store;
      AlikeStore(R, Overflow(s, need).0, Overflow(t, need).0, x, y);
    }
  }

  lemma AlikeInsert(R: (Mbuf, Mbuf) -> bool, s: State, t: State, x: Mbuf, y: Mbuf)
    requires Alike(R, s, t) && R(x, y) && x.seqn == y.seqn < TWO32 && |s.window| < TWO32
    ensures Insert(s, x).1 == Insert(t, y).1 && Alike(R, Insert(s, x).0, Insert(t, y).0)
  {
    var b, c := Begun(s, x), Begun(t, y);
    assert Alike(R, b, c);
    hide InsertAhead;
    if Offset(b, x) < |b.window| {
      AlikeStore(R, b, c, x, y);
    } else if Offset(b, x) < Reach(|b.window|) {
      AlikeAhead(R, b, c, x, y);
    }
  }

  lemma {:induction false} AlikeDrainWindow(R: (Mbuf, Mbuf) -> bool, s: State, t: State, max: nat)
    requires Alike(R, s, t)
    ensures Alike(R, DrainWindow(s, max).0, DrainWindow(t, max).0)
    ensures AlikeQueue(R, DrainWindow(s, max).1, DrainWindow(t, max).1)
    decreases max
  {
    hide DrainWindow;
    DrainStep(s, max);
    DrainStep(t, max);
    if max > 0 && s.window[0].Some? {
      var s', t' := s.(window := Shifted(s.window), minSeqn := (s.minSeqn + 1) % TWO32),
                    t.(window := Shifted(t.window), minSeqn := (t.minSeqn + 1) % TWO32);
      AlikeDrainWindow(R, s', t', max - 1);
    }
  }

  lemma AlikeDrain(R: (Mbuf, Mbuf) -> bool, s: State, t: State, max: nat)
    requires Alike(R, s, t)
    ensures Alike(R, Drain(s, max).0, Drain(t, max).0) && AlikeQueue(R, Drain(s, max).1, Drain(t, max).1)
  {
    hide DrainWindow;
    var q := Min(max, |s.ready|);
    AlikeDrainWindow(R, s.(ready := s.ready[q..]), t.(ready := t.ready[q..]), max - q);
  }

  /** Two runs so far have the same shape. */
  ghost predicate AlikeLogs(R: (Mbuf, Mbuf) -> bool, l: Log, r: Log) {
    Alike(R, l.state, r.state) && AlikeQueue(R, l.out, r.out)
  }

  ghost predicate AllLegal(ops: seq<Op>) {
    forall i :: 0 <= i < |ops| ==> Legal(ops[i])
  }

  lemma AlikeStep(R: (Mbuf, Mbuf) -> bool, l: Log, r: Log, op: Op)
    requires AlikeLogs(R, l, r) && |l.state.window| < TWO32 && Legal(op) && (op.Put? ==> R(op.m, op.m))
    ensures AlikeLogs(R, Step(l, op), Step(r, op))
  {
    hide Insert, Drain, Lost, Displaced, Alike;
    AlikeValid(R, l.state, r.state);
    match op
    case Put(m) => AlikeInsert(R, l.state, r.state, m, m);
    case Get(max) => AlikeDrain(R, l.state, r.state, max);
  }

  /** Two runs that are alike stay alike whatever comes next, if what comes is related to itself. */
  lemma {:induction false} AlikeRuns(R: (Mbuf, Mbuf) -> bool, size: nat, o1: seq<Op>, o2: seq<Op>, more: seq<Op>)
    requires 0 < size < TWO32 && AllLegal(o1) && AllLegal(o2) && AllLegal(more)
    requires forall i :: 0 <= i < |more| && more[i].Put? ==> R(more[i].m, more[i].m)
    requires AlikeLogs(R, Run(size, o1), Run(size, o2))
    ensures AlikeLogs(R, Run(size, o1 + more), Run(size, o2 + more))
  {
    hide Step, AlikeLogs;
    if more == [] {
      assert o1 + more == o1 && o2 + more == o2;
    } else {
      var front, op := more[..|more| - 1], more[|more| - 1];
      AlikeRuns(R, size, o1, o2, front);
      assert o1 + more == o1 + front + [op] && o2 + more == o2 + front + [op];
      RunSnoc(size, o1 + front, op);
      RunSnoc(size, o2 + front, op);
      AlikeStep(R, Run(size, o1 + front), Run(size, o2 + front), op);
    }
  }
}
