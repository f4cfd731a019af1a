/** Packets whose 32-bit number looks newer or older than they are: exactly when one can disorder the
    output, and exactly when the code says of every packet what it should. */
module ReorderStale {
  import opened Basics
  import opened ReorderSpec
  import opened ReorderModel
  import opened ReorderRuns
  import opened ReorderAlike

  // ---- Verdicts ----

  ghost predicate AllStamped(ops: seq<Op>) {
    forall i :: 0 <= i < |ops| && ops[i].Put? ==> Stamped(ops[i].m)
  }

  /** Over a whole run the code gives every packet the verdict the unbounded model gives it if and only
      if each packet is clear when it comes. */
  lemma {:induction false} VerdictsIffClear(size: nat, ops: seq<Op>)
    requires 0 < size < TWO32 && AllStamped(ops)
    ensures AllLegal(ops)
    ensures Run(size, ops).verdicts == MRun(size, ops).verdicts <==> ClearRun(size, ops)
    ensures |Run(size, ops).verdicts| == |MRun(size, ops).verdicts|
  {
    hide Insert, Drain, MInsert, MDrain, Lost, Displaced, Clear;
    if ops != [] {
      var front, op := ops[..|ops| - 1], ops[|ops| - 1];
      VerdictsIffClear(size, front);
      var l, r := Run(size, front), MRun(size, front);
      if ClearRun(size, front) {
        RunRefines(size, front);
        if op.Put? {
          ClearIsExact(r.model, size, op.m);
          LastVerdicts(l.verdicts, Insert(l.state, op.m).1, r.verdicts, MInsert(r.model, size, op.m).1);
        }
      } else if op.Put? {
        LastVerdicts(l.verdicts, Insert(l.state, op.m).1, r.verdicts, MInsert(r.model, size, op.m).1);
      }
    }
  }

  lemma LastVerdicts(v: seq<Verdict>, x: Verdict, w: seq<Verdict>, y: Verdict)
    requires |v| == |w|
    ensures v + [x] == w + [y] <==> v == w && x == y
  {
    if v + [x] == w + [y] {
      assert (v + [x])[..|v|] == v && (w + [y])[..|w|] == w;
      assert (v + [x])[|v|] == x && (w + [y])[|w|] == y;
    }
  }

  // ---- What the code takes a packet for ----

  /** The packet with the same 32-bit number that the window's place makes of it. */
  function Alias(a: Model, m: Mbuf): Mbuf {
    if a.started then Mbuf(a.base + (m.order - a.base) % TWO32, m.seqn) else m
  }

  lemma AliasClear(a: Model, size: nat, m: Mbuf)
    requires Stamped(m)
    ensures Stamped(Alias(a, m)) && Clear(a, size, Alias(a, m))
    ensures m.order == Alias(a, m).order
         || m.order + TWO32 <= Alias(a, m).order || m.order >= Alias(a, m).order + TWO32
    ensures m.order == Alias(a, m).order ==> m == Alias(a, m)
    ensures Alias(a, m).seqn == m.seqn && (a.started ==> Alias(a, m).order >= a.base)
  {
  }

  /** Whether taking m for what it is not can put it out of order: the code stores it, and either it is
      ahead of what it is taken for, or it is behind and some packet of the window, or one that has
      left the window already, is not below it. */
  ghost predicate Harmful(a: Model, size: nat, out: seq<Mbuf>, m: Mbuf)
    requires 0 < size < TWO32 && |a.queue| < size
  {
    var x := Alias(a, m);
    var r := MInsert(a, size, x);
    var gone := out + r.0.queue;
    && m.order != x.order && r.1 == Stored
    && (m.order > x.order || x.order > r.0.base || (gone != [] && gone[|gone| - 1].order >= m.order))
  }

  /** After m some packets and drains, all clear of the wrap if m were what it is taken for, put the
      output out of order. */
  ghost predicate DisturbedBy(size: nat, ops: seq<Op>, m: Mbuf, more: seq<Op>)
    requires 0 < size < TWO32
  {
    && ClearRun(size, ops + [Put(Alias(MRun(size, ops).model, m))] + more)
    && AllLegal(ops + [Put(m)] + more) && !Ascending(Run(size, ops + [Put(m)] + more).out)
  }

  ghost predicate Disturbs(size: nat, ops: seq<Op>, m: Mbuf)
    requires 0 < size < TWO32
  {
    exists more :: DisturbedBy(size, ops, m, more)
  }

  /** The exact condition for order: after any clear run, a packet can put the output of what follows,
      all clear itself, out of order if and only if it is harmful. */
  lemma DisturbsIffHarmful(size: nat, ops: seq<Op>, m: Mbuf)
    requires 0 < size < TWO32 && ClearRun(size, ops) && Stamped(m)
    ensures Disturbs(size, ops, m) <==> Harmful(MRun(size, ops).model, size, MRun(size, ops).out, m)
  {
    hide Harmful, MRun, Run, ClearRun, Alias;
    var l := MRun(size, ops);
    if Harmful(l.model, size, l.out, m) {
      HarmfulDiffers(size, l, m);
      if m.order < Alias(l.model, m).order { StaleDisorders(size, ops, m); } else { AheadDisorders(size, ops, m); }
    } else {
      forall more ensures !DisturbedBy(size, ops, m, more) {
        if DisturbedBy(size, ops, m, more) { HarmlessKeepsOrder(size, ops, m, more); }
      }
    }
  }

  lemma HarmfulDiffers(size: nat, l: MLog, m: Mbuf)
    requires 0 < size < TWO32 && |l.model.queue| < size && Harmful(l.model, size, l.out, m)
    ensures m.order != Alias(l.model, m).order
  {
  }

  /** For a packet the code puts straight into the window, at place k: harmful if it is truly ahead, or
      not at the first place, or not above everything that has left the window. */
  lemma HarmfulInWindow(a: Model, size: nat, out: seq<Mbuf>, m: Mbuf)
    requires 0 < size < TWO32 && |a.queue| < size && a.started && Stamped(m) && !Clear(a, size, m)
    requires (m.order - a.base) % TWO32 < size
    ensures var k, gone := (m.order - a.base) % TWO32, out + a.queue;
            Harmful(a, size, out, m) <==>
            m.order > a.base + k || k > 0 || (gone != [] && gone[|gone| - 1].order >= m.order)
  {
    hide MOverflow;
  }

  /** A clear packet is never harmful. */
  lemma ClearIsHarmless(a: Model, size: nat, out: seq<Mbuf>, m: Mbuf)
    requires 0 < size < TWO32 && |a.queue| < size && Stamped(m) && Clear(a, size, m)
    ensures !Harmful(a, size, out, m)
  {
    hide MOverflow;
  }

  // ---- The two runs ----

  lemma MRunSnoc(size: nat, ops: seq<Op>, op: Op)
    requires 0 < size < TWO32
    ensures MRun(size, ops + [op]) == MStep(MRun(size, ops), size, op)
    ensures ClearRun(size, ops + [op]) <==>
              ClearRun(size, ops) && (op.Put? ==> Stamped(op.m) && Clear(MRun(size, ops).model, size, op.m))
  {
    assert (ops + [op])[..|ops|] == ops;
  }

  /** The run with m and the run with what it is taken for, just after it. */
  lemma AfterAlias(size: nat, ops: seq<Op>, m: Mbuf)
    requires 0 < size < TWO32 && ClearRun(size, ops) && Stamped(m)
    ensures AllLegal(ops) && AllLegal(ops + [Put(m)])
    ensures var l := MRun(size, ops);
            var x := Alias(l.model, m);
            var o1 := ops + [Put(x)];
            && ClearRun(size, o1) && MRun(size, o1).model == MInsert(l.model, size, x).0 && MRun(size, o1).out == l.out
            && Good(l.model, size) && Run(size, ops).out == l.out && Run(size, ops).state == Image(l.model, size)
            && Run(size, o1).state == Insert(Image(l.model, size), x).0 && Run(size, o1).out == l.out
            && Run(size, ops + [Put(m)]).state == Insert(Image(l.model, size), m).0
            && Run(size, ops + [Put(m)]).out == l.out
            && Insert(Image(l.model, size), x) == (Image(MRun(size, o1).model, size), MInsert(l.model, size, x).1)
            && Good(MRun(size, o1).model, size)
  {
    hide Insert, MInsert, Drain, MDrain, Lost, Displaced, Clear, Alias, ClearRun, MRun, Run, Image, Good;
    RunRefines(size, ops);
    var a := MRun(size, ops).model;
    AliasClear(a, size, m);
    MRunSnoc(size, ops, Put(Alias(a, m)));
    InsertRefines(a, size, Alias(a, m));
    RunSnoc(size, ops, Put(m));
    RunSnoc(size, ops, Put(Alias(a, m)));
  }

  // ---- Harmless ----

  lemma RefusedSame(s: State, x: Mbuf, m: Mbuf)
    requires s.Valid() && x.seqn == m.seqn < TWO32 && |s.window| < TWO32 && Insert(s, x).1 != Stored
    ensures Insert(s, m) == Insert(s, x)
  {
    hide Overflow;
  }

  /** What has left the window by some moment, or comes out of it later. */
  ghost predicate Later(l: MLog, base: nat, gone: seq<Mbuf>) {
    && l.model.started && l.model.base >= base
    && (forall y :: y in l.out || y in l.model.queue ==> y.order >= base || y in gone)
  }

  lemma {:induction false} DrainedAbove(a: Model, size: nat, max: nat)
    requires Good(a, size) && a.started
    ensures var r := MDrainStore(a, max); r.0.started && r.0.base >= a.base && r.0.queue == a.queue
    ensures forall y :: y in MDrainStore(a, max).1 ==> y.order >= a.base
    decreases max
  {
    if max > 0 && a.base in a.store {
      SlideImage(a, size, 1, a.queue);
      DrainedAbove(Slide(a, 1, a.queue), size, max - 1);
    }
  }

  lemma InsertedAbove(a: Model, size: nat, m: Mbuf)
    requires 0 < size < TWO32 && Good(a, size) && a.started && Stamped(m)
    ensures var b := MInsert(a, size, m).0;
            b.started && b.base >= a.base && forall y :: y in b.queue ==> y in a.queue || y.order >= a.base
  {
    hide MOverflow, Good;
    if a.base + size <= m.order < a.base + Span(size) {
      var need := m.order - a.base + 1 - size;
      OverflowRefines(a, size, need);
      QueuedAbove(a.queue, MOverflow(a, size, need).0.queue, a.base);
    }
  }

  lemma QueuedAbove(p: seq<Mbuf>, q: seq<Mbuf>, base: nat)
    requires |p| <= |q| && q[..|p|] == p && forall i :: |p| <= i < |q| ==> base <= q[i].order
    ensures forall y :: y in q ==> y in p || y.order >= base
  {
    forall i | 0 <= i < |q| ensures q[i] in p || q[i].order >= base {
      if i < |p| { assert q[i] == q[..|p|][i] == p[i]; }
    }
  }

  lemma DrainedLater(a: Model, size: nat, max: nat)
    requires Good(a, size) && a.started
    ensures var r := MDrain(a, max);
            && r.0.started && r.0.base >= a.base && (forall y :: y in r.0.queue ==> y in a.queue)
            && forall y :: y in r.1 ==> y in a.queue || y.order >= a.base
  {
    hide MDrainStore;
    var k := Min(max, |a.queue|);
    DrainedAbove(a.(queue := a.queue[k..]), size, max - k);
  }

  lemma LaterStep(l: MLog, size: nat, op: Op, base: nat, gone: seq<Mbuf>)
    requires 0 < size < TWO32 && Good(l.model, size) && Later(l, base, gone)
    requires op.Put? ==> Stamped(op.m)
    ensures Later(MStep(l, size, op), base, gone)
  {
    hide MInsert, MDrain, Good;
    match op
    case Put(m) => InsertedAbove(l.model, size, m);
    case Get(max) => DrainedLater(l.model, size, max);
  }

  lemma {:induction false} LaterRuns(size: nat, ops: seq<Op>, more: seq<Op>, base: nat, gone: seq<Mbuf>)
    requires 0 < size < TWO32 && ClearRun(size, ops + more) && Later(MRun(size, ops), base, gone)
    ensures Later(MRun(size, ops + more), base, gone)
  {
    hide Later, MStep, Clear;
    if more == [] {
      assert ops + more == ops;
    } else {
      var front, op := more[..|more| - 1], more[|more| - 1];
      assert ops + more == ops + front + [op];
      MRunSnoc(size, ops + front, op);
      LaterRuns(size, ops, front, base, gone);
      RunRefines(size, ops + front);
      LaterStep(MRun(size, ops + front), size, op, base, gone);
    }
  }

  /** Putting m in the place of x, in an output that rises, leaves it rising if all below x are below
      m, and m is below x. */
  lemma Replaced(p: seq<Mbuf>, q: seq<Mbuf>, x: Mbuf, m: Mbuf)
    requires Ascending(p) && |p| == |q| && forall i :: 0 <= i < |p| ==> q[i] == p[i] || (p[i] == x && q[i] == m)
    requires m.order < x.order && forall i :: 0 <= i < |p| && p[i].order < x.order ==> p[i].order < m.order
    ensures Ascending(q)
  {
  }

  lemma ConcatLegal(ops: seq<Op>, more: seq<Op>)
    requires AllLegal(ops + more)
    ensures AllLegal(more)
  {
    forall i | 0 <= i < |more| ensures Legal(more[i]) { assert more[i] == (ops + more)[|ops| + i]; }
  }

  lemma HarmlessKeepsOrder(size: nat, ops: seq<Op>, m: Mbuf, more: seq<Op>)
    requires 0 < size < TWO32 && ClearRun(size, ops) && Stamped(m)
    requires !Harmful(MRun(size, ops).model, size, MRun(size, ops).out, m)
    requires ClearRun(size, ops + [Put(Alias(MRun(size, ops).model, m))] + more)
    ensures AllLegal(ops + [Put(m)] + more) && Ascending(Run(size, ops + [Put(m)] + more).out)
  {
    hide Insert, MInsert, Run, MRun, ClearRun, Clear, Image, Alias, Good;
    AfterAlias(size, ops, m);
    var l := MRun(size, ops);
    var x := Alias(l.model, m);
    var o1, o2 := ops + [Put(x)], ops + [Put(m)];
    AliasClear(l.model, size, m);
    ConcatLegal(o1, more);
    OutputAscends(size, o1 + more);
    if m.order == x.order {
    } else if MInsert(l.model, size, x).1 != Stored {
      RefusedSame(Image(l.model, size), x, m);
      SameRuns(size, o1, o2, more);
    } else {
      StoredInside(l.model, size, x);
      ModelEmits(size, o1);
      EmittedAscends(l.out, MRun(size, o1).model);
      StaleHarmless(size, l, x, m, o1, o2, more);
    }
  }

  lemma EmittedAscends(out: seq<Mbuf>, a: Model)
    requires Emitted(out, a)
    ensures Ascending(out + a.queue) && forall i :: 0 <= i < |out| ==> out[i].order < a.base
  {
  }

  /** x is filed in the window. */
  ghost predicate Keeps(b: Model, size: nat, x: Mbuf) {
    b.started && b.base <= x.order < b.base + size && x.order in b.store && b.store[x.order] == x
  }

  /** A packet the model stores is in the window. */
  lemma StoredInside(a: Model, size: nat, x: Mbuf)
    requires 0 < size < TWO32 && Good(a, size) && Stamped(x) && Clear(a, size, x) && MInsert(a, size, x).1 == Stored
    ensures var b := MInsert(a, size, x).0;
            && Keeps(b, size, x)
            && (a.started ==> b.base >= a.base) && Good(b, size)
  {
    hide MOverflow, Clear, Insert, Image, Begun;
    InsertRefines(a, size, x);
    if a.started { InsertedAbove(a, size, x); }
    var c := MBegun(a, x);
    BegunRefines(a, size, x);
    if c.base + size <= x.order < c.base + Span(size) { OverflowRefines(c, size, x.order - c.base + 1 - size); }
  }

  lemma SameRuns(size: nat, o1: seq<Op>, o2: seq<Op>, more: seq<Op>)
    requires 0 < size < TWO32 && AllLegal(o1) && AllLegal(o2) && AllLegal(more)
    requires Run(size, o1).state == Run(size, o2).state && Run(size, o1).out == Run(size, o2).out
    ensures Run(size, o1 + more).out == Run(size, o2 + more).out
  {
    hide Run;
    AlikeRuns((p, q) => p == q, size, o1, o2, more);
  }

  /** In order, and all below m. */
  ghost predicate EndsBelow(gone: seq<Mbuf>, m: Mbuf) {
    Ascending(gone) && (gone == [] || gone[|gone| - 1].order < m.order)
  }

  lemma StaleHarmless(size: nat, l: MLog, x: Mbuf, m: Mbuf, o1: seq<Op>, o2: seq<Op>, more: seq<Op>)
    requires 0 < size < TWO32 && AllLegal(o1) && AllLegal(o2) && AllLegal(more)
    requires ClearRun(size, o1 + more) && Good(l.model, size) && x.seqn == m.seqn < TWO32
    requires Run(size, o1).state == Insert(Image(l.model, size), x).0 && Run(size, o1).out == l.out
    requires Run(size, o2).state == Insert(Image(l.model, size), m).0 && Run(size, o2).out == l.out
    requires MRun(size, o1).out == l.out
    requires m.order < x.order == MRun(size, o1).model.base && MRun(size, o1).model.started
    requires EndsBelow(l.out + MRun(size, o1).model.queue, m)
    ensures Ascending(Run(size, o2 + more).out)
  {
    hide Insert, Run, MRun, ClearRun, Good, Image;
    var R := (p, q) => q == p || (p == x && q == m);
    var s := Image(l.model, size);
    ImageFields(l.model, size);
    assert Alike(R, s, s);
    AlikeInsert(R, s, s, x, m);
    AlikeRuns(R, size, o1, o2, more);
    var p, q := Run(size, o1 + more).out, Run(size, o2 + more).out;
    RunRefines(size, o1 + more);
    OutputAscends(size, o1 + more);
    var gone := l.out + MRun(size, o1).model.queue;
    LaterRuns(size, o1, more, x.order, gone);
    forall i | 0 <= i < |p| && p[i].order < x.order ensures p[i].order < m.order {
      assert p[i] in MRun(size, o1 + more).out;
      var j :| 0 <= j < |gone| && gone[j] == p[i];
    }
    Replaced(p, q, x, m);
  }

  // ---- Harmful ----

  /** The packet numbered q. */
  function Numbered(q: nat): Mbuf {
    Mbuf(q, q % TWO32)
  }

  /** The packets numbered base to base + k - 1. */
  function Fill(base: nat, k: nat): (ops: seq<Op>)
    ensures |ops| == k && forall i :: 0 <= i < k ==> ops[i] == Put(Numbered(base + i))
  {
    seq(k, i requires 0 <= i < k => Put(Numbered(base + i)))
  }

  /** They are filed, and nothing else changes. */
  ghost predicate FilledIn(b: Model, c: Model, k: nat) {
    && c.started && c.base == b.base && c.queue == b.queue
    && (forall q :: b.base <= q < b.base + k ==> q in c.store && c.store[q] == Numbered(q))
    && (forall q :: q in b.store && q >= b.base + k ==> q in c.store && c.store[q] == b.store[q])
  }

  lemma FillStep(b: Model, c: Model, size: nat, k: nat)
    requires 0 < size < TWO32 && |c.queue| < size && FilledIn(b, c, k) && k < size
    ensures var m := Numbered(b.base + k);
            && Stamped(m) && Clear(c, size, m) && MInsert(c, size, m).1 == Stored
            && FilledIn(b, MInsert(c, size, m).0, k + 1)
  {
    hide MOverflow;
  }

  lemma {:induction false} FillRuns(size: nat, ops: seq<Op>, k: nat)
    requires 0 < size < TWO32 && ClearRun(size, ops) && MRun(size, ops).model.started && k <= size
    ensures var l := MRun(size, ops + Fill(MRun(size, ops).model.base, k));
            && ClearRun(size, ops + Fill(MRun(size, ops).model.base, k))
            && l.out == MRun(size, ops).out && FilledIn(MRun(size, ops).model, l.model, k)
  {
    hide MInsert, MDrain, Clear, MRun, ClearRun;
    var b := MRun(size, ops).model;
    if k == 0 {
      assert ops + Fill(b.base, 0) == ops;
    } else {
      hide FilledIn;
      FillRuns(size, ops, k - 1);
      var before := ops + Fill(b.base, k - 1);
      FillStep(b, MRun(size, before).model, size, k - 1);
      assert ops + Fill(b.base, k) == before + [Put(Numbered(b.base + k - 1))];
      MRunSnoc(size, before, Put(Numbered(b.base + k - 1)));
    }
  }

  /** A run of packets filed from the base on comes out. */
  lemma {:induction false} FiledComeOut(a: Model, n: nat)
    requires forall q :: a.base <= q < a.base + n ==> q in a.store
    ensures var r := MDrainStore(a, n);
            && |r.1| == n && (forall i :: 0 <= i < n ==> r.1[i] == a.store[a.base + i])
            && r.0.base == a.base + n && r.0.queue == a.queue && r.0.started == a.started
    decreases n
  {
    if n > 0 {
      var t := Slide(a, 1, a.queue);
      FiledComeOut(t, n - 1);
      var rest := MDrainStore(t, n - 1).1;
      forall i | 0 <= i < n ensures ([a.store[a.base]] + rest)[i] == a.store[a.base + i] {
        if i > 0 { assert rest[i - 1] == t.store[t.base + (i - 1)]; }
      }
    }
  }

  lemma QueueAndFiled(a: Model, n: nat)
    requires forall q :: a.base <= q < a.base + n ==> q in a.store
    ensures var r := MDrain(a, |a.queue| + n);
            && |r.1| == |a.queue| + n && r.1[..|a.queue|] == a.queue
            && (forall i :: 0 <= i < n ==> r.1[|a.queue|..][i] == a.store[a.base + i])
            && r.0.base == a.base + n && r.0.queue == [] && r.0.started == a.started
  {
    hide MDrainStore;
    FiledComeOut(a.(queue := []), n);
    assert a.queue[|a.queue|..] == [] && a.queue[..|a.queue|] == a.queue;
  }

  /** What brings x out: the packets before it, and a drain. */
  function BringOut(b: Model, x: Mbuf): seq<Op>
    requires b.base <= x.order
  {
    Fill(b.base, x.order - b.base) + [Get(|b.queue| + (x.order - b.base + 1))]
  }

  lemma LastDrained(b: Model, a: Model, x: Mbuf)
    requires b.base <= x.order && x.order in b.store && b.store[x.order] == x && FilledIn(b, a, x.order - b.base)
    ensures var n := x.order - b.base;
            var r := MDrain(a, |b.queue| + (n + 1));
            && |r.1| == |b.queue| + n + 1 && r.1[..|b.queue|] == b.queue && r.1[|r.1| - 1] == x
            && (n > 0 ==> r.1[|r.1| - 2] == Numbered(x.order - 1))
            && r.0.started && r.0.base == x.order + 1 && r.0.queue == []
  {
    hide MDrain;
    var n := x.order - b.base;
    QueueAndFiled(a, n + 1);
    var rest := MDrain(a, |b.queue| + (n + 1)).1[|b.queue|..];
    assert rest[n] == x;
    if n > 0 { assert rest[n - 1] == Numbered(x.order - 1); }
  }

  /** The output then ends with x; before it is the packet with the number before, or what had left the
      window. */
  lemma BroughtOut(size: nat, ops: seq<Op>, x: Mbuf)
    requires 0 < size < TWO32 && ClearRun(size, ops)
    requires Keeps(MRun(size, ops).model, size, x)
    ensures var b, more := MRun(size, ops).model, BringOut(MRun(size, ops).model, x);
            var l, gone, n := MRun(size, ops + more), MRun(size, ops).out + b.queue, x.order - b.base;
            && ClearRun(size, ops + more)
            && |l.out| == |gone| + n + 1 && l.out[|l.out| - 1] == x && l.out[..|gone|] == gone
            && (n > 0 ==> l.out[|l.out| - 2] == Numbered(x.order - 1))
            && l.model.started && l.model.base == x.order + 1 && l.model.queue == []
  {
    hide MRun, ClearRun, MDrain, Clear, MInsert, FilledIn;
    var b, n := MRun(size, ops).model, x.order - MRun(size, ops).model.base;
    FillRuns(size, ops, n);
    var filled := ops + Fill(b.base, n);
    LastDrained(b, MRun(size, filled).model, x);
    MRunSnoc(size, filled, Get(|b.queue| + (n + 1)));
    assert ops + BringOut(b, x) == filled + [Get(|b.queue| + (n + 1))];
  }

  /** Every x of one run is an m of the other, and nothing else differs. */
  ghost predicate Renamed(x: Mbuf, m: Mbuf, p: Mbuf, q: Mbuf) {
    q == if p == x then m else p
  }

  ghost predicate RenamedState(x: Mbuf, m: Mbuf, s: State, t: State) {
    Alike((p, q) => Renamed(x, m, p, q), s, t)
  }

  ghost predicate RenamedQueue(x: Mbuf, m: Mbuf, p: seq<Mbuf>, q: seq<Mbuf>) {
    AlikeQueue((p, q) => Renamed(x, m, p, q), p, q)
  }

  lemma StartRenamed(size: nat, l: MLog, x: Mbuf, m: Mbuf)
    requires 0 < size < TWO32 && Good(l.model, size) && l.model.started && x.seqn == m.seqn && Stamped(x)
    requires Emitted(l.out, l.model) && l.model.base <= x.order < l.model.base + Span(size)
    ensures var s := Image(l.model, size);
            && s.Valid() && |s.window| == size && x.seqn == m.seqn < TWO32
            && RenamedState(x, m, Insert(s, x).0, Insert(s, m).0) && RenamedQueue(x, m, l.out, l.out)
  {
    hide InsertAhead;
    var s := Image(l.model, size);
    ImageFields(l.model, size);
    OffsetImage(l.model, size, x);
    if x.order < l.model.base + size {
      assert Insert(s, x).0 == Store(s, x) && Insert(s, m).0 == Store(s, m);
      RenamedInWindow(size, l, x, m);
    } else {
      RenamedBefore(size, l, x, m);
      AlikeAhead((p, q) => Renamed(x, m, p, q), s, s, x, m);
    }
  }

  lemma RenamedInWindow(size: nat, l: MLog, x: Mbuf, m: Mbuf)
    requires 0 < size < TWO32 && Good(l.model, size) && x.seqn == m.seqn && Stamped(x)
    requires l.model.base <= x.order < l.model.base + size
    ensures var s := Image(l.model, size);
            Offset(s, x) == Offset(s, m) < |s.window| && RenamedState(x, m, Store(s, x), Store(s, m))
  {
    OffsetImage(l.model, size, x);
  }

  /** A packet beyond the window is not in it. */
  lemma RenamedBefore(size: nat, l: MLog, x: Mbuf, m: Mbuf)
    requires Good(l.model, size) && x.order >= l.model.base + size
    ensures RenamedState(x, m, Image(l.model, size), Image(l.model, size))
  {
  }

  /** The two runs, whatever comes next but another x. */
  lemma StayRenamed(size: nat, ops: seq<Op>, m: Mbuf, more: seq<Op>)
    requires 0 < size < TWO32 && ClearRun(size, ops) && Stamped(m)
    requires Harmful(MRun(size, ops).model, size, MRun(size, ops).out, m)
    requires ClearRun(size, ops + [Put(Alias(MRun(size, ops).model, m))] + more)
    requires forall i :: 0 <= i < |more| && more[i].Put? ==> more[i].m.order != Alias(MRun(size, ops).model, m).order
    ensures AllLegal(ops + [Put(m)] + more)
    ensures var x := Alias(MRun(size, ops).model, m);
            var p, q := MRun(size, ops + [Put(x)] + more).out, Run(size, ops + [Put(m)] + more).out;
            |p| == |q| && forall i :: 0 <= i < |p| ==> q[i] == if p[i] == x then m else p[i]
  {
    hide Insert, MInsert, Run, MRun, ClearRun, Clear, Image, Good, Emitted, Alike;
    AfterAlias(size, ops, m);
    var l, x := MRun(size, ops), Alias(MRun(size, ops).model, m);
    var o1, o2 := ops + [Put(x)], ops + [Put(m)];
    AliasClear(l.model, size, m);
    ConcatLegal(o1, more);
    ModelEmits(size, ops);
    TakenInSpan(l.model, size, x);
    StartRenamed(size, l, x, m);
    AlikeRuns((p, q) => Renamed(x, m, p, q), size, o1, o2, more);
    RunRefines(size, o1 + more);
  }

  lemma TakenInSpan(a: Model, size: nat, x: Mbuf)
    requires 0 < size < TWO32 && |a.queue| < size && a.started && MInsert(a, size, x).1 == Stored
    ensures a.base <= x.order < a.base + Span(size)
  {
  }

  lemma HarmfulStored(size: nat, ops: seq<Op>, m: Mbuf)
    requires 0 < size < TWO32 && ClearRun(size, ops) && Stamped(m)
    requires Harmful(MRun(size, ops).model, size, MRun(size, ops).out, m)
    ensures var l := MRun(size, ops);
            var x := Alias(l.model, m);
            var o1 := ops + [Put(x)];
            var b := MRun(size, o1).model;
            && ClearRun(size, o1) && MRun(size, o1).out == l.out && b == MInsert(l.model, size, x).0
            && Keeps(b, size, x)
  {
    hide MInsert, Run, MRun, ClearRun, Clear, Image, Good, Alias;
    AfterAlias(size, ops, m);
    var a := MRun(size, ops).model;
    AliasClear(a, size, m);
    StoredInside(a, size, Alias(a, m));
  }

  /** Behind: m comes out after a packet that is not below it. */
  lemma StaleDisorders(size: nat, ops: seq<Op>, m: Mbuf)
    requires 0 < size < TWO32 && ClearRun(size, ops) && Stamped(m)
    requires Harmful(MRun(size, ops).model, size, MRun(size, ops).out, m)
    requires m.order < Alias(MRun(size, ops).model, m).order
    ensures Disturbs(size, ops, m)
  {
    hide MInsert, Run, MRun, ClearRun, Clear, Alias;
    HarmfulStored(size, ops, m);
    var l, x := MRun(size, ops), Alias(MRun(size, ops).model, m);
    var o1 := ops + [Put(x)];
    var b := MRun(size, o1).model;
    var more := BringOut(b, x);
    AliasClear(l.model, size, m);
    BroughtOut(size, o1, x);
    StayRenamed(size, ops, m, more);
    var p, q := MRun(size, o1 + more).out, Run(size, ops + [Put(m)] + more).out;
    var gone, k := l.out + b.queue, |p| - 1;
    if x.order == b.base {
      assert p[k - 1] == p[..|gone|][k - 1] == gone[|gone| - 1];
    }
    assert q[k] == m && p[k - 1].order >= m.order && q[k - 1].order >= m.order;
    assert DisturbedBy(size, ops, m, more);
  }

  /** Ahead: m comes out before a packet below it. */
  lemma AheadDisorders(size: nat, ops: seq<Op>, m: Mbuf)
    requires 0 < size < TWO32 && ClearRun(size, ops) && Stamped(m)
    requires Harmful(MRun(size, ops).model, size, MRun(size, ops).out, m)
    requires m.order > Alias(MRun(size, ops).model, m).order
    ensures Disturbs(size, ops, m)
  {
    hide MInsert, MDrain, Run, MRun, ClearRun, Clear, Alias;
    HarmfulStored(size, ops, m);
    var l, x := MRun(size, ops), Alias(MRun(size, ops).model, m);
    var o1 := ops + [Put(x)];
    var b := MRun(size, o1).model;
    var more := BringOut(b, x);
    AliasClear(l.model, size, m);
    BroughtOut(size, o1, x);
    var c := MRun(size, o1 + more);
    RunRefines(size, o1 + more);
    var y := Numbered(x.order + 1);
    NextComesOut(c.model, size, y);
    MRunSnoc(size, o1 + more, Put(y));
    MRunSnoc(size, o1 + more + [Put(y)], Get(1));
    var all := more + [Put(y)] + [Get(1)];
    assert o1 + all == o1 + more + [Put(y)] + [Get(1)];
    StayRenamed(size, ops, m, all);
    var p, q := MRun(size, o1 + all).out, Run(size, ops + [Put(m)] + all).out;
    var k := |c.out| - 1;
    assert p == c.out + [y] && p[k] == x && p[k + 1] == y;
    assert q[k] == m && q[k + 1] == y;
    assert DisturbedBy(size, ops, m, all);
  }

  lemma NextComesOut(a: Model, size: nat, y: Mbuf)
    requires 0 < size < TWO32 && Good(a, size) && a.started && a.queue == [] && y == Numbered(a.base)
    ensures Stamped(y) && Clear(a, size, y)
    ensures MDrain(MInsert(a, size, y).0, 1).1 == [y]
  {
    hide MOverflow;
    var b := MInsert(a, size, y).0;
    FiledComeOut(b, 1);
  }
}
