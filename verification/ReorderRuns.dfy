/** Whole runs of the reorder buffer: conservation, refinement, output order, and what is lost. */
module ReorderRuns {
  import opened Basics
  import opened Wrappers
  import opened ReorderSpec
  import opened ReorderOverflow
  import opened ReorderModel

  datatype Op = Put(m: Mbuf) | Get(max: nat)

  /** A run so far: the buffer, what each insert said, what came out, and where every packet went. */
  datatype Log = Log(state: State, verdicts: seq<Verdict>, out: seq<Mbuf>,
                     taken: multiset<Mbuf>, dropped: multiset<Mbuf>, displaced: multiset<Mbuf>)

  function Fresh(size: nat): State {
    State(false, 0, Empties(size), [])
  }

  /** The packet an insert writes over, if its slot was occupied. */
  function Displaced(s: State, m: Mbuf): multiset<Mbuf>
    requires s.Valid()
  {
    var b := Begun(s, m);
    if Offset(b, m) < |b.window| && b.window[Offset(b, m)].Some?
    then multiset{b.window[Offset(b, m)].value} else multiset{}
  }

  /** The packet an insert loses through the overflow, if any. */
  function Lost(s: State, m: Mbuf): multiset<Mbuf>
    requires s.Valid() && m.seqn < TWO32 && |s.window| < TWO32
  {
    var b := Begun(s, m);
    if |b.window| <= Offset(b, m) < Reach(|b.window|)
    then multiset(Dropped(b, Offset(b, m) + 1 - |b.window|)) else multiset{}
  }

  predicate Legal(op: Op) {
    op.Put? ==> op.m.seqn < TWO32
  }

  function Step(l: Log, op: Op): (r: Log)
    requires l.state.Valid() && |l.state.window| < TWO32 && Legal(op)
    ensures r.state.Valid() && |r.state.window| == |l.state.window|
  {
    match op
    case Put(m) =>
      var r := Insert(l.state, m);
      Log(r.0, l.verdicts + [r.1], l.out,
          l.taken + if r.1 == Stored then multiset{m} else multiset{},
          l.dropped + Lost(l.state, m), l.displaced + Displaced(l.state, m))
    case Get(max) =>
      var r := Drain(l.state, max);
      l.(state := r.0, out := l.out + r.1)
  }

  function Run(size: nat, ops: seq<Op>): (r: Log)
    requires 0 < size < TWO32 && forall i :: 0 <= i < |ops| ==> Legal(ops[i])
    ensures r.state.Valid() && |r.state.window| == size
  {
    if ops == [] then Log(Fresh(size), [], [], multiset{}, multiset{}, multiset{})
    else Step(Run(size, ops[..|ops| - 1]), ops[|ops| - 1])
  }

  function Inside(s: State): multiset<Mbuf> {
    multiset(s.ready) + multiset(Present(s.window))
  }

  lemma StoreConserves(s: State, m: Mbuf)
    requires s.Valid() && Offset(s, m) < |s.window|
    ensures var was := s.window[Offset(s, m)];
            Inside(Store(s, m)) + (if was.Some? then multiset{was.value} else multiset{})
            == Inside(s) + multiset{m}
  {
    hide Present;
    var k, w := Offset(s, m), s.window;
    assert w == w[..k] + ([w[k]] + w[k + 1..]);
    assert w[k := Some(m)] == w[..k] + ([Some(m)] + w[k + 1..]);
    PresentConcat(w[..k], [w[k]] + w[k + 1..]);
    PresentConcat([w[k]], w[k + 1..]);
    PresentConcat(w[..k], [Some(m)] + w[k + 1..]);
    PresentConcat([Some(m)], w[k + 1..]);
    PresentOne(w[k]);
    PresentOne(Some(m));
  }

  lemma PresentOne(x: Slot)
    ensures Present([x]) == if x.Some? then [x.value] else []
  {
    assert [x][1..] == [];
  }

  lemma OverflowKeeps(s: State, n: nat)
    requires s.Valid() && n <= |s.window|
    ensures Inside(Overflow(s, n).0) + multiset(Dropped(s, n)) == Inside(s)
  {
    hide Overflow, Present, Dropped;
    OverflowConserves(s, n, Overflow(s, n).0, Overflow(s, n).1);
    var t := Overflow(s, n).0;
    var d, rest := multiset(Dropped(s, n)), multiset(Present(t.window));
    var m := multiset(Present(s.window[..Overflow(s, n).1]));
    calc {
      Inside(t) + d;
    == (multiset(t.ready) + d) + rest;
    == { assert multiset(t.ready + Dropped(s, n)) == multiset(s.ready + Present(s.window[..Overflow(s, n).1])); }
      (multiset(s.ready) + m) + rest;
    == multiset(s.ready) + (m + rest);
    == Inside(s);
    }
  }

  /** After the window has moved on, the slot of the packet that made it move is empty. */
  lemma AheadSlotEmpty(s: State, m: Mbuf)
    requires s.Valid() && m.seqn < TWO32 && |s.window| < TWO32
    requires |s.window| <= Offset(s, m) < Reach(|s.window|)
    ensures var need := Offset(s, m) + 1 - |s.window|;
            var r := Overflow(s, need);
            r.1 >= need ==> && Offset(r.0, m) == Offset(s, m) - r.1 < |s.window|
                            && r.0.window[Offset(r.0, m)].None?
  {
    hide Scan, PassN, Present;
    var need := Offset(s, m) + 1 - |s.window|;
    var r := Overflow(s, need);
    OverflowShift(s, need, r.0, r.1);
    if r.1 >= need { ShiftedOffset(m.seqn, s.minSeqn, r.1); }
  }

  lemma AheadConserves(s: State, m: Mbuf)
    requires s.Valid() && m.seqn < TWO32 && |s.window| < TWO32
    requires |s.window| <= Offset(s, m) < Reach(|s.window|)
    ensures Inside(InsertAhead(s, m).0) + multiset(Dropped(s, Offset(s, m) + 1 - |s.window|))
            == Inside(s) + if InsertAhead(s, m).1 == Stored then multiset{m} else multiset{}
  {
    hide Overflow, Inside, Dropped;
    var need := Offset(s, m) + 1 - |s.window|;
    var t, d := Overflow(s, need).0, multiset(Dropped(s, need));
    OverflowKeeps(s, need);
    AheadSlotEmpty(s, m);
    if Overflow(s, need).1 >= need {
      StoreConserves(t, m);
      calc {
        Inside(Store(t, m)) + d;
      == (Inside(Store(t, m)) + multiset{}) + d;
      == (Inside(t) + multiset{m}) + d;
      == (Inside(t) + d) + multiset{m};
      == Inside(s) + multiset{m};
      }
    }
  }

  lemma InsertConserves(s: State, m: Mbuf)
    requires s.Valid() && m.seqn < TWO32 && |s.window| < TWO32
    ensures Inside(Insert(s, m).0) + Lost(s, m) + Displaced(s, m)
            == Inside(s) + if Insert(s, m).1 == Stored then multiset{m} else multiset{}
  {
    hide InsertAhead, Dropped, Present;
    var b := Begun(s, m);
    assert Inside(b) == Inside(s);
    hide Inside, Store;
    if Offset(b, m) < |b.window| {
      StoreConserves(b, m);
    } else if Offset(b, m) < Reach(|b.window|) {
      AheadConserves(b, m);
    }
  }

  lemma {:induction false} DrainWindowConserves(s: State, max: nat)
    requires s.Valid()
    ensures Inside(DrainWindow(s, max).0) + multiset(DrainWindow(s, max).1) == Inside(s)
    decreases max
  {
    hide DrainWindow, Present;
    DrainStep(s, max);
    if max > 0 && s.window[0].Some? {
      var t := s.(window := Shifted(s.window), minSeqn := (s.minSeqn + 1) % TWO32);
      DrainWindowConserves(t, max - 1);
      WindowSplit(s.window, 1);
      assert s.window[..1] == [s.window[0]] && s.window[1..] + Empties(1) == Shifted(s.window);
      PresentOne(s.window[0]);
      var x, rest := s.window[0].value, DrainWindow(t, max - 1);
      assert multiset([x] + rest.1) == multiset{x} + multiset(rest.1);
      calc {
        Inside(rest.0) + (multiset{x} + multiset(rest.1));
      == (Inside(rest.0) + multiset(rest.1)) + multiset{x};
      == multiset(t.ready) + (multiset{x} + multiset(Present(t.window)));
      == Inside(s);
      }
    }
  }

  lemma DrainConserves(s: State, max: nat)
    requires s.Valid()
    ensures Inside(Drain(s, max).0) + multiset(Drain(s, max).1) == Inside(s)
  {
    hide DrainWindow, Present;
    var q := Min(max, |s.ready|);
    DrainWindowConserves(s.(ready := s.ready[q..]), max - q);
    assert s.ready == s.ready[..q] + s.ready[q..];
    var d := DrainWindow(s.(ready := s.ready[q..]), max - q);
    calc {
      Inside(d.0) + multiset(s.ready[..q] + d.1);
    == (Inside(d.0) + multiset(d.1)) + multiset(s.ready[..q]);
    == (multiset(s.ready[q..]) + multiset(s.ready[..q])) + multiset(Present(s.window));
    == Inside(s);
    }
  }

  // ---- The insert table, in its own numbers ----

  /** Where the window starts when a packet comes: the first packet of all sets it. */
  function Start(s: State, m: Mbuf): nat {
    if s.started then s.minSeqn else m.seqn
  }

  /** First row: a packet inside the window is stored in its place, and nothing else changes. */
  lemma InsideRow(s: State, m: Mbuf)
    requires s.Valid() && m.seqn < TWO32 && |s.window| < TWO32
    ensures var offset, r := (m.seqn - Start(s, m)) % 0x1_0000_0000, Insert(s, m);
            offset < |s.window| ==>
              r == (State(true, Start(s, m), s.window[offset := Some(m)], s.ready), Stored)
  {
  }

  /** Third row, and no other packet: too old or too far is twice the size on, in 32-bit arithmetic. The
      packet is refused and the window stays. */
  lemma FarRow(s: State, m: Mbuf)
    requires s.Valid() && m.seqn < TWO32 && |s.window| < TWO32
    ensures var offset, size, r := (m.seqn - Start(s, m)) % 0x1_0000_0000, |s.window|, Insert(s, m);
            && (r.1 == OutOfRange <==> offset >= size && offset >= (2 * size) % 0x1_0000_0000)
            && (2 * size < 0x1_0000_0000 ==> (r.1 == OutOfRange <==> offset >= 2 * size))
            && (r.1 == OutOfRange ==> r.0 == State(true, Start(s, m), s.window, s.ready))
  {
    hide Overflow;
  }

  /** Second row: the window moves on by the least that takes the packet in, and further only through
      packets that follow without a gap; it stops short only when the ready ring is full. The packet is
      stored in its place if it came far enough, and refused if not. */
  lemma AheadRow(s: State, m: Mbuf, adv: nat)
    requires s.Valid() && m.seqn < TWO32 && |s.window| < TWO32
    requires var offset, size := (m.seqn - Start(s, m)) % 0x1_0000_0000, |s.window|;
             && size <= offset < (2 * size) % 0x1_0000_0000
             && adv <= size && Stops(s, offset + 1 - size, adv)
    ensures var offset, size, r := (m.seqn - Start(s, m)) % 0x1_0000_0000, |s.window|, Insert(s, m);
            var moved := s.window[adv..] + Empties(adv);
            && r.1 == (if adv >= offset + 1 - size then Stored else NoSpace)
            && r.0.started && r.0.minSeqn == (Start(s, m) + adv) % 0x1_0000_0000
            && r.0.ready == s.ready + Present(s.window[..adv])[..Min(Count(s.window, adv), s.Free())]
            && (r.1 == NoSpace ==> r.0.window == moved)
            && (r.1 == Stored ==> 0 <= offset - adv < size && r.0.window == moved[offset - adv := Some(m)])
  {
    hide Present, Count, Overflow;
    var b := Begun(s, m);
    var need := Offset(b, m) + 1 - |s.window|;
    assert Stops(b, need, adv);
    hide Stops;
    OverflowAt(b, need, adv);
    if adv >= need { ShiftedOffset(m.seqn, b.minSeqn, adv); }
  }

  ghost predicate Balanced(l: Log) {
    l.taken == multiset(l.out) + Inside(l.state) + l.dropped + l.displaced
  }

  lemma StepConserves(l: Log, op: Op)
    requires l.state.Valid() && |l.state.window| < TWO32 && Legal(op) && Balanced(l)
    ensures Balanced(Step(l, op))
  {
    hide Insert, Drain, Lost, Displaced, Inside;
    var r := Step(l, op);
    var gone := multiset(l.out) + l.dropped + l.displaced;
    match op
    case Put(m) =>
      var more := if Insert(l.state, m).1 == Stored then multiset{m} else multiset{};
      InsertConserves(l.state, m);
      calc {
        l.taken + more;
      == gone + (Inside(l.state) + more);
      == gone + (Inside(r.state) + Lost(l.state, m) + Displaced(l.state, m));
      == multiset(r.out) + Inside(r.state) + r.dropped + r.displaced;
      }
    case Get(max) =>
      var d := Drain(l.state, max);
      DrainConserves(l.state, max);
      assert multiset(r.out) == multiset(l.out) + multiset(d.1);
      calc {
        l.taken;
      == gone + (Inside(r.state) + multiset(d.1));
      == multiset(r.out) + Inside(r.state) + r.dropped + r.displaced;
      }
  }

  /** Conservation over every run, whatever the sequence numbers: each packet the buffer accepted is
      in the output, in the ready ring, in the window, was lost by an overflow or was written over. */
  lemma {:induction false} RunConserves(size: nat, ops: seq<Op>)
    requires 0 < size < TWO32 && forall i :: 0 <= i < |ops| ==> Legal(ops[i])
    ensures Balanced(Run(size, ops))
  {
    hide Insert, Drain, Lost, Displaced, Inside;
    if ops == [] {
      InsideFresh(size);
    } else {
      var n := |ops| - 1;
      RunConserves(size, ops[..n]);
      var l := Run(size, ops[..n]);
      StepConserves(l, ops[n]);
    }
  }

  lemma InsideFresh(size: nat)
    ensures Inside(Fresh(size)) == multiset{}
  {
    PresentEmpties(Empties(size));
  }

  // ---- The model's runs, and output order ----

  datatype MLog = MLog(model: Model, verdicts: seq<Verdict>, out: seq<Mbuf>)

  function MStep(l: MLog, size: nat, op: Op): (r: MLog)
    requires 0 < size < TWO32 && |l.model.queue| < size
    ensures |r.model.queue| < size
  {
    match op
    case Put(m) =>
      var r := MInsert(l.model, size, m);
      MLog(r.0, l.verdicts + [r.1], l.out)
    case Get(max) =>
      MDrainQueue(l.model, max);
      var r := MDrain(l.model, max);
      MLog(r.0, l.verdicts, l.out + r.1)
  }

  lemma MDrainQueue(a: Model, max: nat)
    ensures |MDrain(a, max).0.queue| <= |a.queue|
  {
    MDrainStoreQueue(a.(queue := a.queue[Min(max, |a.queue|)..]), max - Min(max, |a.queue|));
  }

  lemma {:induction false} MDrainStoreQueue(a: Model, max: nat)
    ensures MDrainStore(a, max).0.queue == a.queue
    decreases max
  {
    if max > 0 && a.base in a.store { MDrainStoreQueue(Slide(a, 1, a.queue), max - 1); }
  }

  function MRun(size: nat, ops: seq<Op>): (r: MLog)
    requires 0 < size < TWO32
    ensures |r.model.queue| < size
  {
    if ops == [] then MLog(Model(false, 0, map[], []), [], [])
    else MStep(MRun(size, ops[..|ops| - 1]), size, ops[|ops| - 1])
  }

  /** Every packet put in is numbered by counting and clear of the 32-bit wrap when it arrives. */
  ghost predicate ClearRun(size: nat, ops: seq<Op>)
    requires 0 < size < TWO32
    ensures ClearRun(size, ops) ==> forall i :: 0 <= i < |ops| ==> Legal(ops[i])
  {
    ops != [] ==>
      && ClearRun(size, ops[..|ops| - 1])
      && (ops[|ops| - 1].Put? ==>
            && Stamped(ops[|ops| - 1].m)
            && Clear(MRun(size, ops[..|ops| - 1]).model, size, ops[|ops| - 1].m))
  }

  /** Refinement over runs: ring buffers and 32-bit numbers say and emit what the model does. */
  lemma {:induction false} RunRefines(size: nat, ops: seq<Op>)
    requires 0 < size < TWO32 && ClearRun(size, ops)
    ensures Good(MRun(size, ops).model, size)
    ensures Run(size, ops).state == Image(MRun(size, ops).model, size)
    ensures Run(size, ops).verdicts == MRun(size, ops).verdicts
    ensures Run(size, ops).out == MRun(size, ops).out
  {
    hide Insert, Drain, MInsert, MDrain, Lost, Displaced;
    if ops != [] {
      var n := |ops| - 1;
      RunRefines(size, ops[..n]);
      var a := MRun(size, ops[..n]).model;
      match ops[n]
      case Put(m) => InsertRefines(a, size, m);
      case Get(max) => DrainRefines(a, size, max);
    }
  }

  /** What has come out is in order and numbered below everything still inside. */
  ghost predicate Emitted(out: seq<Mbuf>, a: Model) {
    && Ascending(out + a.queue)
    && (forall i :: 0 <= i < |out| ==> out[i].order < a.base)
    && (!a.started ==> out == [])
  }

  lemma EmittedGrows(out: seq<Mbuf>, a: Model, b: Model)
    requires Emitted(out, a) && (!b.started ==> !a.started) && Ascending(b.queue)
    requires a.base <= b.base || out == []
    requires |a.queue| <= |b.queue| && b.queue[..|a.queue|] == a.queue
    requires forall i :: |a.queue| <= i < |b.queue| ==> a.base <= b.queue[i].order || out == []
    ensures Emitted(out, b)
  {
    forall i, j | 0 <= i < j < |out + b.queue| ensures (out + b.queue)[i].order < (out + b.queue)[j].order {
      if i < |out| && j < |out| + |a.queue| {
        assert (out + a.queue)[i].order < (out + a.queue)[j].order;
      }
    }
  }

  lemma InsertEmitted(out: seq<Mbuf>, a: Model, size: nat, m: Mbuf)
    requires Good(a, size) && size < TWO32 && Stamped(m) && Clear(a, size, m) && Emitted(out, a)
    ensures Emitted(out, MInsert(a, size, m).0)
  {
    hide MOverflow, Emitted, Image;
    InsertRefines(a, size, m);
    BegunRefines(a, size, m);
    var b := MBegun(a, m);
    BegunEmitted(out, a, m);
    if b.base + size <= m.order < b.base + Span(size) {
      OverflowRefines(b, size, m.order - b.base + 1 - size);
      EmittedGrows(out, b, MInsert(a, size, m).0);
    } else {
      EmittedGrows(out, b, MInsert(a, size, m).0);
    }
  }

  lemma BegunEmitted(out: seq<Mbuf>, a: Model, m: Mbuf)
    requires Emitted(out, a) && (!a.started ==> a.queue == [])
    ensures Emitted(out, MBegun(a, m))
  {
  }

  lemma {:induction false} DrainStoreEmitted(out: seq<Mbuf>, a: Model, size: nat, max: nat)
    requires Good(a, size) && Emitted(out, a) && (max > 0 ==> a.queue == [])
    ensures Emitted(out + MDrainStore(a, max).1, MDrainStore(a, max).0)
    decreases max
  {
    if max > 0 && a.base in a.store {
      var x := a.store[a.base];
      SlideImage(a, size, 1, a.queue);
      assert out + [] == out;
      DrainStoreEmitted(out + [x], Slide(a, 1, a.queue), size, max - 1);
      var rest := MDrainStore(Slide(a, 1, a.queue), max - 1).1;
      assert out + ([x] + rest) == (out + [x]) + rest;
    } else {
      assert out + [] == out;
    }
  }

  lemma DrainEmitted(out: seq<Mbuf>, a: Model, size: nat, max: nat)
    requires Good(a, size) && Emitted(out, a)
    ensures Emitted(out + MDrain(a, max).1, MDrain(a, max).0)
  {
    var q := Min(max, |a.queue|);
    var b := a.(queue := a.queue[q..]);
    hide MDrainStore;
    assert out + a.queue == (out + a.queue[..q]) + a.queue[q..];
    assert Emitted(out + a.queue[..q], b);
    hide Emitted;
    DrainStoreEmitted(out + a.queue[..q], b, size, max - q);
    var rest := MDrainStore(b, max - q).1;
    assert out + (a.queue[..q] + rest) == (out + a.queue[..q]) + rest;
  }

  lemma {:induction false} ModelEmits(size: nat, ops: seq<Op>)
    requires 0 < size < TWO32 && ClearRun(size, ops)
    ensures Emitted(MRun(size, ops).out, MRun(size, ops).model)
  {
    hide MInsert, MDrain;
    if ops != [] {
      var n := |ops| - 1;
      ModelEmits(size, ops[..n]);
      RunRefines(size, ops[..n]);
      var l := MRun(size, ops[..n]);
      match ops[n]
      case Put(m) => InsertEmitted(l.out, l.model, size, m);
      case Get(max) => DrainEmitted(l.out, l.model, size, max);
    }
  }

  /** For any interleaving of inserts and drains, all the output together is strictly increasing:
      no packet comes out twice or after a later one, even if some were lost or numbered twice. */
  lemma OutputAscends(size: nat, ops: seq<Op>)
    requires 0 < size < TWO32 && ClearRun(size, ops)
    ensures Ascending(Run(size, ops).out)
  {
    RunRefines(size, ops);
    ModelEmits(size, ops);
    var l := MRun(size, ops);
    assert forall i :: 0 <= i < |l.out| ==> (l.out + l.model.queue)[i] == l.out[i];
  }

  /** Clearness is needed: a packet exactly 2^32 behind looks like the next one expected, and comes
      out after a packet numbered above it. */
  lemma {:induction false} StalePacketDisorders()
    ensures var ops := [Put(Mbuf(TWO32, 0)), Get(1), Put(Mbuf(1, 1)), Get(1)];
            && (forall i :: 0 <= i < |ops| && ops[i].Put? ==> Stamped(ops[i].m))
            && Run(4, ops).out == [Mbuf(TWO32, 0), Mbuf(1, 1)]
            && !Ascending(Run(4, ops).out)
  {
    hide Run;
    var m, x := Mbuf(TWO32, 0), Mbuf(1, 1);
    var ops := [Put(m), Get(1), Put(x), Get(1)];
    assert [] + [Put(m)] == ops[..1] && ops[..1] + [Get(1)] == ops[..2];
    assert ops[..2] + [Put(x)] == ops[..3] && ops[..3] + [Get(1)] == ops;
    StaleRun(m, x, ops);
    assert [m, x][0].order > [m, x][1].order;
  }

  lemma StaleFirst(m: Mbuf, e: seq<Slot>)
    requires m == Mbuf(TWO32, 0) && e == Empties(4)
    ensures Insert(Fresh(4), m).0 == State(true, 0, e[0 := Some(m)], [])
    ensures Drain(State(true, 0, e[0 := Some(m)], []), 1) == (State(true, 1, e, []), [m])
  {
    var s := State(true, 0, e[0 := Some(m)], []);
    assert Shifted(s.window) == e;
    OneDrained(s, State(true, 1, e, []));
  }

  lemma StaleSecond(x: Mbuf, e: seq<Slot>)
    requires x == Mbuf(1, 1) && e == Empties(4)
    ensures Insert(State(true, 1, e, []), x).0 == State(true, 1, e[0 := Some(x)], [])
    ensures Drain(State(true, 1, e[0 := Some(x)], []), 1) == (State(true, 2, e, []), [x])
  {
    var s := State(true, 1, e[0 := Some(x)], []);
    assert Shifted(s.window) == e;
    OneDrained(s, State(true, 2, e, []));
  }

  lemma StaleRun(m: Mbuf, x: Mbuf, ops: seq<Op>)
    requires m == Mbuf(TWO32, 0) && x == Mbuf(1, 1) && ops == [Put(m), Get(1), Put(x), Get(1)]
    requires [] + [Put(m)] == ops[..1] && ops[..1] + [Get(1)] == ops[..2]
    requires ops[..2] + [Put(x)] == ops[..3] && ops[..3] + [Get(1)] == ops
    ensures Run(4, ops).out == [m, x]
  {
    hide Insert, Drain, Lost, Displaced, Empties;
    StaleFirst(m, Empties(4));
    StaleSecond(x, Empties(4));
    RunSnoc(4, [], Put(m));
    assert Run(4, ops[..1]).out == [];
    RunSnoc(4, ops[..1], Get(1));
    assert Run(4, ops[..2]).out == [m];
    RunSnoc(4, ops[..2], Put(x));
    assert Run(4, ops[..3]).out == [m];
    RunSnoc(4, ops[..3], Get(1));
  }

  lemma RunSnoc(size: nat, ops: seq<Op>, op: Op)
    requires 0 < size < TWO32 && Legal(op) && forall i :: 0 <= i < |ops| ==> Legal(ops[i])
    ensures Run(size, ops + [op]) == Step(Run(size, ops), op)
  {
    assert (ops + [op])[..|ops|] == ops;
  }

  lemma OneDrained(s: State, t: State)
    requires s.Valid() && s.ready == [] && s.window[0].Some?
    requires t == s.(window := Shifted(s.window), minSeqn := (s.minSeqn + 1) % TWO32)
    ensures Drain(s, 1) == (t, [s.window[0].value])
  {
    assert s.(ready := s.ready[0..]) == s;
    DrainStep(s, 1);
    DrainStep(t, 0);
    assert [s.window[0].value] + [] == [s.window[0].value];
    assert s.ready[..0] + DrainWindow(s, 1).1 == [s.window[0].value];
  }

  // ---- Nothing is written over when numbers are not reused ----

  function Orders(ops: seq<Op>): set<nat> {
    set i | 0 <= i < |ops| && ops[i].Put? :: ops[i].m.order
  }

  ghost predicate Distinct(ops: seq<Op>) {
    forall i, j :: 0 <= i < j < |ops| && ops[i].Put? && ops[j].Put? ==> ops[i].m.order != ops[j].m.order
  }

  lemma {:induction false} MDrainStoreKeys(a: Model, max: nat)
    ensures MDrainStore(a, max).0.store.Keys <= a.store.Keys
    decreases max
  {
    if max > 0 && a.base in a.store { MDrainStoreKeys(Slide(a, 1, a.queue), max - 1); }
  }

  lemma {:induction false} FiledWasPut(size: nat, ops: seq<Op>)
    requires 0 < size < TWO32
    ensures MRun(size, ops).model.store.Keys <= Orders(ops)
  {
    if ops != [] {
      var n := |ops| - 1;
      FiledWasPut(size, ops[..n]);
      assert Orders(ops[..n]) <= Orders(ops);
      var a := MRun(size, ops[..n]).model;
      match ops[n]
      case Put(m) =>
        assert m.order in Orders(ops);
        assert MInsert(a, size, m).0.store.Keys <= a.store.Keys + {m.order};
      case Get(max) =>
        MDrainStoreKeys(a.(queue := a.queue[Min(max, |a.queue|)..]), max - Min(max, |a.queue|));
    }
  }

  lemma UnfiledDisplacesNone(a: Model, size: nat, m: Mbuf)
    requires Good(a, size) && size < TWO32 && Stamped(m) && Clear(a, size, m) && m.order !in a.store
    ensures Displaced(Image(a, size), m) == multiset{}
  {
    BegunRefines(a, size, m);
    OffsetImage(MBegun(a, m), size, m);
  }

  lemma {:induction false} NothingDisplaced(size: nat, ops: seq<Op>)
    requires 0 < size < TWO32 && ClearRun(size, ops) && Distinct(ops)
    ensures Run(size, ops).displaced == multiset{}
  {
    hide Insert, Drain, Lost, MInsert, MDrain, Displaced, Image;
    if ops != [] {
      var n := |ops| - 1;
      NothingDisplaced(size, ops[..n]);
      RunRefines(size, ops[..n]);
      if ops[n].Put? {
        FiledWasPut(size, ops[..n]);
        assert ops[n].m.order !in Orders(ops[..n]);
        UnfiledDisplacesNone(MRun(size, ops[..n]).model, size, ops[n].m);
      }
    }
  }

  /** Seen before the insert: it moves the window, and the run it moves overruns the ready ring. */
  ghost predicate Overrunning(s: State, m: Mbuf)
    requires s.Valid()
  {
    var b := Begun(s, m);
    |b.window| <= Offset(b, m) < Reach(|b.window|) && Overruns(b, Offset(b, m) + 1 - |b.window|)
  }

  /** An insert loses a packet exactly when it is overrunning. */
  lemma LostIffOverruns(s: State, m: Mbuf)
    requires s.Valid() && m.seqn < TWO32 && |s.window| < TWO32
    ensures Lost(s, m) != multiset{} <==> Overrunning(s, m)
  {
    hide Overruns, Dropped;
    var b := Begun(s, m);
    if |b.window| <= Offset(b, m) < Reach(|b.window|) {
      var need := Offset(b, m) + 1 - |b.window|;
      OverflowConserves(b, need, Overflow(b, need).0, Overflow(b, need).1);
      assert Dropped(b, need) != [] ==> Dropped(b, need)[0] in multiset(Dropped(b, need));
    }
  }

  /** No insert of the run is overrunning when it comes. */
  ghost predicate SafeRun(size: nat, ops: seq<Op>)
    requires 0 < size < TWO32 && forall i :: 0 <= i < |ops| ==> Legal(ops[i])
  {
    ops != [] ==>
      var front, op := ops[..|ops| - 1], ops[|ops| - 1];
      SafeRun(size, front) && (op.Put? ==> !Overrunning(Run(size, front).state, op.m))
  }

  /** Over every run, whatever the numbers, nothing is lost by an overflow if and only if no insert is
      overrunning. */
  lemma {:induction false} NoneDroppedIffSafe(size: nat, ops: seq<Op>)
    requires 0 < size < TWO32 && forall i :: 0 <= i < |ops| ==> Legal(ops[i])
    ensures Run(size, ops).dropped == multiset{} <==> SafeRun(size, ops)
  {
    hide Insert, Drain, Lost, Displaced, Overrunning;
    if ops != [] {
      var front, op := ops[..|ops| - 1], ops[|ops| - 1];
      NoneDroppedIffSafe(size, front);
      if op.Put? {
        LostIffOverruns(Run(size, front).state, op.m);
        BothEmpty(Run(size, front).dropped, Lost(Run(size, front).state, op.m));
      }
    }
  }

  lemma BothEmpty(a: multiset<Mbuf>, b: multiset<Mbuf>)
    ensures a + b == multiset{} <==> a == multiset{} && b == multiset{}
  {
    assert |a + b| == |a| + |b|;
  }

  /** With numbers never reused, everything accepted is either out already or still inside, and nothing
      else is, if and only if no insert was overrunning. */
  lemma RunDelivers(size: nat, ops: seq<Op>)
    requires 0 < size < TWO32 && ClearRun(size, ops) && Distinct(ops)
    ensures var l := Run(size, ops);
            l.taken == multiset(l.out) + Inside(l.state) <==> SafeRun(size, ops)
  {
    hide Run, Inside, SafeRun, ClearRun, Distinct;
    RunConserves(size, ops);
    NothingDisplaced(size, ops);
    NoneDroppedIffSafe(size, ops);
    var l := Run(size, ops);
    var kept := multiset(l.out) + Inside(l.state);
    assert l.taken == kept + l.dropped;
    assert |l.taken| == |kept| + |l.dropped|;
  }
}
