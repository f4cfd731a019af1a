/** The driver programs: insert every arrival, free what is refused, then drain until a drain
    returns nothing. */
module ReorderDriver {
  import opened Basics
  import opened Wrappers
  import opened Bits
  import opened ReorderSpec
  import opened ReorderOverflow
  import opened ReorderRuns
  import opened ReorderBuffer

  /** What a drain emits, without its loops: the queue first, then the run at the window's front. */
  lemma DrainShape(s: State, max: nat)
    requires s.Valid()
    ensures var q := Min(max, |s.ready|);
            var k := Min(max - q, RunLen(s.window));
            && Drain(s, max).1 == s.ready[..q] + Present(s.window[..k])
            && Drain(s, max).0 == s.(ready := s.ready[q..], window := s.window[k..] + Empties(k),
                                     minSeqn := (s.minSeqn + k) % TWO32)
  {
    hide DrainWindow, Present;
    var q := Min(max, |s.ready|);
    DrainWindowShape(s.(ready := s.ready[q..]), max - q);
  }

  /** k packets taken from the front of the window. */
  ghost predicate FrontTaken(s: State, k: nat, t: State, out: seq<Mbuf>)
    requires s.Valid() && k <= |s.window|
  {
    && out == Present(s.window[..k])
    && t == s.(window := s.window[k..] + Empties(k), minSeqn := (s.minSeqn + k) % TWO32)
  }

  lemma FrontTakenOnce(s: State, k: nat, t: State, out: seq<Mbuf>)
    requires s.Valid() && s.window[0].Some? && k < |s.window|
    requires FrontTaken(s.(window := Shifted(s.window), minSeqn := (s.minSeqn + 1) % TWO32), k, t, out)
    ensures FrontTaken(s, k + 1, t, [s.window[0].value] + out)
  {
    hide Shifted, Present, Empties;
    ShiftedOnce(s.window, k);
    CountOn(s.minSeqn, k);
  }

  lemma {:induction false} DrainWindowShape(s: State, max: nat)
    requires s.Valid()
    ensures FrontTaken(s, Min(max, RunLen(s.window)), DrainWindow(s, max).0, DrainWindow(s, max).1)
    decreases max
  {
    hide DrainWindow, RunLen, Present, Empties, Min;
    DrainStep(s, max);
    RunFront(s.window);
    MinLess(max, RunLen(s.window));
    if max > 0 && s.window[0].Some? {
      hide FrontTaken;
      var t := s.(window := Shifted(s.window), minSeqn := (s.minSeqn + 1) % TWO32);
      DrainWindowShape(t, max - 1);
      ShiftedRun(s.window);
      var k := Min(max - 1, RunLen(s.window) - 1);
      FrontTakenOnce(s, k, DrainWindow(t, max - 1).0, DrainWindow(t, max - 1).1);
    } else {
      NoneTaken(s);
    }
  }

  lemma MinLess(a: nat, b: nat)
    ensures if a > 0 && b > 0 then Min(a - 1, b - 1) < b && Min(a, b) == Min(a - 1, b - 1) + 1 else Min(a, b) == 0
  {
  }

  lemma CountOn(first: nat, k: nat)
    ensures ((first + 1) % TWO32 + k) % TWO32 == (first + (k + 1)) % TWO32
  {
  }

  lemma NoneTaken(s: State)
    requires s.Valid()
    ensures Present(s.window[..0]) == [] && s.window[0..] + Empties(0) == s.window
    ensures (s.minSeqn + 0) % TWO32 == s.minSeqn
  {
    assert s.window[..0] == [];
  }

  /** Taking the front packet and then k more is taking k + 1. */
  lemma ShiftedOnce(w: seq<Slot>, k: nat)
    requires 0 < |w| && w[0].Some? && k < |w|
    ensures RunLen(Shifted(w)) == RunLen(w) - 1
    ensures Present(w[..k + 1]) == [w[0].value] + Present(Shifted(w)[..k])
    ensures Shifted(w)[k..] + Empties(k) == w[k + 1..] + Empties(k + 1)
  {
    hide Shifted, RunLen, Present;
    ShiftedRun(w);
    ShiftedPresent(w, k);
    assert Shifted(w)[k..] + Empties(k) == w[k + 1..] + Empties(k + 1) by { ShiftedRest(w, k); }
  }

  lemma ShiftedRest(w: seq<Slot>, k: nat)
    requires k < |w|
    ensures Shifted(w)[k..] + Empties(k) == w[k + 1..] + Empties(k + 1)
  {
    var l, r := Shifted(w)[k..] + Empties(k), w[k + 1..] + Empties(k + 1);
    assert |l| == |r| && forall i :: 0 <= i < |l| ==> l[i] == r[i];
  }

  lemma ShiftedRun(w: seq<Slot>)
    requires 0 < |w| && w[0].Some?
    ensures RunLen(Shifted(w)) == RunLen(w) - 1
  {
    RunUnique(Shifted(w), RunLen(w) - 1);
  }

  lemma ShiftedPresent(w: seq<Slot>, k: nat)
    requires 0 < |w| && w[0].Some? && k < |w|
    ensures Present(w[..k + 1]) == [w[0].value] + Present(Shifted(w)[..k])
  {
    assert w[..k + 1][1..] == Shifted(w)[..k];
  }

  function Held(s: State): nat {
    |s.ready| + |Present(s.window)|
  }

  lemma DrainShrinks(s: State, max: nat)
    requires s.Valid()
    ensures Held(Drain(s, max).0) + |Drain(s, max).1| == Held(s)
  {
    hide Drain, Present;
    DrainConserves(s, max);
    var d := Drain(s, max);
    assert |Inside(d.0) + multiset(d.1)| == |Inside(s)|;
  }

  /** The drain loop: whatever comes out until a drain of up to `burst` returns nothing. */
  function DrainAll(s: State, burst: nat): (r: (State, seq<Mbuf>))
    requires s.Valid()
    ensures r.0.Valid()
    decreases Held(s)
  {
    if Drain(s, burst).1 == [] then (Drain(s, burst).0, [])
    else
      DrainShrinks(s, burst);
      (DrainAll(Drain(s, burst).0, burst).0, Drain(s, burst).1 + DrainAll(Drain(s, burst).0, burst).1)
  }

  /** For any buffer and any burst, the loop ends with the ready ring empty and the window's first
      slot empty, having emitted the queue and then the run of consecutive packets. */
  lemma {:induction false} DrainAllMeaning(s: State, burst: nat)
    requires s.Valid() && burst > 0
    ensures DrainAll(s, burst).1 == s.ready + Present(s.window[..RunLen(s.window)])
    ensures DrainAll(s, burst).0.ready == [] && DrainAll(s, burst).0.window[0].None?
    decreases Held(s)
  {
    hide Drain, Present, RunLen;
    DrainShape(s, burst);
    var q := Min(burst, |s.ready|);
    var run := RunLen(s.window);
    var k := Min(burst - q, run);
    RunFront(s.window);
    if Drain(s, burst).1 == [] {
      PresentFull(s.window[..k]);
      assert s.window[..0] == [] && Present([]) == [];
    } else {
      DrainShrinks(s, burst);
      DrainAllMeaning(Drain(s, burst).0, burst);
      RunRest(s.window, k);
      AllOut(s.ready, s.window, q, k, run);
    }
  }

  /** What one drain takes and what the others take make the queue and the run. */
  lemma AllOut(ready: seq<Mbuf>, w: seq<Slot>, q: nat, k: nat, run: nat)
    requires q <= |ready| && k <= run <= |w| && (k > 0 ==> q == |ready|)
    ensures var rest := w[k..] + Empties(k);
            (ready[..q] + Present(w[..k])) + (ready[q..] + Present(rest[..run - k])) == ready + Present(w[..run])
  {
    hide Present;
    var rest := w[k..] + Empties(k);
    if k > 0 {
      PresentConcat(w[..k], rest[..run - k]);
      assert w[..k] + rest[..run - k] == w[..run];
    } else {
      PresentEmpties([]);
      assert w[..0] == [] && rest == w;
    }
  }

  lemma RunFront(w: seq<Slot>)
    requires 0 < |w|
    ensures RunLen(w) == 0 <==> w[0].None?
    ensures RunLen(w) <= |w| && forall i :: 0 <= i < RunLen(w) ==> w[i].Some?
  {
  }

  lemma RunRest(w: seq<Slot>, k: nat)
    requires k <= RunLen(w)
    ensures RunLen(w[k..] + Empties(k)) == RunLen(w) - k
  {
    RunUnique(w[k..] + Empties(k), RunLen(w) - k);
  }

  // ---- A permutation of consecutive packets comes out sorted ----

  function Puts(arrivals: seq<Mbuf>): (ops: seq<Op>)
    ensures |ops| == |arrivals|
    ensures forall i :: 0 <= i < |arrivals| ==> ops[i] == Put(arrivals[i])
  {
    seq(|arrivals|, i requires 0 <= i < |arrivals| => Put(arrivals[i]))
  }

  /** `sorted` carries consecutive sequence numbers, with 32-bit wrap-around, from its first one. */
  ghost predicate Consecutive(sorted: seq<Mbuf>) {
    sorted != [] ==>
      && sorted[0].seqn < TWO32
      && forall i :: 0 <= i < |sorted| ==> sorted[i].seqn == (sorted[0].seqn + i) % TWO32
  }

  /** The window once some of the consecutive packets have arrived. */
  function Partial(sorted: seq<Mbuf>, size: nat, came: seq<Mbuf>): (w: seq<Slot>)
    ensures |w| == size
    ensures forall i :: 0 <= i < size ==> w[i] == if i < |sorted| && sorted[i] in came then Some(sorted[i]) else None
  {
    seq(size, i requires 0 <= i < size => if i < |sorted| && sorted[i] in came then Some(sorted[i]) else None)
  }

  lemma {:induction false} ArrivalsFill(sorted: seq<Mbuf>, size: nat, came: seq<Mbuf>)
    requires 0 < |sorted| <= size < TWO32 && Consecutive(sorted)
    requires 0 < |came| && came[0] == sorted[0] && forall m :: m in came ==> m in sorted
    ensures forall i :: 0 <= i < |came| ==> Legal(Puts(came)[i])
    ensures Run(size, Puts(came)).state == State(true, sorted[0].seqn, Partial(sorted, size, came), [])
    ensures Run(size, Puts(came)).verdicts == seq(|came|, _ => Stored)
  {
    hide Drain, Lost, Displaced, Insert, Run, Partial;
    var n := |came| - 1;
    assert Run(size, Puts([])).state == Fresh(size) && Run(size, Puts([])).verdicts == [] by { RunNone(size); }
    var before := if n == 0 then Fresh(size) else State(true, sorted[0].seqn, Partial(sorted, size, came[..n]), []);
    assert came[n] in came && forall i :: 0 <= i < n ==> came[..n][i] in came;
    if n > 0 {
      ArrivalsFill(sorted, size, came[..n]);
    } else {
      assert came[..n] == [];
    }
    assert Run(size, Puts(came[..n])).state == before;
    var i :| 0 <= i < |sorted| && sorted[i] == came[n];
    ArrivalStored(sorted, size, came, before, if n == 0 then 0 else i);
    assert Puts(came) == Puts(came[..n]) + [Put(came[n])];
    RunSnoc(size, Puts(came[..n]), Put(came[n]));
    assert seq(|came|, _ => Stored) == seq(n, _ => Stored) + [Stored];
  }

  lemma RunNone(size: nat)
    requires 0 < size < TWO32
    ensures Run(size, Puts([])).state == Fresh(size) && Run(size, Puts([])).verdicts == []
    ensures Run(size, Puts([])).dropped == multiset{}
  {
  }

  lemma ArrivalStored(sorted: seq<Mbuf>, size: nat, came: seq<Mbuf>, before: State, i: nat)
    requires 0 < |sorted| <= size < TWO32 && Consecutive(sorted) && i < |sorted|
    requires 0 < |came| && came[|came| - 1] == sorted[i] && (|came| == 1 ==> i == 0)
    requires before == if |came| == 1 then Fresh(size)
                       else State(true, sorted[0].seqn, Partial(sorted, size, came[..|came| - 1]), [])
    ensures before.Valid()
    ensures Insert(before, sorted[i]) == (State(true, sorted[0].seqn, Partial(sorted, size, came), []), Stored)
  {
    hide InsertAhead;
    var m, n := sorted[i], |came| - 1;
    assert came == came[..n] + [m];
    var b := Begun(before, m);
    assert Offset(b, m) == i by { NumbersApart(sorted[0].seqn, 0, i); }
    forall j | 0 <= j < size ensures b.window[i := Some(m)][j] == Partial(sorted, size, came)[j] {
      if j < |sorted| {
        assert sorted[j] in came <==> sorted[j] in came[..n] || sorted[j] == m;
        NumbersApart(sorted[0].seqn, i, j);
      }
    }
    assert b.window[i := Some(m)] == Partial(sorted, size, came);
  }

  /** Distinct places less than 2^32 apart carry distinct 32-bit numbers. */
  lemma NumbersApart(first: nat, i: nat, j: nat)
    requires first < TWO32 && i < TWO32 && j < TWO32
    ensures (first + i) % TWO32 == (first + j) % TWO32 <==> i == j
    ensures ((first + j) % TWO32 - first) % TWO32 == j
  {
  }

  /** `arrivals` is an order in which the packets of `sorted` may come, its first packet first. */
  ghost predicate Shuffles(arrivals: seq<Mbuf>, sorted: seq<Mbuf>) {
    && Consecutive(sorted) && multiset(arrivals) == multiset(sorted)
    && (sorted != [] ==> arrivals != [] && arrivals[0] == sorted[0])
  }

  /** End to end: any arrival order of up to a window's worth of consecutive packets that starts
      with the first is stored whole, and the drain loop emits it sorted. */
  lemma ShuffleComesOutSorted(arrivals: seq<Mbuf>, sorted: seq<Mbuf>, size: nat, burst: nat)
    requires Shuffles(arrivals, sorted) && 0 < |sorted| <= size < TWO32 && burst > 0
    ensures forall i :: 0 <= i < |arrivals| ==> Legal(Puts(arrivals)[i])
    ensures var l := Run(size, Puts(arrivals));
            l.verdicts == seq(|arrivals|, _ => Stored) && DrainAll(l.state, burst).1 == sorted
  {
    hide DrainAll, Run;
    forall m ensures m in arrivals <==> m in sorted {
      assert m in multiset(arrivals) <==> m in multiset(sorted);
    }
    ArrivalsFill(sorted, size, arrivals);
    var s := Run(size, Puts(arrivals)).state;
    DrainAllMeaning(s, burst);
    RunUnique(s.window, |sorted|);
    PresentFull(s.window[..|sorted|]);
    assert Present(s.window[..|sorted|]) == sorted;
    assert [] + sorted == sorted;
  }

  // ---- One packet more than a window, and the overflow loses one ----

  /** A full window of packets, none drained. */
  ghost predicate Brimful(s: State, sorted: seq<Mbuf>) {
    && s.Valid() && s.started && s.ready == [] && |s.window| == |sorted| >= 2
    && (forall i :: 0 <= i < |sorted| ==> s.window[i] == Some(sorted[i]))
  }

  lemma BrimfulStops(s: State, sorted: seq<Mbuf>)
    requires Brimful(s, sorted)
    ensures s.Valid() && s.ready == [] && |s.window| == |sorted| >= 2 && s.Free() == |sorted| - 1
    ensures s.window[|sorted|..] == [] && s.window[..|sorted|] == s.window
    ensures Present(s.window) == sorted && Count(s.window, |sorted|) == |sorted| && Stops(s, 1, |sorted|)
  {
    PresentFull(s.window);
    hide Present;
    assert s.window[..|sorted|] == s.window;
    assert Late(s, 1, |sorted|);
  }

  /** Moving a full window on by one moves it on by its whole length. */
  lemma BrimfulOverflow(s: State, sorted: seq<Mbuf>)
    requires Brimful(s, sorted)
    ensures var t, size := Overflow(s, 1), |sorted|;
            && t.1 == size && t.0.window == Empties(size) && t.0.ready == sorted[..size - 1]
            && t.0.minSeqn == (s.minSeqn + size) % TWO32
  {
    BrimfulStops(s, sorted);
    hide Brimful, Overflow, Stops, Present, Count, Empties;
    var size := |sorted|;
    OverflowAt(s, 1, size);
    assert [] + Empties(size) == Empties(size) && [] + sorted[..size - 1] == sorted[..size - 1];
  }

  /** The last packet is lost. */
  lemma BrimfulDrops(s: State, sorted: seq<Mbuf>)
    requires Brimful(s, sorted)
    ensures Dropped(s, 1) == [sorted[|sorted| - 1]]
  {
    BrimfulStops(s, sorted);
    BrimfulOverflow(s, sorted);
    hide Overflow, Stops, Present;
    assert s.window[..|sorted|] == s.window;
  }

  /** The next packet in order is stored, and pushes the last one of the window out for good. */
  lemma BrimfulInsert(s: State, sorted: seq<Mbuf>, m: Mbuf)
    requires Brimful(s, sorted) && |sorted| < TWO32 / 2 && m.seqn < TWO32 && Offset(s, m) == |sorted|
    ensures var t, size := Insert(s, m), |sorted|;
            && t.1 == Stored && t.0.ready == sorted[..size - 1] && t.0.window == Empties(size)[0 := Some(m)]
            && Lost(s, m) == multiset{sorted[size - 1]}
  {
    hide Overflow, Dropped;
    BrimfulOverflow(s, sorted);
    BrimfulDrops(s, sorted);
    ShiftedOffset(m.seqn, s.minSeqn, |sorted|);
  }

  /** The window's length is a sharp bound, for every size: a window's worth of packets already in
      order and one packet more are all accepted, yet the last packet of the window is lost by the
      overflow and never comes out. */
  lemma OneMoreLosesLast(sorted: seq<Mbuf>, m: Mbuf, burst: nat)
    requires 2 <= |sorted| < TWO32 / 2 && Consecutive(sorted + [m]) && burst > 0
    ensures forall i :: 0 <= i <= |sorted| ==> Legal(Puts(sorted + [m])[i])
    ensures var size := |sorted|;
            var l := Run(size, Puts(sorted + [m]));
            && l.verdicts == seq(size + 1, _ => Stored)
            && l.dropped == multiset{sorted[size - 1]}
            && DrainAll(l.state, burst).1 == sorted[..size - 1] + [m]
  {
    hide Run, DrainAll, Insert, Lost, Displaced, Partial;
    var size, all := |sorted|, sorted + [m];
    assert forall i :: 0 <= i < size ==> all[i] == sorted[i];
    assert all[0] == sorted[0] && all[size] == m;
    ArrivalsFill(sorted, size, sorted);
    NoneLostYet(sorted, size, sorted);
    var l := Run(size, Puts(sorted));
    NumbersApart(sorted[0].seqn, 0, size);
    BrimfulInsert(l.state, sorted, m);
    RunSnoc(size, Puts(sorted), Put(m));
    assert Puts(all) == Puts(sorted) + [Put(m)];
    var s := Run(size, Puts(all)).state;
    DrainAllMeaning(s, burst);
    RunUnique(s.window, 1);
    assert s.window[..1] == [Some(m)];
    PresentFull([Some(m)]);
    assert Present([Some(m)]) == [m];
    assert seq(size + 1, _ => Stored) == seq(size, _ => Stored) + [Stored];
  }

  lemma InsideLosesNothing(s: State, m: Mbuf)
    requires s.Valid() && m.seqn < TWO32 && |s.window| < TWO32 && Offset(Begun(s, m), m) < |s.window|
    ensures Lost(s, m) == multiset{}
  {
  }

  lemma InsideFirst(sorted: seq<Mbuf>, m: Mbuf, s: State)
    requires 0 < |sorted| < TWO32 && Consecutive(sorted) && m in sorted
    requires if s.started then s.minSeqn == sorted[0].seqn else m == sorted[0]
    ensures Offset(Begun(s, m), m) < |sorted|
  {
    var i :| 0 <= i < |sorted| && sorted[i] == m;
    NumbersApart(sorted[0].seqn, 0, i);
  }

  /** Packets that arrive inside the window lose nothing. */
  lemma {:induction false} NoneLostYet(sorted: seq<Mbuf>, size: nat, came: seq<Mbuf>)
    requires 0 < |sorted| <= size < TWO32 && Consecutive(sorted)
    requires 0 < |came| && came[0] == sorted[0] && forall m :: m in came ==> m in sorted
    ensures forall i :: 0 <= i < |came| ==> Legal(Puts(came)[i])
    ensures Run(size, Puts(came)).dropped == multiset{}
  {
    hide Insert, Displaced, Partial, Run, Lost;
    var n := |came| - 1;
    assert forall i :: 0 <= i < |came| ==> came[i] in came && came[i] in sorted;
    assert Puts(came) == Puts(came[..n]) + [Put(came[n])];
    if n > 0 {
      ArrivalsFill(sorted, size, came[..n]);
      NoneLostYet(sorted, size, came[..n]);
    } else {
      assert Puts(came[..n]) == Puts([]);
      RunNone(size);
    }
    var s := Run(size, Puts(came[..n])).state;
    hide Consecutive;
    InsideFirst(sorted, came[n], s);
    InsideLosesNothing(s, came[n]);
    RunSnoc(size, Puts(came[..n]), Put(came[n]));
  }

  function Refused(arrivals: seq<Mbuf>, verdicts: seq<Verdict>): seq<Mbuf>
    requires |verdicts| == |arrivals|
  {
    if arrivals == [] then []
    else
      var n := |arrivals| - 1;
      Refused(arrivals[..n], verdicts[..n]) + if verdicts[n] == Stored then [] else [arrivals[n]]
  }

  /** They are exactly the packets not stored, in order of arrival. */
  lemma {:induction false} RefusedSelects(arrivals: seq<Mbuf>, verdicts: seq<Verdict>) returns (idx: seq<nat>)
    requires |verdicts| == |arrivals|
    ensures Selects(arrivals, Refused(arrivals, verdicts), idx)
    ensures forall i :: 0 <= i < |arrivals| ==> (i in idx <==> verdicts[i] != Stored)
  {
    if arrivals == [] {
      idx := [];
    } else {
      var n := |arrivals| - 1;
      idx := RefusedSelects(arrivals[..n], verdicts[..n]);
      var f := Refused(arrivals[..n], verdicts[..n]);
      SelectsMore(arrivals[..n], f, idx, arrivals[n]);
      assert arrivals[..n] + [arrivals[n]] == arrivals && f + [] == f;
      assert forall i :: 0 <= i < n ==> (i in idx <==> verdicts[..n][i] != Stored);
      if verdicts[n] != Stored { idx := idx + [n]; }
    }
  }

  lemma {:induction false} VerdictPerPut(size: nat, arrivals: seq<Mbuf>)
    requires 0 < size < TWO32 && forall m :: m in arrivals ==> m.seqn < TWO32
    ensures forall i :: 0 <= i < |arrivals| ==> Legal(Puts(arrivals)[i])
    ensures |Run(size, Puts(arrivals)).verdicts| == |arrivals|
    ensures arrivals != [] ==>
              var n := |arrivals| - 1;
              && (forall i :: 0 <= i < n ==> Legal(Puts(arrivals[..n])[i]))
              && Run(size, Puts(arrivals)) == Step(Run(size, Puts(arrivals[..n])), Put(arrivals[n]))
  {
    hide Insert, Drain, Lost, Displaced;
    if arrivals != [] {
      var n := |arrivals| - 1;
      VerdictPerPut(size, arrivals[..n]);
      assert Puts(arrivals) == Puts(arrivals[..n]) + [Put(arrivals[n])];
      RunSnoc(size, Puts(arrivals[..n]), Put(arrivals[n]));
    }
  }

  lemma RefusedNone()
    ensures Refused([], []) == []
  {
  }

  lemma RefusedSnoc(arrivals: seq<Mbuf>, i: nat, said: seq<Verdict>, v: Verdict)
    requires |said| == i < |arrivals|
    ensures Refused(arrivals[..i + 1], said + [v]) ==
            Refused(arrivals[..i], said) + if v == Stored then [] else [arrivals[i]]
  {
    assert arrivals[..i + 1][..i] == arrivals[..i] && (said + [v])[..i] == said;
  }

  /** The insert loop: offer every arrival, free the ones the buffer refuses. */
  method InsertAll(b: Buffer, arrivals: seq<Mbuf>) returns (freed: seq<Mbuf>, ghost idx: seq<nat>)
    requires b.Valid() && b.view == Fresh(b.orderBuf.size)
    requires forall m :: m in arrivals ==> m.seqn < TWO32
    modifies b.Repr()
    ensures b.Valid() && |b.view.window| == b.orderBuf.size
    ensures forall i :: 0 <= i < |arrivals| ==> Legal(Puts(arrivals)[i])
    ensures var l := Run(b.orderBuf.size, Puts(arrivals));
            && b.view == l.state && |l.verdicts| == |arrivals| && freed == Refused(arrivals, l.verdicts)
            && Selects(arrivals, freed, idx)
            && forall i :: 0 <= i < |arrivals| ==> (i in idx <==> l.verdicts[i] != Stored)
  {
    hide Insert, Drain, Lost, Displaced, Run, Refused, ReorderBuffer.Buffer.Mirrors;
    var size := b.orderBuf.size;
    freed := [];
    VerdictPerPut(size, arrivals[..0]);
    RunNone(size);
    assert Refused(arrivals[..0], []) == [] by { RefusedNone(); }
    for i := 0 to |arrivals|
      invariant b.Valid() && b.orderBuf.size == size
      invariant forall j :: 0 <= j < i ==> Legal(Puts(arrivals[..i])[j])
      invariant var l := Run(size, Puts(arrivals[..i]));
                b.view == l.state && |l.verdicts| == i && freed == Refused(arrivals[..i], l.verdicts)
    {
      ghost var l := Run(size, Puts(arrivals[..i]));
      assert arrivals[..i + 1][..i] == arrivals[..i];
      VerdictPerPut(size, arrivals[..i + 1]);
      var v := b.InsertPacket(arrivals[i]);
      if v != Stored {
        freed := freed + [arrivals[i]];
      }
      RefusedSnoc(arrivals, i, l.verdicts, v);
    }
    assert arrivals[..|arrivals|] == arrivals;
    idx := RefusedSelects(arrivals, Run(size, Puts(arrivals)).verdicts);
  }

  /** The drain loop, collecting the packets it prints and frees. */
  method DrainLoop(b: Buffer, burst: nat) returns (emitted: seq<Mbuf>)
    requires b.Valid() && burst > 0
    modifies b.Repr()
    ensures b.Valid() && (b.view, emitted) == DrainAll(old(b.view), burst)
  {
    hide Drain, ReorderBuffer.Buffer.Mirrors;
    ghost var s := b.view;
    emitted := [];
    var mbufs := new Mbuf[burst](_ => Mbuf(0, 0));
    while true
      invariant b.Valid() && fresh(mbufs)
      invariant DrainAll(s, burst).0 == DrainAll(b.view, burst).0
      invariant DrainAll(s, burst).1 == emitted + DrainAll(b.view, burst).1
      decreases Held(b.view)
    {
      DrainShrinks(b.view, burst);
      var nb := b.DrainInto(mbufs, burst);
      if nb == 0 {
        assert emitted + [] == emitted && (b.view, emitted) == DrainAll(s, burst);
        break;
      }
      emitted := emitted + mbufs[..nb];
    }
  }

  /** The whole program: whatever the arrivals, it emits exactly the queue and the leading run of
      the buffer it filled; a shuffled stretch of consecutive packets comes out sorted. */
  method Resequence(size: nat, burst: nat, arrivals: seq<Mbuf>)
    returns (emitted: seq<Mbuf>, freed: seq<Mbuf>, ghost idx: seq<nat>)
    requires 0 < size < TWO32 && IsPow2(size) && burst > 0
    requires forall m :: m in arrivals ==> m.seqn < TWO32
    ensures forall i :: 0 <= i < |arrivals| ==> Legal(Puts(arrivals)[i])
    ensures var s := Run(size, Puts(arrivals)).state;
            emitted == s.ready + Present(s.window[..RunLen(s.window)])
    ensures var l := Run(size, Puts(arrivals));
            && |l.verdicts| == |arrivals| && Selects(arrivals, freed, idx)
            && forall i :: 0 <= i < |arrivals| ==> (i in idx <==> l.verdicts[i] != Stored)
    ensures forall sorted :: Shuffles(arrivals, sorted) && 0 < |sorted| <= size ==> emitted == sorted && freed == []
  {
    hide Drain, ReorderBuffer.Buffer.Mirrors;
    var b := new Buffer(size);
    freed, idx := InsertAll(b, arrivals);
    DrainAllMeaning(b.view, burst);
    emitted := DrainLoop(b, burst);
    forall sorted | Shuffles(arrivals, sorted) && 0 < |sorted| <= size ensures emitted == sorted && freed == [] {
      ShuffleComesOutSorted(arrivals, sorted, size, burst);
      NoneRefused(arrivals);
    }
  }

  lemma {:induction false} NoneRefused(arrivals: seq<Mbuf>)
    ensures Refused(arrivals, seq(|arrivals|, _ => Stored)) == []
  {
    if arrivals != [] {
      var n := |arrivals| - 1;
      NoneRefused(arrivals[..n]);
      assert seq(n + 1, _ => Stored)[..n] == seq(n, _ => Stored);
    }
  }
}
