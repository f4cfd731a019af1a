/** The reorder buffer as it is meant: packets filed under their unbounded number. The circular
    buffers and their 32-bit arithmetic are proved to behave like this. */
module ReorderModel {
  import opened Basics
  import opened Wrappers
  import opened ReorderSpec
  import opened ReorderOverflow

  /** The buffer without rings and without 32-bit numbers: what waits, by number, and the queue. */
  datatype Model = Model(started: bool, base: nat, store: map<nat, Mbuf>, queue: seq<Mbuf>)

  /** The application numbers packets by counting; the library sees the count's low 32 bits. */
  ghost predicate Stamped(m: Mbuf) {
    m.seqn == m.order % TWO32
  }

  function WindowOf(store: map<nat, Mbuf>, base: nat, size: nat): (w: seq<Slot>)
    ensures |w| == size
    ensures forall k :: 0 <= k < size ==> w[k] == if base + k in store then Some(store[base + k]) else None
  {
    seq(size, k requires 0 <= k < size => if base + k in store then Some(store[base + k]) else None)
  }

  /** The ring contents that stand for a model state. */
  function Image(a: Model, size: nat): State {
    State(a.started, a.base % TWO32, WindowOf(a.store, a.base, size), a.queue)
  }

  ghost predicate Ascending(s: seq<Mbuf>) {
    forall i, j :: 0 <= i < j < |s| ==> s[i].order < s[j].order
  }

  /** Packets are filed where their number says, inside the window, and everything queued is
      numbered below it, in order. */
  ghost predicate Good(a: Model, size: nat) {
    && size > 0 && |a.queue| < size
    && (!a.started ==> a.store == map[] && a.queue == [])
    && (forall q :: q in a.store ==> a.base <= q < a.base + size && a.store[q].order == q)
    && Ascending(a.queue)
    && (forall i :: 0 <= i < |a.queue| ==> a.queue[i].order < a.base)
  }

  /** How far ahead of the window's start the code still takes a packet. */
  function Span(size: nat): nat {
    if Reach(size) > size then Reach(size) else size
  }

  /** When the 32-bit comparison is right: the packet is truly inside the span, or its low 32 bits
      at least do not look as if it were. */
  predicate Clear(a: Model, size: nat, m: Mbuf) {
    !a.started || a.base <= m.order < a.base + Span(size) || (m.order - a.base) % TWO32 >= Span(size)
  }

  function MBegun(a: Model, m: Mbuf): Model {
    if a.started then a else a.(started := true, base := m.order)
  }

  /** Slide the window to a later start, leaving `queue` ready. */
  function Slide(a: Model, adv: nat, queue: seq<Mbuf>): Model {
    a.(base := a.base + adv, store := map q | q in a.store && a.base + adv <= q :: a.store[q], queue := queue)
  }

  /** The packets filed under base, base + 1, ... base + k - 1, in the order of their numbers. */
  function Filed(a: Model, k: nat): (p: seq<Mbuf>)
    ensures |p| <= k
  {
    if k == 0 then []
    else Filed(a, k - 1) + if a.base + k - 1 in a.store then [a.store[a.base + k - 1]] else []
  }

  /** Whether the overflow, asked for n numbers and having room for so many packets, goes past number
      base + k, having come so far: it has still to go and has room, or a packet is filed there, which
      it takes even if it is the first one there is no room for. */
  predicate Goes(a: Model, size: nat, n: nat, room: nat, k: nat) {
    && (k > 0 || room > 0) && k < size
    && ((k < n && |Filed(a, k)| < room) || (0 < k && a.base + k in a.store && |Filed(a, k)| <= room))
  }

  /** How many numbers it goes past. */
  function Distance(a: Model, size: nat, n: nat, room: nat, k: nat): (d: nat)
    requires k <= size
    ensures d <= size
    decreases size - k
  {
    if Goes(a, size, n, room, k) then Distance(a, size, n, room, k + 1) else k
  }

  /** The packets passed join the queue in order, as many as there is room for. */
  function MOverflow(a: Model, size: nat, n: nat): (r: (Model, nat))
    requires |a.queue| < size
    ensures |r.0.queue| < size
  {
    var room := size - 1 - |a.queue|;
    var d := Distance(a, size, n, room, 0);
    (Slide(a, d, a.queue + Filed(a, d)[..Min(|Filed(a, d)|, room)]), d)
  }

  function MInsert(a: Model, size: nat, m: Mbuf): (r: (Model, Verdict))
    requires 0 < size < TWO32 && |a.queue| < size
    ensures |r.0.queue| < size
  {
    var b := MBegun(a, m);
    if m.order < b.base || m.order >= b.base + Span(size) then (b, OutOfRange)
    else if m.order < b.base + size then (b.(store := b.store[m.order := m]), Stored)
    else
      var need := m.order - b.base + 1 - size;
      var moved := MOverflow(b, size, need);
      if moved.1 < need then (moved.0, NoSpace)
      else (moved.0.(store := moved.0.store[m.order := m]), Stored)
  }

  function MDrain(a: Model, max: nat): (r: (Model, seq<Mbuf>)) {
    var q := Min(max, |a.queue|);
    var rest := MDrainStore(a.(queue := a.queue[q..]), max - q);
    (rest.0, a.queue[..q] + rest.1)
  }

  /** The packets filed under base, base + 1, ... up to the first number missing. */
  function MDrainStore(a: Model, max: nat): (r: (Model, seq<Mbuf>))
    decreases max
  {
    if max == 0 || a.base !in a.store then (a, [])
    else
      var rest := MDrainStore(Slide(a, 1, a.queue), max - 1);
      (rest.0, [a.store[a.base]] + rest.1)
  }

  lemma SlideImage(a: Model, size: nat, adv: nat, queue: seq<Mbuf>)
    requires Good(a, size) && adv <= size
    ensures Image(Slide(a, adv, queue), size).window == Image(a, size).window[adv..] + Empties(adv)
    ensures Image(Slide(a, adv, queue), size).minSeqn == (Image(a, size).minSeqn + adv) % TWO32
  {
  }

  /** The low 32 bits of the distance. */
  lemma OffsetImage(a: Model, size: nat, m: Mbuf)
    requires Stamped(m)
    ensures Offset(Image(a, size), m) == (m.order - a.base) % TWO32
  {
  }

  /** The front of the window lists what is filed there. */
  lemma {:induction false} FiledIsPresent(a: Model, size: nat, k: nat)
    requires k <= size
    ensures Present(WindowOf(a.store, a.base, size)[..k]) == Filed(a, k)
    ensures Count(WindowOf(a.store, a.base, size), k) == |Filed(a, k)|
  {
    hide Present;
    var w := WindowOf(a.store, a.base, size);
    if k == 0 {
      assert w[..0] == [];
      PresentEmpties([]);
    } else {
      FiledIsPresent(a, size, k - 1);
      PresentSnoc(w, k - 1);
    }
  }

  /** It is in order, and its numbers are those passed. */
  lemma {:induction false} FiledAscends(a: Model, size: nat, k: nat)
    requires Good(a, size) && k <= size
    ensures Ascending(Filed(a, k)) && forall i :: 0 <= i < |Filed(a, k)| ==> a.base <= Filed(a, k)[i].order < a.base + k
  {
    if k > 0 { FiledAscends(a, size, k - 1); }
  }

  /** Where the model's overflow may stand: what it knows of the numbers it has passed. */
  ghost predicate Came(a: Model, n: nat, room: nat, k: nat) {
    && |Filed(a, k)| <= room + 1
    && (|Filed(a, k)| >= room ==> k > 0 && a.base + k - 1 in a.store)
    && (|Filed(a, k)| == room + 1 ==> k > 1 && a.base + k - 2 in a.store)
    && (forall q :: a.base + n <= q < a.base + k ==> q in a.store)
  }

  lemma CameStep(a: Model, size: nat, n: nat, room: nat, k: nat)
    requires room > 0 && Came(a, n, room, k) && Goes(a, size, n, room, k)
    ensures Came(a, n, room, k + 1)
  {
    assert Filed(a, k + 1) == Filed(a, k) + if a.base + k in a.store then [a.store[a.base + k]] else [];
  }

  lemma {:induction false} DistanceCame(a: Model, size: nat, n: nat, room: nat, k: nat)
    requires k <= size && room > 0 && Came(a, n, room, k)
    ensures var d := Distance(a, size, n, room, k); Came(a, n, room, d) && !Goes(a, size, n, room, d)
    decreases size - k
  {
    hide Came, Goes;
    if Goes(a, size, n, room, k) {
      assert k < size by { GoesInside(a, size, n, room, k); }
      CameStep(a, size, n, room, k);
      DistanceCame(a, size, n, room, k + 1);
    }
  }

  lemma GoesInside(a: Model, size: nat, n: nat, room: nat, k: nat)
    requires Goes(a, size, n, room, k)
    ensures k < size
  {
  }

  lemma CameStops(a: Model, size: nat, n: nat, d: nat)
    requires Good(a, size) && 0 < n <= size && d <= size && size - 1 - |a.queue| > 0
    requires Came(a, n, size - 1 - |a.queue|, d) && !Goes(a, size, n, size - 1 - |a.queue|, d)
    ensures Stops(Image(a, size), n, d)
  {
    hide Filed, Count;
    FiledIsPresent(a, size, d);
    FiledNone(a);
    var w := WindowOf(a.store, a.base, size);
    assert forall k :: n <= k < d ==> a.base + k in a.store && w[k].Some?;
  }

  /** The model's distance is a place where the overflow of the rings stops. */
  lemma DistanceStops(a: Model, size: nat, n: nat)
    requires Good(a, size) && 0 < n <= size
    ensures Stops(Image(a, size), n, Distance(a, size, n, size - 1 - |a.queue|, 0))
  {
    var room := size - 1 - |a.queue|;
    if room > 0 {
      FiledNone(a);
      assert Came(a, n, room, 0);
      hide Came, Goes;
      DistanceCame(a, size, n, room, 0);
      CameStops(a, size, n, Distance(a, size, n, room, 0));
    } else {
      assert !Goes(a, size, n, room, 0);
    }
  }

  lemma FiledNone(a: Model)
    ensures Filed(a, 0) == []
  {
  }

  /** Refinement of the overflow: the loops over the rings go as far as the model goes number by
      number, and queue what the model queues. */
  lemma OverflowRefines(a: Model, size: nat, n: nat)
    requires Good(a, size) && a.started && 0 < n <= size
    ensures var r := MOverflow(a, size, n);
            && Overflow(Image(a, size), n) == (Image(r.0, size), r.1)
            && r.1 <= size && Good(r.0, size) && r.0.started && r.0.base == a.base + r.1
            && |a.queue| <= |r.0.queue| && r.0.queue[..|a.queue|] == a.queue
            && forall i :: |a.queue| <= i < |r.0.queue| ==> a.base <= r.0.queue[i].order
  {
    hide Present, Filed, Distance, Overflow, Stops, Image, Count;
    ImageFields(a, size);
    var s, d := Image(a, size), Distance(a, size, n, size - 1 - |a.queue|, 0);
    DistanceStops(a, size, n);
    OverflowAt(s, n, d);
    FiledIsPresent(a, size, d);
    FiledAscends(a, size, d);
    var r := MOverflow(a, size, n).0;
    SlideImage(a, size, d, r.queue);
    ImageFields(r, size);
  }

  lemma ImageFields(a: Model, size: nat)
    requires Good(a, size)
    ensures var s := Image(a, size);
            && s.Valid() && s.started == a.started && s.ready == a.queue && s.window == WindowOf(a.store, a.base, size)
  {
  }

  lemma BegunRefines(a: Model, size: nat, m: Mbuf)
    requires Good(a, size) && Stamped(m)
    ensures Good(MBegun(a, m), size) && Begun(Image(a, size), m) == Image(MBegun(a, m), size)
  {
    assert !a.started ==> WindowOf(a.store, a.base, size) == WindowOf(a.store, m.order, size);
  }

  lemma StoreRefines(b: Model, size: nat, m: Mbuf)
    requires Good(b, size) && b.started && size < TWO32 && Stamped(m) && b.base <= m.order < b.base + size
    ensures Offset(Image(b, size), m) == m.order - b.base
    ensures Good(b.(store := b.store[m.order := m]), size)
    ensures Store(Image(b, size), m) == Image(b.(store := b.store[m.order := m]), size)
  {
    OffsetImage(b, size, m);
    assert Store(Image(b, size), m).window == WindowOf(b.store[m.order := m], b.base, size);
  }

  lemma AheadRefines(b: Model, size: nat, m: Mbuf)
    requires Good(b, size) && b.started && size < TWO32 && Stamped(m)
    requires b.base + size <= m.order < b.base + Span(size)
    ensures Offset(Image(b, size), m) == m.order - b.base
    ensures Good(MInsert(b, size, m).0, size)
    ensures InsertAhead(Image(b, size), m) == (Image(MInsert(b, size, m).0, size), MInsert(b, size, m).1)
  {
    hide Overflow, WindowOf, MOverflow;
    OffsetImage(b, size, m);
    var need := m.order - b.base + 1 - size;
    OverflowRefines(b, size, need);
    var r := MOverflow(b, size, need);
    if r.1 >= need { StoreRefines(r.0, size, m); }
  }

  /** The 32-bit buffer does to its rings what the model does to its map, for every packet for which
      the 32-bit comparison is right. */
  lemma InsertRefines(a: Model, size: nat, m: Mbuf)
    requires Good(a, size) && size < TWO32 && Stamped(m) && Clear(a, size, m)
    ensures Good(MInsert(a, size, m).0, size)
    ensures Insert(Image(a, size), m) == (Image(MInsert(a, size, m).0, size), MInsert(a, size, m).1)
  {
    hide InsertAhead, WindowOf, Overflow;
    var b := MBegun(a, m);
    BegunRefines(a, size, m);
    OffsetImage(b, size, m);
    if b.base <= m.order < b.base + size {
      StoreRefines(b, size, m);
    } else if b.base + size <= m.order < b.base + Span(size) {
      AheadRefines(b, size, m);
    }
  }

  /** The table's third row for unbounded numbers. */
  lemma ModelFarRow(a: Model, size: nat, m: Mbuf)
    requires 0 < size < TWO32 && |a.queue| < size
    ensures var d := m.order - a.base;
            && (MInsert(a, size, m).1 == OutOfRange <==>
                  a.started && (d < 0 || (d >= size && d >= (2 * size) % 0x1_0000_0000)))
            && (2 * size < 0x1_0000_0000 ==>
                  (MInsert(a, size, m).1 == OutOfRange <==> a.started && !(0 <= d < 2 * size)))
  {
    hide MOverflow;
  }

  /** And for no other packet: outside the clear range the code takes a packet for a new one that
      the model turns away. */
  lemma {:induction false} ClearIsExact(a: Model, size: nat, m: Mbuf)
    requires Good(a, size) && size < TWO32 && Stamped(m)
    ensures Clear(a, size, m) <==> Insert(Image(a, size), m).1 == MInsert(a, size, m).1
  {
    if Clear(a, size, m) {
      InsertRefines(a, size, m);
    } else {
      OffsetImage(a, size, m);
    }
  }

  /** Packets behind the window by no more than 2^32 less the span, or ahead of it by less than
      2^32, are clear; those behind are turned away. */
  lemma NearIsClear(a: Model, size: nat, m: Mbuf)
    requires Good(a, size) && a.started && Stamped(m) && size < TWO32
    requires a.base + Span(size) <= m.order + TWO32 && m.order < a.base + TWO32
    ensures Clear(a, size, m)
    ensures m.order < a.base ==> Insert(Image(a, size), m) == (Image(a, size), OutOfRange)
  {
    if m.order < a.base { OffsetImage(a, size, m); }
  }

  lemma {:induction false} DrainStoreRefines(a: Model, size: nat, max: nat)
    requires Good(a, size)
    ensures Good(MDrainStore(a, max).0, size)
    ensures DrainWindow(Image(a, size), max) == (Image(MDrainStore(a, max).0, size), MDrainStore(a, max).1)
    decreases max
  {
    hide DrainWindow, WindowOf;
    DrainStep(Image(a, size), max);
    if max > 0 && a.base in a.store {
      SlideImage(a, size, 1, a.queue);
      assert Image(Slide(a, 1, a.queue), size).window == Shifted(Image(a, size).window);
      DrainStoreRefines(Slide(a, 1, a.queue), size, max - 1);
    }
  }

  lemma DrainRefines(a: Model, size: nat, max: nat)
    requires Good(a, size)
    ensures Good(MDrain(a, max).0, size)
    ensures Drain(Image(a, size), max) == (Image(MDrain(a, max).0, size), MDrain(a, max).1)
  {
    hide DrainWindow, MDrainStore, WindowOf;
    var q := Min(max, |a.queue|);
    DrainStoreRefines(a.(queue := a.queue[q..]), size, max - q);
  }
}
