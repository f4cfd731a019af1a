/** The reorder buffer as the library keeps it: two circular arrays updated in place. Every method
    is proved to do to the buffer's value what ReorderSpec says. */
module ReorderBuffer {
  import opened Basics
  import opened Wrappers
  import opened Bits
  import opened Rings
  import opened ReorderSpec

  class CirBuffer {
    const entries: array<Slot>
    const size: nat
    const mask: nat
    var head: nat
    var tail: nat

    ghost predicate Valid()
      reads this
    {
      && IsPow2(size) && size > 0 && mask == size - 1 && entries.Length == size
      && head < size && tail < size
    }

    constructor (n: nat)
      requires n > 0 && IsPow2(n)
      ensures Valid() && size == n && head == 0 && tail == 0
      ensures fresh(entries) && entries[..] == Empties(n)
    {
      entries := new Slot[n](_ => None);
      size, mask := n, n - 1;
      head, tail := 0, 0;
    }

    /** `(i + k) & mask`. */
    function At(i: nat, k: nat): (r: nat)
      requires Valid() && i < size && k < size
      reads this
      ensures r == Place(i, k, size) && r < size
    {
      MaskedTurn(i + k, size);
      Masked(i + k, mask + 1)
    }

    /** `(i + 1) & mask`. */
    function After(i: nat): (r: nat)
      requires Valid() && i < size
      reads this
      ensures r == Next(i, size) && r < size
    {
      MaskedTurn(i + 1, size);
      Masked(i + 1, mask + 1)
    }
  }

  class Buffer {
    const orderBuf: CirBuffer
    const readyBuf: CirBuffer
    var minSeqn: nat
    var started: bool
    ghost var view: State  // the value the two arrays stand for

    ghost function Repr(): set<object> {
      {this, orderBuf, readyBuf, orderBuf.entries, readyBuf.entries}
    }

    ghost predicate Shape()
      reads this, orderBuf, readyBuf
    {
      && orderBuf != readyBuf && orderBuf.entries != readyBuf.entries
      && orderBuf.Valid() && readyBuf.Valid() && orderBuf.size == readyBuf.size < TWO32
      && view.started == started && view.minSeqn == minSeqn
      && |view.window| == orderBuf.size && view.Valid()
    }

    /** The window is the order ring read from its head; the ready queue is the live part of the
        ready ring, read from its tail. */
    ghost predicate Mirrors()
      requires Shape()
      reads this, orderBuf, readyBuf, orderBuf.entries, readyBuf.entries
    {
      && view.window == Rotate(orderBuf.entries[..], orderBuf.head)
      && Holds(Live(readyBuf.entries[..], readyBuf.tail, readyBuf.head), view.ready)
    }

    ghost predicate Valid()
      reads Repr()
    {
      Shape() && Mirrors()
    }

    constructor (n: nat)
      requires 0 < n < TWO32 && IsPow2(n)
      ensures Valid() && fresh(Repr())
      ensures view == State(false, 0, Empties(n), [])
    {
      var o := new CirBuffer(n);
      var r := new CirBuffer(n);
      orderBuf, readyBuf := o, r;
      minSeqn, started := 0, false;
      view := State(false, 0, Empties(n), []);
    }

    /** The slot at the order ring's head. */
    function HeadSlot(): (x: Slot)
      requires Valid()
      reads Repr()
      ensures x == view.window[0]
    {
      RotateStore(orderBuf.entries[..], orderBuf.head, 0, None);
      orderBuf.entries[orderBuf.head]
    }

    /** Whether the ready ring has no room: the head is just behind the tail. */
    function ReadyFull(): (b: bool)
      requires Valid()
      reads Repr()
      ensures b <==> view.Free() == 0
    {
      LivePush(readyBuf.entries[..], readyBuf.tail, readyBuf.head, None);
      readyBuf.After(readyBuf.head) == readyBuf.tail
    }

    /** Empty the head slot and step the head. */
    method TakeHead()
      requires Valid()
      modifies this`view, orderBuf`head, orderBuf.entries
      ensures Valid() && view == old(view).(window := old(view).window[1..] + [None])
    {
      ghost var e := orderBuf.entries[..];
      RotateStep(e, orderBuf.head, None);
      orderBuf.entries[orderBuf.head] := None;
      assert orderBuf.entries[..] == e[orderBuf.head := None];
      orderBuf.head := orderBuf.After(orderBuf.head);
      view := view.(window := view.window[1..] + [None]);
    }

    /** Step the head over an empty slot. */
    method SkipHead()
      requires Valid() && view.window[0].None?
      modifies this`view, orderBuf`head
      ensures Valid() && view == Pass(old(view))
    {
      ghost var e := orderBuf.entries[..];
      RotateStore(e, orderBuf.head, 0, None);
      RotateStep(e, orderBuf.head, None);
      assert e[orderBuf.head := None] == e;
      orderBuf.head := orderBuf.After(orderBuf.head);
      view := view.(window := view.window[1..] + [None]);
    }

    /** Put a packet into the ready ring's head entry without stepping the head: the entry is not
        live yet. */
    method WriteReady(x: Slot)
      requires Valid()
      modifies readyBuf.entries
      ensures Valid() && readyBuf.entries[readyBuf.head] == x
    {
      ghost var e := readyBuf.entries[..];
      LivePush(e, readyBuf.tail, readyBuf.head, x);
      readyBuf.entries[readyBuf.head] := x;
      assert readyBuf.entries[..] == e[readyBuf.head := x];
    }

    /** Step the ready ring's head over the packet just written. */
    method PublishReady(ghost m: Mbuf)
      requires Valid() && view.Free() > 0 && readyBuf.entries[readyBuf.head] == Some(m)
      modifies this`view, readyBuf`head
      ensures Valid() && view == old(view).(ready := old(view).ready + [m])
    {
      ghost var e := readyBuf.entries[..];
      LivePush(e, readyBuf.tail, readyBuf.head, Some(m));
      assert e[readyBuf.head := Some(m)] == e;
      readyBuf.head := readyBuf.After(readyBuf.head);
      view := view.(ready := view.ready + [m]);
    }

    /** One turn of the overflow's inner loop: the head packet goes into the ready ring's head entry
        and out of the window; only then is the ready ring tested for room. */
    method MoveHead() returns (full: bool)
      requires Valid() && view.window[0].Some?
      modifies Repr()
      ensures Valid() && full == (old(view).Free() == 0)
      ensures view == Pass(old(view))
    {
      ghost var m := view.window[0].value;
      WriteReady(HeadSlot());
      TakeHead();
      full := ReadyFull();
      if !full {
        PublishReady(m);
      }
    }

    /** The overflow's inner loop: move the run at the head to the ready ring. A run longer than the
        room loses the packet that finds the ring full. */
    method TakeRun() returns (k: nat)
      requires Valid() && view.Free() > 0
      modifies Repr()
      ensures Valid()
      ensures k == Grab(old(view)) && view == PassN(old(view), k)
    {
      hide Mirrors;
      ghost var s := view;
      k := 0;
      var full := false;
      while !full && HeadSlot() != None
        invariant Valid() && view == PassN(s, k)
        invariant k <= RunLen(s.window) && k <= s.Free() + 1
        invariant full <==> k == s.Free() + 1
        decreases RunLen(s.window) - k
      {
        PassRun(s, k);
        full := MoveHead();
        k := k + 1;
      }
      PassRun(s, k);
    }

    /** `min_seqn += adv`, in 32 bits. */
    method Renumber(adv: nat)
      requires Valid()
      modifies this`minSeqn, this`view
      ensures Valid() && view == old(view).(minSeqn := (old(view).minSeqn + adv) % TWO32)
    {
      minSeqn := (minSeqn + adv) % TWO32;
      view := view.(minSeqn := minSeqn);
    }

    /** Moves the window at least n places on, as far as the ready ring allows. */
    method FillOverflow(n: nat) returns (adv: nat)
      requires Valid()
      modifies Repr()
      ensures Valid()
      ensures (view, adv) == Overflow(old(view), n)
    {
      hide Mirrors, Pass, PassN, Scan, Grab;
      ghost var s := view;
      ScanTurn(s, n, 0);
      adv := 0;
      while adv < n && !ReadyFull()
        invariant Valid() && view == PassN(s, adv)
        invariant Scan(view, n, adv) == Scan(s, n, 0)
        decreases n - adv
      {
        ghost var came, from := view, adv;
        ScanTurn(came, n, from);
        if HeadSlot() == None {
          SkipHead();
          adv := adv + 1;
        }
        var k := TakeRun();
        adv := adv + k;
        PassTwice(s, from, adv - from);
      }
      ScanTurn(view, n, adv);
      Renumber(adv);
    }

    /** Put a packet in its window slot, `(head + offset) & mask`. */
    method StoreAt(offset: nat, m: Mbuf)
      requires Valid() && offset < orderBuf.size && offset == Offset(view, m)
      modifies this`view, orderBuf.entries
      ensures Valid() && view == Store(old(view), m)
    {
      ghost var e := orderBuf.entries[..];
      RotateStore(e, orderBuf.head, offset, Some(m));
      var position := orderBuf.At(orderBuf.head, offset);
      orderBuf.entries[position] := Some(m);
      assert orderBuf.entries[..] == e[position := Some(m)];
      view := Store(view, m);
    }

    /** The "slightly ahead" case: move the window on, then store if it moved far enough. */
    method MoveAndStore(m: Mbuf, need: nat) returns (v: Verdict)
      requires Valid() && m.seqn < TWO32
      requires orderBuf.size <= Offset(view, m) < Reach(orderBuf.size)
      requires need == Offset(view, m) + 1 - orderBuf.size
      modifies Repr()
      ensures Valid() && (view, v) == InsertAhead(old(view), m)
    {
      hide Mirrors, Scan, PassN;
      ghost var b := view;
      ScanBound(b, need);
      var adv := FillOverflow(need);
      if adv < need {
        v := NoSpace;
      } else {
        ShiftedOffset(m.seqn, b.minSeqn, adv);
        StoreAt((m.seqn - minSeqn) % TWO32, m);
        v := Stored;
      }
    }

    method InsertPacket(m: Mbuf) returns (v: Verdict)
      requires Valid() && m.seqn < TWO32
      modifies Repr()
      ensures Valid() && (view, v) == Insert(old(view), m)
    {
      hide Mirrors;
      Start(m);
      var size := orderBuf.size;
      var offset := (m.seqn - minSeqn) % TWO32;
      if offset < size {
        StoreAt(offset, m);
        v := Stored;
      } else if offset < (2 * size) % TWO32 {
        v := MoveAndStore(m, offset + 1 - size);
      } else {
        v := OutOfRange;
      }
    }

    /** The first packet ever inserted sets where the window starts. */
    method Start(m: Mbuf)
      requires Valid() && m.seqn < TWO32
      modifies this`started, this`minSeqn, this`view
      ensures Valid() && view == Begun(old(view), m)
    {
      if !started {
        minSeqn := m.seqn;
        started := true;
        view := Begun(view, m);
      }
    }

    /** Take the oldest packet out of the ready ring. */
    method TakeReady() returns (m: Mbuf)
      requires Valid() && readyBuf.tail != readyBuf.head
      modifies this`view, readyBuf`tail, readyBuf.entries
      ensures Valid() && |old(view).ready| > 0
      ensures m == old(view).ready[0] && view == old(view).(ready := old(view).ready[1..])
    {
      ghost var e := readyBuf.entries[..];
      LivePop(e, readyBuf.tail, readyBuf.head, None);
      m := readyBuf.entries[readyBuf.tail].value;
      readyBuf.entries[readyBuf.tail] := None;
      assert readyBuf.entries[..] == e[readyBuf.tail := None];
      readyBuf.tail := readyBuf.After(readyBuf.tail);
      view := view.(ready := view.ready[1..]);
    }

    /** Whether any packet is waiting in the ready ring. */
    function AnyReady(): (b: bool)
      requires Valid()
      reads Repr()
      ensures b <==> view.ready != []
    {
      LivePop(readyBuf.entries[..], readyBuf.tail, readyBuf.head, None);
      readyBuf.tail != readyBuf.head
    }

    /** Take the packet at the window's head, which moves the window on by one. */
    method TakeNext() returns (m: Mbuf)
      requires Valid() && view.window[0].Some?
      modifies Repr()
      ensures Valid() && Some(m) == old(view).window[0]
      ensures view == old(view).(window := Shifted(old(view).window), minSeqn := (old(view).minSeqn + 1) % TWO32)
    {
      hide Mirrors;
      m := HeadSlot().value;
      TakeHead();
      Renumber(1);
    }

    /** Fill the caller's array from the ready ring. */
    method DrainQueue(out: array<Mbuf>, max: nat) returns (cnt: nat)
      requires Valid() && max <= out.Length
      modifies Repr(), out
      ensures Valid() && cnt == Min(max, |old(view).ready|)
      ensures view == old(view).(ready := old(view).ready[cnt..]) && out[..cnt] == old(view).ready[..cnt]
    {
      hide Mirrors;
      ghost var s := view;
      cnt := 0;
      while cnt < max && AnyReady()
        invariant Valid() && cnt <= Min(max, |s.ready|)
        invariant view == s.(ready := s.ready[cnt..])
        invariant out[..cnt] == s.ready[..cnt]
      {
        var m := TakeReady();
        out[cnt] := m;
        cnt := cnt + 1;
      }
    }

    /** Go on filling it from the window, up to the first missing packet. */
    method DrainOrdered(out: array<Mbuf>, from: nat, max: nat) returns (cnt: nat)
      requires Valid() && from <= max <= out.Length
      modifies Repr(), out
      ensures Valid() && from <= cnt <= max && out[..from] == old(out[..from])
      ensures view == DrainWindow(old(view), max - from).0
      ensures out[from..cnt] == DrainWindow(old(view), max - from).1
    {
      hide Mirrors, DrainWindow;
      ghost var s := view;
      cnt := from;
      while cnt < max && HeadSlot() != None
        invariant Valid() && from <= cnt <= max && out[..from] == old(out[..from])
        invariant DrainWindow(s, max - from).0 == DrainWindow(view, max - cnt).0
        invariant DrainWindow(s, max - from).1 == out[from..cnt] + DrainWindow(view, max - cnt).1
      {
        ghost var before := out[from..cnt];
        DrainStep(view, max - cnt);
        var m := TakeNext();
        out[cnt] := m;
        cnt := cnt + 1;
        assert out[from..cnt] == before + [m];
      }
      DrainStep(view, max - cnt);
    }

    method DrainInto(out: array<Mbuf>, max: nat) returns (cnt: nat)
      requires Valid() && max <= out.Length
      modifies Repr(), out
      ensures Valid() && cnt <= max
      ensures (view, out[..cnt]) == Drain(old(view), max)
    {
      hide Mirrors;
      var q := DrainQueue(out, max);
      cnt := DrainOrdered(out, q, max);
      assert out[..cnt] == out[..q] + out[q..cnt];
    }
  }
}
