/** What one reorder-buffer operation does to the buffer's value: the order window seen from its
    head, the ready queue, and the 32-bit number the window starts at. */
module ReorderSpec {
  import opened Basics
  import opened Wrappers

  const TWO32: nat := 0x1_0000_0000

  /** A packet buffer. `seqn` is the 32-bit field the library reads. `order` is the count the
      application numbered the packet with; the library never looks at it. */
  datatype Mbuf = Mbuf(order: nat, seqn: nat)

  /** A window slot: slot k is the ring entry k places after the head. */
  type Slot = Option<Mbuf>

  datatype State = State(started: bool, minSeqn: nat, window: seq<Slot>, ready: seq<Mbuf>) {
    ghost predicate Valid() {
      0 < |window| && minSeqn < TWO32 && |ready| < |window|
    }

    /** One ring entry always stays unused, so a ring of n entries holds n - 1 packets. */
    function Free(): nat
      requires |ready| < |window|
    {
      |window| - 1 - |ready|
    }
  }

  datatype Verdict = Stored | NoSpace | OutOfRange

  function Empties(n: nat): (s: seq<Slot>)
    ensures |s| == n && forall i :: 0 <= i < n ==> s[i] == None
  {
    seq(n, _ => None)
  }

  /** The packets in a stretch of slots, in slot order. */
  function Present(s: seq<Slot>): (r: seq<Mbuf>)
    ensures |r| <= |s|
    decreases |s|
  {
    if s == [] then []
    else if s[0].Some? then [s[0].value] + Present(s[1..])
    else Present(s[1..])
  }

  lemma {:induction false} PresentConcat(a: seq<Slot>, b: seq<Slot>)
    ensures Present(a + b) == Present(a) + Present(b)
    decreases |a|
  {
    if a == [] {
      assert a + b == b;
    } else {
      PresentConcat(a[1..], b);
      assert (a + b)[1..] == a[1..] + b;
    }
  }

  lemma {:induction false} PresentFull(s: seq<Slot>)
    requires forall i :: 0 <= i < |s| ==> s[i].Some?
    ensures |Present(s)| == |s| && forall i :: 0 <= i < |s| ==> Present(s)[i] == s[i].value
    decreases |s|
  {
    if s != [] { PresentFull(s[1..]); }
  }

  lemma {:induction false} PresentEmpties(s: seq<Slot>)
    requires forall i :: 0 <= i < |s| ==> s[i].None?
    ensures Present(s) == []
    decreases |s|
  {
    if s != [] { PresentEmpties(s[1..]); }
  }

  /** One more slot: its packet, if it has one, comes last. */
  lemma PresentSnoc(s: seq<Slot>, k: nat)
    requires k < |s|
    ensures Present(s[..k + 1]) == Present(s[..k]) + (if s[k].Some? then [s[k].value] else [])
  {
    assert s[..k + 1] == s[..k] + [s[k]];
    PresentConcat(s[..k], [s[k]]);
    assert [s[k]][1..] == [];
  }

  /** Length of the unbroken run of packets at the front. */
  function RunLen(s: seq<Slot>): (r: nat)
    ensures r <= |s|
    ensures forall i :: 0 <= i < r ==> s[i].Some?
    ensures r < |s| ==> s[r].None?
    decreases |s|
  {
    if s == [] || s[0].None? then 0 else 1 + RunLen(s[1..])
  }

  lemma {:induction false} RunUnique(s: seq<Slot>, r: nat)
    requires r <= |s| && (forall i :: 0 <= i < r ==> s[i].Some?) && (r < |s| ==> s[r].None?)
    ensures RunLen(s) == r
    decreases |s|
  {
    if r > 0 { RunUnique(s[1..], r - 1); }
  }

  /** The window one place on. */
  function Shifted(w: seq<Slot>): (r: seq<Slot>)
    requires 0 < |w|
    ensures |r| == |w|
  {
    w[1..] + [None]
  }

  /** The overflow loop passes one place: a packet there becomes ready, or is lost if the ready ring
      turns out to be full; an empty slot is skipped. */
  function Pass(s: State): (r: State)
    requires s.Valid()
    ensures r.Valid() && |r.window| == |s.window|
  {
    s.(window := Shifted(s.window),
       ready := s.ready + if s.window[0].Some? && s.Free() > 0 then [s.window[0].value] else [])
  }

  function PassN(s: State, k: nat): (r: State)
    requires s.Valid()
    ensures r.Valid() && |r.window| == |s.window|
    ensures r.started == s.started && r.minSeqn == s.minSeqn
  {
    if k == 0 then s else Pass(PassN(s, k - 1))
  }

  /** The ready ring's live slots are exactly the queue. */
  ghost predicate Holds(live: seq<Slot>, queue: seq<Mbuf>) {
    |live| == |queue| && forall i :: 0 <= i < |live| ==> live[i] == Some(queue[i])
  }

  /** How many packets one turn of the inner loop takes: the run at the head, but never more than
      one past the room there is. */
  function Grab(s: State): nat
    requires s.Valid()
  {
    Min(RunLen(s.window), s.Free() + 1)
  }

  /** How many places one turn of the outer loop passes: at most one empty slot, then the run. */
  function Turn(s: State): (r: nat)
    requires s.Valid()
    ensures s.Free() > 0 ==> r > 0
  {
    var gap := if s.window[0].None? then 1 else 0;
    gap + Grab(PassN(s, gap))
  }

  /** How far the head has moved when the overflow loop ends, having come adv places already. */
  function Scan(s: State, n: nat, adv: nat): nat
    requires s.Valid()
    decreases n - adv
  {
    if adv >= n || s.Free() == 0 then adv
    else Scan(PassN(s, Turn(s)), n, adv + Turn(s))
  }

  function Overflow(s: State, n: nat): (r: (State, nat))
    requires s.Valid()
    ensures r.0.Valid() && |r.0.window| == |s.window|
  {
    var adv := Scan(s, n, 0);
    (PassN(s, adv).(minSeqn := (s.minSeqn + adv) % TWO32), adv)
  }

  /** Distance from the window's start, in the 32-bit arithmetic of the code. */
  function Offset(s: State, m: Mbuf): (r: nat)
    ensures r < TWO32
  {
    (m.seqn - s.minSeqn) % TWO32
  }

  /** The far bound of the "slightly ahead" case, `2 * size` in 32 bits. */
  function Reach(size: nat): nat {
    (2 * size) % TWO32
  }

  function Begun(s: State, m: Mbuf): State {
    if s.started then s else s.(started := true, minSeqn := m.seqn)
  }

  /** Moving the window by no more than the offset takes exactly that much off the offset. */
  lemma ShiftedOffset(seqn: nat, minSeqn: nat, adv: nat)
    requires seqn < TWO32 && minSeqn < TWO32 && adv < TWO32
    requires adv <= (seqn - minSeqn) % TWO32
    ensures (seqn - (minSeqn + adv) % TWO32) % TWO32 == (seqn - minSeqn) % TWO32 - adv
  {
  }

  /** Passing k places slides the window: what is left, then k empty slots. */
  lemma {:induction false} PassWindow(s: State, k: nat)
    requires s.Valid() && k <= |s.window|
    ensures PassN(s, k).window == s.window[k..] + Empties(k)
  {
    if k > 0 { PassWindow(s, k - 1); }
  }

  lemma {:induction false} PassTwice(s: State, a: nat, k: nat)
    requires s.Valid()
    ensures PassN(PassN(s, a), k) == PassN(s, a + k)
  {
    if k > 0 { PassTwice(s, a, k - 1); }
  }

  /** What passing k places leaves at the front of the window. */
  lemma PassFront(s: State, k: nat)
    requires s.Valid() && k <= |s.window|
    ensures PassN(s, k).window[0] == if k < |s.window| then s.window[k] else None
    ensures k > 0 ==> PassN(s, k).window[|s.window| - k] == None
  {
    PassWindow(s, k);
  }

  /** Inside the front run every place passed holds a packet and uses up one entry of room. */
  lemma {:induction false} PassRun(s: State, k: nat)
    requires s.Valid() && k <= RunLen(s.window)
    ensures PassN(s, k).window[0].Some? <==> k < RunLen(s.window)
    ensures k <= s.Free() ==> PassN(s, k).Free() == s.Free() - k
    ensures k > s.Free() ==> PassN(s, k).Free() == 0
  {
    PassFront(s, k);
    if k > 0 { PassRun(s, k - 1); }
  }

  /** For the amounts insert asks for, the head never moves more than one turn. */
  lemma ScanBound(s: State, n: nat)
    requires s.Valid() && n <= |s.window|
    ensures Scan(s, n, 0) <= |s.window|
  {
    ScanBoundFrom(s, n, 0);
  }

  lemma {:induction false} ScanBoundFrom(s: State, n: nat, adv: nat)
    requires s.Valid() && n <= |s.window| && adv <= |s.window|
    ensures Scan(PassN(s, adv), n, adv) <= |s.window|
    decreases n - adv
  {
    hide Turn, PassN, RunLen;
    var c := PassN(s, adv);
    if adv < n && c.Free() > 0 {
      TurnBound(s, adv);
      PassTwice(s, adv, Turn(c));
      ScanBoundFrom(s, n, adv + Turn(c));
    }
  }

  /** The run at the head ends where the places already passed begin. */
  lemma TurnBound(s: State, adv: nat)
    requires s.Valid() && adv < |s.window|
    ensures adv + Turn(PassN(s, adv)) <= |s.window|
  {
    hide PassN, Pass;
    var gap := if PassN(s, adv).window[0].None? then 1 else 0;
    PassTwice(s, adv, gap);
    PassFront(s, adv + gap);
    var w := PassN(s, adv + gap).window;
    assert adv + gap > 0 ==> w[|w| - (adv + gap)].None?;
  }

  lemma PassOnce(s: State)
    requires s.Valid()
    ensures PassN(s, 0) == s && PassN(s, 1) == Pass(s)
    ensures s.window[0].None? ==> Pass(s).Free() == s.Free()
  {
  }

  /** One turn of the outer loop, as the code makes it: a skip if the head slot is empty, a run. */
  lemma ScanTurn(s: State, n: nat, adv: nat)
    requires s.Valid()
    ensures adv >= n || s.Free() == 0 ==> Scan(s, n, adv) == adv
    ensures PassN(s, 0) == s && PassN(s, 1) == Pass(s)
    ensures s.window[0].None? ==> Pass(s).Free() == s.Free()
    ensures adv < n && s.Free() > 0 ==>
              var gap := if s.window[0].None? then 1 else 0;
              var t := PassN(s, gap);
              && PassN(s, gap + Grab(t)) == PassN(t, Grab(t)) && gap + Grab(t) > 0
              && Scan(PassN(t, Grab(t)), n, adv + gap + Grab(t)) == Scan(s, n, adv)
  {
    PassOnce(s);
    hide Pass, PassN, Grab;
    var gap := if s.window[0].None? then 1 else 0;
    PassTwice(s, gap, Grab(PassN(s, gap)));
  }

  function Insert(s: State, m: Mbuf): (r: (State, Verdict))
    requires s.Valid() && m.seqn < TWO32 && |s.window| < TWO32
    ensures r.0.Valid() && |r.0.window| == |s.window|
  {
    var b := Begun(s, m);
    if Offset(b, m) < |s.window| then (Store(b, m), Stored)
    else if Offset(b, m) < Reach(|s.window|) then InsertAhead(b, m)
    else (b, OutOfRange)
  }

  function Store(s: State, m: Mbuf): (r: State)
    requires s.Valid() && Offset(s, m) < |s.window|
    ensures r.Valid()
  {
    s.(window := s.window[Offset(s, m) := Some(m)])
  }

  /** A packet slightly ahead of the window: first move the window just far enough. */
  function InsertAhead(s: State, m: Mbuf): (r: (State, Verdict))
    requires s.Valid() && m.seqn < TWO32 && |s.window| < TWO32
    requires |s.window| <= Offset(s, m) < Reach(|s.window|)
    ensures r.0.Valid() && |r.0.window| == |s.window|
  {
    var need := Offset(s, m) + 1 - |s.window|;
    var (moved, adv) := Overflow(s, need);
    if adv < need then (moved, NoSpace)
    else
      ScanBound(s, need);
      ShiftedOffset(m.seqn, s.minSeqn, adv);
      (Store(moved, m), Stored)
  }

  function Drain(s: State, max: nat): (r: (State, seq<Mbuf>))
    requires s.Valid()
    ensures r.0.Valid() && |r.0.window| == |s.window| && |r.1| <= max
  {
    var q := Min(max, |s.ready|);
    var (t, rest) := DrainWindow(s.(ready := s.ready[q..]), max - q);
    (t, s.ready[..q] + rest)
  }

  /** Draining straight from the window: packets leave its front until one is missing. */
  function DrainWindow(s: State, max: nat): (r: (State, seq<Mbuf>))
    requires s.Valid()
    ensures r.0.Valid() && |r.0.window| == |s.window| && |r.1| <= max
    decreases max
  {
    if max == 0 || s.window[0].None? then (s, [])
    else
      var (t, rest) := DrainWindow(s.(window := Shifted(s.window), minSeqn := (s.minSeqn + 1) % TWO32), max - 1);
      (t, [s.window[0].value] + rest)
  }

  /** Draining one packet from the window, or none. */
  lemma DrainStep(s: State, max: nat)
    requires s.Valid()
    ensures max == 0 || s.window[0].None? ==> DrainWindow(s, max) == (s, [])
    ensures max > 0 && s.window[0].Some? ==>
              var t := s.(window := Shifted(s.window), minSeqn := (s.minSeqn + 1) % TWO32);
              && DrainWindow(s, max).0 == DrainWindow(t, max - 1).0
              && DrainWindow(s, max).1 == [s.window[0].value] + DrainWindow(t, max - 1).1
  {
  }
}
