/** What the overflow loop does to the window and the ready ring, said without the loop. */
module ReorderOverflow {
  import opened Basics
  import opened Wrappers
  import opened ReorderSpec

  /** How many packets the first k slots hold. */
  function Count(w: seq<Slot>, k: nat): (c: nat)
    requires k <= |w|
    ensures c <= k
  {
    |Present(w[..k])|
  }

  lemma CountStep(w: seq<Slot>, k: nat)
    requires k < |w|
    ensures Count(w, k + 1) == Count(w, k) + if w[k].Some? then 1 else 0
  {
    PresentSnoc(w, k);
  }

  lemma {:induction false} CountRun(w: seq<Slot>, a: nat, k: nat)
    requires a + k <= |w| && forall i :: a <= i < a + k ==> w[i].Some?
    ensures Count(w, a + k) == Count(w, a) + k
    decreases k
  {
    if k > 0 {
      CountRun(w, a, k - 1);
      CountStep(w, a + k - 1);
    }
  }

  lemma {:induction false} CountMonotone(w: seq<Slot>, a: nat, b: nat)
    requires a <= b <= |w|
    ensures Count(w, a) <= Count(w, b)
    decreases b
  {
    if a < b {
      CountMonotone(w, a, b - 1);
      CountStep(w, b - 1);
    }
  }

  /** Appending to a list of which only the first `room` count. */
  lemma CutSnoc(few: seq<Mbuf>, x: Mbuf, room: nat)
    ensures (few + [x])[..Min(|few| + 1, room)] ==
            few[..Min(|few|, room)] + if |few| < room then [x] else []
  {
  }

  /** What is ready after k places: the packets there, in order, as many as there was room for. */
  lemma {:induction false} PassReady(s: State, k: nat)
    requires s.Valid() && k <= |s.window|
    ensures PassN(s, k).ready == s.ready + Present(s.window[..k])[..Min(Count(s.window, k), s.Free())]
  {
    hide Present;
    if k == 0 {
      assert s.window[..0] == [];
    } else {
      PassReady(s, k - 1);
      PassFront(s, k - 1);
      PresentSnoc(s.window, k - 1);
      PassReadyStep(s, k - 1, Present(s.window[..k - 1]));
    }
  }

  lemma PassReadyStep(s: State, k: nat, few: seq<Mbuf>)
    requires s.Valid() && k < |s.window|
    requires PassN(s, k).window[0] == s.window[k]
    requires PassN(s, k).ready == s.ready + few[..Min(|few|, s.Free())]
    ensures var more := few + if s.window[k].Some? then [s.window[k].value] else [];
            PassN(s, k + 1).ready == s.ready + more[..Min(|more|, s.Free())]
  {
    var c := PassN(s, k);
    assert c.Free() > 0 <==> |few| < s.Free();
    if s.window[k].Some? {
      CutSnoc(few, s.window[k].value, s.Free());
      assert PassN(s, k + 1).ready == c.ready + if |few| < s.Free() then [s.window[k].value] else [];
    } else {
      assert few + [] == few;
    }
  }

  /** The overflow has come adv places without loss: it has passed no packet it could have left
      behind, and stands before an empty slot or at the end of the window. */
  ghost predicate Even(s: State, n: nat, adv: nat)
    requires s.Valid()
  {
    && adv <= |s.window| && Count(s.window, adv) <= s.Free()
    && (forall k :: n <= k < adv ==> s.window[k].Some?)
    && (0 < adv < |s.window| ==> s.window[adv].None?)
    && (Count(s.window, adv) == s.Free() > 0 ==> adv > 0 && s.window[adv - 1].Some?)
  }

  /** The overflow stopped one packet too late, in the middle of a run. */
  ghost predicate Late(s: State, n: nat, adv: nat)
    requires s.Valid()
  {
    && 2 <= adv <= |s.window| && Count(s.window, adv) == s.Free() + 1 && s.Free() > 0
    && s.window[adv - 1].Some? && s.window[adv - 2].Some?
    && (forall k :: n <= k < adv ==> s.window[k].Some?)
  }

  lemma {:induction false} ScanShape(s: State, n: nat, adv: nat)
    requires s.Valid() && n <= |s.window| && Even(s, n, adv)
    ensures var r := Scan(PassN(s, adv), n, adv);
            || (Even(s, n, r) && (r >= n || Count(s.window, r) == s.Free()))
            || Late(s, n, r)
    decreases n - adv
  {
    hide PassN, Turn;
    PassReady(s, adv);
    var c := PassN(s, adv);
    if adv < n && c.Free() > 0 {
      var next := adv + Turn(c);
      TurnShape(s, n, adv);
      PassTwice(s, adv, Turn(c));
      if Even(s, n, next) {
        ScanShape(s, n, next);
      } else {
        PassReady(s, next);
      }
    }
  }

  lemma TurnShape(s: State, n: nat, adv: nat)
    requires s.Valid() && adv < n <= |s.window| && Even(s, n, adv) && PassN(s, adv).Free() > 0
    ensures var next := adv + Turn(PassN(s, adv));
            next <= |s.window| && (Even(s, n, next) || Late(s, n, next))
  {
    hide PassN, Pass, Present, Grab, Count, RunLen;
    PassFront(s, adv);
    var gap := if s.window[adv].None? then 1 else 0;
    PassTwice(s, adv, gap);
    CountStep(s.window, adv);
    FreeLeft(s, adv);
    FreeLeft(s, adv + gap);
    GrabShape(s, adv + gap);
  }

  lemma FreeLeft(s: State, a: nat)
    requires s.Valid() && a <= |s.window| && Count(s.window, a) <= s.Free()
    ensures PassN(s, a).Free() == s.Free() - Count(s.window, a)
  {
    PassReady(s, a);
  }

  /** The inner loop takes the run from place a on: all of it, or one packet more than fits. */
  lemma GrabShape(s: State, a: nat)
    requires s.Valid() && a <= |s.window|
    ensures var k := Grab(PassN(s, a));
            && a + k <= |s.window| && Count(s.window, a + k) == Count(s.window, a) + k
            && (forall i :: a <= i < a + k ==> s.window[i].Some?)
            && k <= PassN(s, a).Free() + 1
            && (k <= PassN(s, a).Free() && a + k < |s.window| ==> s.window[a + k].None?)
  {
    hide PassN, Present, Count;
    PassFront(s, a);
    PassWindow(s, a);
    var w, v := s.window, PassN(s, a).window;
    assert a > 0 ==> v[|w| - a].None?;
    var k := Grab(PassN(s, a));
    assert forall i :: a <= i < a + k ==> w[i] == v[i - a];
    CountRun(w, a, k);
    assert a + k < |w| ==> w[a + k] == v[k];
  }

  /** Where the overflow stops: at once if there was no room; otherwise evenly, once n places are
      passed or the room is used up, or else one packet too late. */
  ghost predicate Stops(s: State, n: nat, adv: nat)
    requires s.Valid()
  {
    if s.Free() == 0 then adv == 0
    else (Even(s, n, adv) && (adv >= n || Count(s.window, adv) == s.Free())) || Late(s, n, adv)
  }

  lemma {:induction false} StopsOnce(s: State, n: nat, r: nat, q: nat)
    requires s.Valid() && n > 0 && Stops(s, n, r) && Stops(s, n, q)
    ensures r == q
  {
    hide Count;
    if q < r { StopsOnce(s, n, q, r); }
    if r < q && s.Free() > 0 {
      CountMonotone(s.window, r, q - 1);
      CountStep(s.window, q - 1);
      if q >= 2 { CountStep(s.window, q - 2); CountMonotone(s.window, q - 2, q); }
      if q >= 2 && q - 2 >= r { CountMonotone(s.window, r, q - 2); }
    }
  }

  /** The whole effect of the overflow: the head and the first number move by the same amount, at
      least n unless the ready ring fills up; the window slides; the packets passed become ready in
      order, as many as fit; and it stops exactly where Stops says. */
  lemma OverflowShift(s: State, n: nat, t: State, adv: nat)
    requires s.Valid() && n <= |s.window| && (t, adv) == Overflow(s, n)
    ensures adv <= |s.window| && Stops(s, n, adv)
    ensures forall q :: n > 0 && Stops(s, n, q) ==> q == adv
    ensures adv >= n || t.Free() == 0
    ensures t.minSeqn == (s.minSeqn + adv) % TWO32
    ensures t.window == s.window[adv..] + Empties(adv)
    ensures t.ready == s.ready + Present(s.window[..adv])[..Min(Count(s.window, adv), s.Free())]
  {
    hide Scan, PassN;
    ScanTurn(s, n, 0);
    assert s.window[..0] == [];
    ScanBound(s, n);
    ScanShape(s, n, 0);
    PassWindow(s, Scan(s, n, 0));
    PassReady(s, Scan(s, n, 0));
    forall q | n > 0 && Stops(s, n, q) ensures q == Scan(s, n, 0) {
      StopsOnce(s, n, Scan(s, n, 0), q);
    }
  }

  /** The same, where the stopping place is known. */
  lemma OverflowAt(s: State, n: nat, q: nat)
    requires s.Valid() && 0 < n <= |s.window| && q <= |s.window| && Stops(s, n, q)
    ensures Overflow(s, n) == (s.(minSeqn := (s.minSeqn + q) % TWO32, window := s.window[q..] + Empties(q),
                                  ready := s.ready + Present(s.window[..q])[..Min(Count(s.window, q), s.Free())]), q)
  {
    hide Stops, Present, Count;
    OverflowStarted(s, n);
    OverflowShift(s, n, Overflow(s, n).0, Overflow(s, n).1);
  }

  lemma OverflowStarted(s: State, n: nat)
    requires s.Valid()
    ensures Overflow(s, n).0.started == s.started
  {
  }

  /** The packets the overflow takes from the window, in order. */
  function Taken(s: State, n: nat): seq<Mbuf>
    requires s.Valid() && n <= |s.window|
  {
    ScanBound(s, n);
    Present(s.window[..Overflow(s, n).1])
  }

  /** The packets the overflow takes from the window without making them ready. */
  function Dropped(s: State, n: nat): seq<Mbuf>
    requires s.Valid() && n <= |s.window|
  {
    Taken(s, n)[Min(|Taken(s, n)|, s.Free())..]
  }

  /** Place j holds the packet that takes the last free entry, the overflow gets that far, and the
      next place holds a packet too. */
  ghost predicate Straddles(s: State, n: nat, j: nat)
    requires s.Valid()
  {
    && j + 1 < |s.window| && s.window[j].Some? && s.window[j + 1].Some?
    && Count(s.window, j + 1) == s.Free()
    && forall i :: n <= i <= j ==> s.window[i].Some?
  }

  /** Seen before the call: a run crosses the point where the ready ring becomes full. */
  ghost predicate Overruns(s: State, n: nat)
    requires s.Valid()
  {
    n > 0 && s.Free() > 0 && exists j: nat :: Straddles(s, n, j)
  }

  lemma LateIsSeen(s: State, n: nat, adv: nat)
    requires s.Valid() && Late(s, n, adv)
    ensures Straddles(s, n, adv - 2)
  {
    hide Present;
    CountStep(s.window, adv - 1);
  }

  lemma StraddleIsLate(s: State, n: nat, j: nat)
    requires s.Valid() && s.Free() > 0 && Straddles(s, n, j)
    ensures Late(s, n, j + 2)
  {
    hide Present;
    CountStep(s.window, j + 1);
  }

  /** A stop one packet too late is seen before the call. */
  lemma LateIffOverruns(s: State, n: nat, adv: nat)
    requires s.Valid() && Stops(s, n, adv) && (n == 0 ==> adv == 0)
    ensures Late(s, n, adv) <==> Overruns(s, n)
  {
    if Late(s, n, adv) {
      LateIsSeen(s, n, adv);
    }
    if Overruns(s, n) {
      hide Even;
      var j: nat :| Straddles(s, n, j);
      StraddleIsLate(s, n, j);
      StopsOnce(s, n, j + 2, adv);
    }
  }

  /** The packets in the places passed become ready, but for what is dropped. */
  lemma ReadyAndDropped(s: State, n: nat, t: State, adv: nat)
    requires s.Valid() && n <= |s.window| && (t, adv) == Overflow(s, n)
    ensures adv <= |s.window| && t.ready + Dropped(s, n) == s.ready + Present(s.window[..adv])
    ensures |Dropped(s, n)| == if Count(s.window, adv) > s.Free() then Count(s.window, adv) - s.Free() else 0
    ensures Dropped(s, n) != [] ==>
              Dropped(s, n)[|Dropped(s, n)| - 1] == Present(s.window[..adv])[Count(s.window, adv) - 1]
  {
    hide Scan, PassN, Present, Stops;
    OverflowShift(s, n, t, adv);
    var moved := Present(s.window[..adv]);
    assert moved == moved[..Min(|moved|, s.Free())] + Dropped(s, n);
  }

  /** Conservation: what the overflow takes out of the window is what becomes ready and what is
      dropped; at most one packet is dropped, the last one taken, and exactly when the window
      overruns the room. */
  lemma OverflowConserves(s: State, n: nat, t: State, adv: nat)
    requires s.Valid() && n <= |s.window| && (t, adv) == Overflow(s, n)
    ensures adv <= |s.window| && t.ready + Dropped(s, n) == s.ready + Present(s.window[..adv])
    ensures multiset(Present(s.window)) == multiset(Present(s.window[..adv])) + multiset(Present(t.window))
    ensures |Dropped(s, n)| <= 1 && (Dropped(s, n) != [] <==> Overruns(s, n))
    ensures Dropped(s, n) != [] ==> adv > 0 && s.window[adv - 1] == Some(Dropped(s, n)[0])
  {
    hide Overflow, Present, Overruns, Dropped, Even;
    OverflowShift(s, n, t, adv);
    ReadyAndDropped(s, n, t, adv);
    if n == 0 { OverflowOfNone(s, n, t, adv); }
    LateIffOverruns(s, n, adv);
    WindowSplit(s.window, adv);
    EvenFits(s, n, adv);
    if Late(s, n, adv) { PresentSnoc(s.window, adv - 1); }
  }

  lemma EvenFits(s: State, n: nat, adv: nat)
    requires s.Valid()
    ensures Even(s, n, adv) ==> adv <= |s.window| && Count(s.window, adv) <= s.Free()
    ensures Count(s.window, 0) == 0
  {
    assert s.window[..0] == [];
  }

  lemma OverflowOfNone(s: State, n: nat, t: State, adv: nat)
    requires s.Valid() && n <= |s.window| && (t, adv) == Overflow(s, n) && n == 0
    ensures adv == 0
  {
    ScanTurn(s, n, 0);
  }

  lemma WindowSplit(w: seq<Slot>, adv: nat)
    requires adv <= |w|
    ensures multiset(Present(w)) == multiset(Present(w[..adv])) + multiset(Present(w[adv..] + Empties(adv)))
  {
    hide Present;
    assert w == w[..adv] + w[adv..];
    PresentConcat(w[..adv], w[adv..]);
    PresentConcat(w[adv..], Empties(adv));
    PresentEmpties(Empties(adv));
  }
}
