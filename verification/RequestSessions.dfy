/** A sender's loops beside the protocol: in every run each sender does what its loops do, and the
    answers they work with are numbers the primary issued. */
module RequestSessions {
  import opened Wrappers
  import opened RequestSpec
  import opened RequestProofs
  import opened Requests

  /** How the calls of sender s that are over have ended, in a run: with a number or without. */
  function Endings(n: nat, acts: seq<Action>, s: nat): seq<Option<nat>> {
    if acts == [] then []
    else
      var front, a := acts[..|acts| - 1], acts[|acts| - 1];
      var st := Run(Init(n), front);
      Endings(n, front, s) + if Enabled(st, a) && a.s == s then Ending(st.senders[s], a) else []
  }

  function Ending(d: Sender, a: Action): seq<Option<nat>>
    requires a.Deliver? ==> a.k < |d.replies|
  {
    match a
    case Deliver(_, k) => [Some(d.replies[k])]
    case Timeout(_) => [None]
    case SendFails(_) => [None]
    case _ => []
  }

  /** Calls that end so, whatever would come after them. */
  function Ended(ends: seq<Option<nat>>): nat -> Option<nat> {
    (k: nat) => if k < |ends| then ends[k] else None
  }

  /** A sender after calls that ended so, when no signal comes. */
  function Tried(ends: seq<Option<nat>>): (d: Sender)
    ensures d.replies == []
  {
    if ends == [] then FRESH
    else
      var d := Tried(ends[..|ends| - 1]);
      AttemptFields(d, ends[|ends| - 1], false);
      Attempt(d, ends[|ends| - 1], false)
  }

  lemma AttemptFields(d: Sender, answer: Option<nat>, quit: bool)
    requires d.replies == []
    ensures var e, f := Attempt(d, answer, quit), d.(quit := d.quit || quit);
            var g := if answer.Some? then Onward(f) else Failed(f);
            && e.i == g.i && e.retry == g.retry && e.mode == g.mode && e.quit == g.quit
            && e.attempts == d.attempts + 1 && e.seen == d.seen + Listed(answer) && e.replies == []
  {
    if answer.Some? {
      assert d.replies + [answer.value] == [answer.value] && Without([answer.value], 0) == [];
    }
  }

  /** Every one of the calls was made. */
  ghost predicate AllMade(ends: seq<Option<nat>>) {
    forall k :: 0 <= k < |ends| ==> Tried(ends[..k]).mode.Ready? && AtTest(Tried(ends[..k]))
  }

  /** A sender of a run, by how its calls have ended. */
  ghost predicate Tracks(d: Sender, ends: seq<Option<nat>>) {
    var t := Tried(ends);
    && AllMade(ends) && AtTest(t) && d.seen == t.seen && !t.quit && t.attempts == |ends|
    && d.attempts == |ends| + (if d.mode.Waiting? then 1 else 0)
    && (!d.mode.Finished? ==> d.i == t.i && d.retry == t.retry && t.mode.Ready?)
    && (d.mode.Finished? && !d.quit ==> t.mode.Finished?)
  }

  lemma TracksMore(d: Sender, ends: seq<Option<nat>>, answer: Option<nat>)
    requires Tracks(d, ends) && !d.mode.Finished?
    ensures var e := d.(attempts := |ends| + 1, seen := d.seen + Listed(answer));
            Tracks(if answer.Some? then Onward(e) else Failed(e), ends + [answer])
  {
    var more := ends + [answer];
    assert more[..|ends|] == ends;
    AttemptFields(Tried(ends), answer, false);
    forall k | 0 <= k < |more| ensures Tried(more[..k]).mode.Ready? && AtTest(Tried(more[..k])) {
      if k < |ends| { assert more[..k] == ends[..k]; }
    }
  }

  /** What tracking does not look at: replies under way. */
  lemma TracksSame(d: Sender, e: Sender, ends: seq<Option<nat>>)
    requires Tracks(d, ends) && e.(replies := d.replies) == d
    ensures Tracks(e, ends)
  {
  }

  lemma TracksStep(d: Sender, a: Action, number: nat, ends: seq<Option<nat>>)
    requires Tracks(d, ends) && (a.LoseReply? || a.Deliver? ==> a.k < |d.replies|)
    requires a.Send? || a.SendFails? || a.Stop? ==> d.mode.Ready?
    requires a.Deliver? || a.Timeout? ==> d.mode.Waiting?
    requires a.Stop? ==> d.quit
    ensures Tracks(SenderNext(d, a, number), ends + Ending(d, a))
  {
    assert ends + [] == ends;
    match a
    case Deliver(_, k) =>
      TracksMore(d, ends, Some(d.replies[k]));
      var e := d.(attempts := |ends| + 1, seen := d.seen + [d.replies[k]]);
      TracksSame(Onward(e), SenderNext(d, a, number), ends + [Some(d.replies[k])]);
    case Timeout(_) =>
      TracksMore(d, ends, None);
      assert d.(attempts := |ends| + 1, seen := d.seen + []) == d;
    case SendFails(_) =>
      TracksMore(d, ends, None);
      assert d.(attempts := |ends| + 1, seen := d.seen + []) == d.(attempts := d.attempts + 1);
    case _ =>
  }

  lemma TracksNext(st: State, a: Action, s: nat, ends: seq<Option<nat>>)
    requires s < |st.senders| && Tracks(st.senders[s], ends)
    ensures |Next(st, a).senders| == |st.senders|
    ensures Tracks(Next(st, a).senders[s],
                   ends + if Enabled(st, a) && a.s == s then Ending(st.senders[s], a) else [])
  {
    hide SenderNext, Ending, Tracks;
    assert ends + [] == ends;
    if Enabled(st, a) && a.s == s {
      TracksStep(st.senders[s], a, st.count + 1, ends);
    }
  }

  lemma {:induction false} RunTracks(n: nat, acts: seq<Action>, s: nat)
    requires s < n
    ensures |Run(Init(n), acts).senders| == n && Tracks(Run(Init(n), acts).senders[s], Endings(n, acts, s))
  {
    hide Next, Enabled, Ending;
    if acts != [] {
      hide Tracks, Init;
      var front := acts[..|acts| - 1];
      RunTracks(n, front, s);
      TracksNext(Run(Init(n), front), acts[|acts| - 1], s, Endings(n, front, s));
    }
  }

  /** The loops' session goes through the calls that were made. */
  lemma {:induction false} SessionGoes(ends: seq<Option<nat>>, k: nat, quitAfter: nat)
    requires AllMade(ends) && k <= |ends| && k < quitAfter && AtTest(Tried(ends[..k]))
    ensures Tried(ends[..k]).attempts == k
    ensures Session(FRESH, Ended(ends), quitAfter) == Session(Tried(ends[..k]), Ended(ends), quitAfter)
  {
    if k > 0 {
      SessionGoes(ends, k - 1, quitAfter);
      assert ends[..k][..k - 1] == ends[..k - 1];
      AttemptFields(Tried(ends[..k - 1]), ends[k - 1], false);
    } else {
      assert ends[..0] == [];
    }
  }

  lemma SessionEnds(d: Sender, ends: seq<Option<nat>>)
    requires Tracks(d, ends) && d.mode.Finished?
    ensures var q := if d.quit then |ends| else |ends| + 1;
            var e := Session(Begin(q), Ended(ends), q);
            e.mode.Finished? && e.attempts == d.attempts && e.seen == d.seen
  {
    hide Attempt;
    var m := |ends|;
    assert ends[..m] == ends;
    if !d.quit {
      SessionGoes(ends, m, m + 1);
    } else if m > 0 {
      SessionGoes(ends, m - 1, m);
      AttemptFields(Tried(ends[..m - 1]), ends[m - 1], false);
      AttemptFields(Tried(ends[..m - 1]), ends[m - 1], true);
    }
  }

  /** In every run of the whole protocol, a sender that has finished has made the attempts and kept the
      numbers that the sender's loops make and keep, given how its calls ended and whether a signal
      came; and every number they keep was issued to it by the primary, none twice. */
  lemma LoopsExplainSender(n: nat, acts: seq<Action>, s: nat)
    requires s < n
    ensures |Run(Init(n), acts).senders| == n
    ensures var st := Run(Init(n), acts);
            var d, ends := st.senders[s], Endings(n, acts, s);
            var q := if d.quit then |ends| else |ends| + 1;
            d.mode.Finished? ==>
              var e := Session(Begin(q), Ended(ends), q);
              && e.mode.Finished? && e.attempts == d.attempts == |ends| && e.seen == d.seen
              && Own(e.seen, s, st.issuedTo)
  {
    hide Session, Ended, Begin;
    RunTracks(n, acts, s);
    NumbersAreUnique(n, acts);
    var d := Run(Init(n), acts).senders[s];
    if d.mode.Finished? { SessionEnds(d, Endings(n, acts, s)); }
  }
}
