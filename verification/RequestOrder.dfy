/** The order in which a sender is told its numbers: exactly when it rises. */
module RequestOrder {
  import opened Basics
  import opened RequestSpec
  import opened RequestProofs

  /** How many replies at the front of the queue of sender s a delivery has overtaken. */
  function Behind(n: nat, acts: seq<Action>, s: nat): nat {
    if acts == [] then 0
    else
      var front, a := acts[..|acts| - 1], acts[|acts| - 1];
      var b := Behind(n, front, s);
      if !Enabled(Run(Init(n), front), a) || a.s != s then b else BehindAfter(b, a)
  }

  function BehindAfter(b: nat, a: Action): nat {
    match a
    case Deliver(_, k) => k
    case LoseReply(_, k) => if k < b then b - 1 else b
    case _ => b
  }

  /** No call of sender s is answered by a reply that was overtaken before. */
  ghost predicate NoLateDelivery(n: nat, acts: seq<Action>, s: nat) {
    acts != [] ==>
      var front, a := acts[..|acts| - 1], acts[|acts| - 1];
      && NoLateDelivery(n, front, s)
      && (Enabled(Run(Init(n), front), a) && a.s == s && a.Deliver? ==> a.k >= Behind(n, front, s))
  }

  /** The queue rises, and the replies overtaken are those below the last number told. */
  ghost predicate Queued(d: Sender, count: nat, b: nat) {
    && Increasing(d.replies) && (forall i :: 0 <= i < |d.replies| ==> d.replies[i] <= count)
    && (d.seen == [] ==> b == 0)
    && (d.seen != [] ==> Splits(d.replies, d.seen[|d.seen| - 1], b) && d.seen[|d.seen| - 1] <= count)
  }

  ghost predicate Splits(q: seq<nat>, last: nat, b: nat) {
    b <= |q| && forall i :: 0 <= i < |q| ==> if i < b then q[i] < last else last < q[i]
  }

  lemma QueuedLoss(d: Sender, count: nat, b: nat, k: nat)
    requires Queued(d, count, b) && k < |d.replies|
    ensures Queued(d.(replies := Without(d.replies, k)), count, if k < b then b - 1 else b)
  {
  }

  lemma QueuedMore(d: Sender, count: nat, b: nat)
    requires Queued(d, count, b)
    ensures Queued(d.(replies := d.replies + [count + 1]), count + 1, b)
  {
  }

  lemma QueuedAnswer(d: Sender, count: nat, b: nat, k: nat)
    requires Queued(d, count, b) && k < |d.replies|
    ensures Queued(d.(seen := d.seen + [d.replies[k]], replies := Without(d.replies, k)), count, k)
  {
  }

  /** The numbers told go on rising exactly when the answer was not overtaken. */
  lemma AnswerRises(d: Sender, count: nat, b: nat, k: nat)
    requires Queued(d, count, b) && k < |d.replies|
    ensures Increasing(d.seen + [d.replies[k]]) <==> Increasing(d.seen) && k >= b
  {
    var e := d.seen + [d.replies[k]];
    var m := |d.seen|;
    if Increasing(e) {
      assert forall i :: 0 <= i < m ==> e[i] == d.seen[i];
      if m > 0 { assert e[m - 1] < e[m]; }
    }
    if Increasing(d.seen) && k >= b {
      forall i, j | 0 <= i < j < |e| ensures e[i] < e[j] {
        assert d.seen[i] <= d.seen[m - 1];
      }
    }
  }

  /** What of a sender the queue and the numbers told depend on. */
  lemma QueuedSame(d: Sender, e: Sender, count: nat, b: nat)
    requires Queued(d, count, b) && e.seen == d.seen && e.replies == d.replies
    ensures Queued(e, count, b)
  {
  }

  lemma QueuedStep(d: Sender, a: Action, count: nat, b: nat)
    requires Queued(d, count, b) && (a.LoseReply? || a.Deliver? ==> a.k < |d.replies|)
    ensures var e := SenderNext(d, a, count + 1);
            && Queued(e, if a.Handle? then count + 1 else count, BehindAfter(b, a))
            && (Increasing(e.seen) <==> Increasing(d.seen) && (a.Deliver? ==> a.k >= b))
  {
    hide Queued, Increasing, Onward;
    match a
    case LoseReply(_, k) => QueuedLoss(d, count, b, k);
    case Handle(_, _) => QueuedMore(d, count, b);
    case Deliver(_, k) =>
      AnswerRises(d, count, b, k);
      QueuedAnswer(d, count, b, k);
      var answered := d.(seen := d.seen + [d.replies[k]], replies := Without(d.replies, k));
      OnwardKeeps(answered);
      QueuedSame(answered, Onward(answered), count, k);
    case _ =>
      var e := SenderNext(d, a, count + 1);
      OtherKeeps(d, a, count + 1);
      QueuedSame(d, e, count, b);
  }

  lemma OtherKeeps(d: Sender, a: Action, number: nat)
    requires !a.LoseReply? && !a.Handle? && !a.Deliver?
    ensures SenderNext(d, a, number).seen == d.seen && SenderNext(d, a, number).replies == d.replies
  {
  }

  lemma QueuedGrows(d: Sender, count: nat, b: nat)
    requires Queued(d, count, b)
    ensures Queued(d, count + 1, b)
  {
  }

  lemma QueuedNext(st: State, a: Action, s: nat, b: nat)
    requires s < |st.senders| && Queued(st.senders[s], st.count, b)
    ensures var t := Next(st, a);
            var own := Enabled(st, a) && a.s == s;
            && |t.senders| == |st.senders|
            && Queued(t.senders[s], t.count, if own then BehindAfter(b, a) else b)
            && (Increasing(t.senders[s].seen) <==>
                  Increasing(st.senders[s].seen) && (own && a.Deliver? ==> a.k >= b))
  {
    hide SenderNext, Queued, Increasing, BehindAfter;
    if Enabled(st, a) {
      if a.s == s {
        QueuedStep(st.senders[s], a, st.count, b);
      } else if a.Handle? {
        QueuedGrows(st.senders[s], st.count, b);
      }
    }
  }

  /** The exact order: in every run, whatever is lost or late, the numbers a sender is told go up if and
      only if no reply that a delivery overtook answers a later call. */
  lemma {:induction false} RisesIffNoLateDelivery(n: nat, acts: seq<Action>, s: nat)
    requires s < n
    ensures |Run(Init(n), acts).senders| == n
    ensures Queued(Run(Init(n), acts).senders[s], Run(Init(n), acts).count, Behind(n, acts, s))
    ensures Increasing(Run(Init(n), acts).senders[s].seen) <==> NoLateDelivery(n, acts, s)
  {
    hide Next, Enabled, BehindAfter;
    if acts != [] {
      hide Queued, Increasing, Init;
      var front := acts[..|acts| - 1];
      RisesIffNoLateDelivery(n, front, s);
      QueuedNext(Run(Init(n), front), acts[|acts| - 1], s, Behind(n, front, s));
    }
  }

  /** Every reply delivered to sender s is the first in its queue. */
  ghost predicate InOrder(acts: seq<Action>, s: nat) {
    forall i :: 0 <= i < |acts| && acts[i].Deliver? && acts[i].s == s ==> acts[i].k == 0
  }

  lemma {:induction false} InOrderOvertakesNone(n: nat, acts: seq<Action>, s: nat)
    requires InOrder(acts, s)
    ensures NoLateDelivery(n, acts, s) && Behind(n, acts, s) == 0
  {
    hide Run, Init, Enabled;
    if acts != [] { InOrderOvertakesNone(n, acts[..|acts| - 1], s); }
  }

  /** In particular, in-order delivery to a sender is enough. */
  lemma InOrderRises(n: nat, acts: seq<Action>, s: nat)
    requires InOrder(acts, s) && s < n
    ensures |Run(Init(n), acts).senders| == n && Increasing(Run(Init(n), acts).senders[s].seen)
  {
    InOrderOvertakesNone(n, acts, s);
    RisesIffNoLateDelivery(n, acts, s);
  }

  // ---- a run that does not rise ----

  function Overtaken(): seq<Action> {
    [Send(0), Handle(0, 1), Timeout(0)] + [Send(0)] + [Handle(0, 2)] + [Deliver(0, 1)] + [Send(0)] + [Deliver(0, 0)]
  }

  /** The first call times out and its reply, 1, is still on its way. */
  lemma LateReply(st: State)
    requires st == State(0, [], multiset{}, [FRESH])
    ensures Next(Next(Next(st, Send(0)), Handle(0, 1)), Timeout(0))
         == State(1, [Call(0, 1)], multiset{}, [Sender(1, 1, Ready, false, 1, [], [1])])
  {
    var t, c := Next(st, Send(0)), Call(0, 1);
    assert t == State(0, [], multiset{c}, [Sender(1, 0, Waiting, false, 1, [], [])]);
    assert multiset{c} - multiset{c} == multiset{};
    var u := Next(t, Handle(0, 1));
    assert u.issuedTo == [c] && u.senders[0].replies == [1];
    assert u == State(1, [c], multiset{}, [Sender(1, 0, Waiting, false, 1, [], [1])]);
  }

  /** The retry is answered. */
  lemma RetryAnswered(st: State)
    requires st == State(1, [Call(0, 1)], multiset{}, [Sender(1, 1, Ready, false, 1, [], [1])])
    ensures Next(Next(Next(st, Send(0)), Handle(0, 2)), Deliver(0, 1))
         == State(2, [Call(0, 1), Call(0, 2)], multiset{}, [Sender(2, 0, Ready, false, 2, [2], [1])])
  {
    var t, c := Next(st, Send(0)), Call(0, 2);
    assert t == State(1, [Call(0, 1)], multiset{c}, [Sender(1, 1, Waiting, false, 2, [], [1])]);
    assert multiset{c} - multiset{c} == multiset{};
    var u := Next(t, Handle(0, 2));
    assert u.issuedTo == [Call(0, 1), c] && u.senders[0].replies == [1, 2];
    assert u == State(2, [Call(0, 1), c], multiset{}, [Sender(1, 1, Waiting, false, 2, [], [1, 2])]);
    var v := Next(u, Deliver(0, 1));
    assert v.senders[0].seen == [2] && v.senders[0].replies == [1];
  }

  /** Then the late reply, overtaken by a newer one, answers the next call. */
  lemma LateAnswer(st: State)
    requires st == State(2, [Call(0, 1), Call(0, 2)], multiset{}, [Sender(2, 0, Ready, false, 2, [2], [1])])
    ensures var t := Next(Next(st, Send(0)), Deliver(0, 0)); |t.senders| == 1 && t.senders[0].seen == [2, 1]
  {
    var t := Next(st, Send(0));
    assert t.senders == [Sender(2, 0, Waiting, false, 3, [2], [1])];
  }

  /** A run with a late delivery: the sender is told 2 and then 1. */
  lemma OvertakingDisorders()
    ensures var st := Run(Init(1), Overtaken()); |st.senders| == 1 && st.senders[0].seen == [2, 1]
  {
    hide Run, Next;
    var st, a := Init(1), [Send(0), Handle(0, 1), Timeout(0)];
    LateReply(st);
    RunAttempt(st, [], 0, 1);
    RunNothing(st);
    assert [] + a == a;
    RetryAnswered(Run(st, a));
    LateAnswer(Next(Next(Next(Run(st, a), Send(0)), Handle(0, 2)), Deliver(0, 1)));
    RunOneMore(st, a, Send(0));
    RunOneMore(st, a + [Send(0)], Handle(0, 2));
    RunOneMore(st, a + [Send(0)] + [Handle(0, 2)], Deliver(0, 1));
    RunOneMore(st, a + [Send(0)] + [Handle(0, 2)] + [Deliver(0, 1)], Send(0));
    RunOneMore(st, a + [Send(0)] + [Handle(0, 2)] + [Deliver(0, 1)] + [Send(0)], Deliver(0, 0));
  }
}
