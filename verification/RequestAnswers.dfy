/** Which call an answer is to: exactly when every answer is to the call that waits for it. */
module RequestAnswers {
  import opened RequestSpec
  import opened RequestProofs

  /** The attempt whose request got number x. */
  function AttemptOf(st: State, x: nat): nat {
    if 1 <= x <= |st.issuedTo| then st.issuedTo[x - 1].attempt else 0
  }

  /** Every call of sender s that was answered was answered with the reply to its own request. */
  ghost predicate OwnAnswers(n: nat, acts: seq<Action>, s: nat) {
    acts != [] ==>
      var front, a := acts[..|acts| - 1], acts[|acts| - 1];
      var st := Run(Init(n), front);
      && OwnAnswers(n, front, s)
      && (Enabled(st, a) && a.s == s && a.Deliver? ==>
            AttemptOf(st, st.senders[s].replies[a.k]) == st.senders[s].attempts)
  }

  /** The attempts of sender s that have timed out. */
  function TimedOut(n: nat, acts: seq<Action>, s: nat): set<nat> {
    if acts == [] then {}
    else
      var front, a := acts[..|acts| - 1], acts[|acts| - 1];
      var st := Run(Init(n), front);
      TimedOut(n, front, s) + if Enabled(st, a) && a == Timeout(s) then {st.senders[s].attempts} else {}
  }

  /** No reply to an attempt that had timed out was delivered to sender s. */
  ghost predicate NoneTooLate(n: nat, acts: seq<Action>, s: nat) {
    acts != [] ==>
      var front, a := acts[..|acts| - 1], acts[|acts| - 1];
      var st := Run(Init(n), front);
      && NoneTooLate(n, front, s)
      && (Enabled(st, a) && a.s == s && a.Deliver? ==>
            AttemptOf(st, st.senders[s].replies[a.k]) !in TimedOut(n, front, s))
  }

  // ---- every call is made, handled and answered at most once ----

  ghost predicate Made(st: State, c: Call) {
    c.s < |st.senders| && c.attempt <= st.senders[c.s].attempts
  }

  ghost predicate CallsOnce(st: State) {
    && (forall c :: c in st.pending ==> st.pending[c] == 1 && c !in st.issuedTo && Made(st, c))
    && (forall i :: 0 <= i < |st.issuedTo| ==> Made(st, st.issuedTo[i]))
    && (forall i, j :: 0 <= i < j < |st.issuedTo| ==> st.issuedTo[i] != st.issuedTo[j])
  }

  lemma MadeStays(st: State, a: Action, c: Call)
    requires Made(st, c)
    ensures Made(Next(st, a), c)
  {
  }

  lemma CallsStep(st: State, a: Action)
    requires CallsOnce(st)
    ensures CallsOnce(Next(st, a))
  {
    var t := Next(st, a);
    if Enabled(st, a) {
      if a.Send? { NewCall(st, a.s); }
      hide SenderNext;
      forall c | Made(st, c) ensures Made(t, c) { MadeStays(st, a, c); }
    }
  }

  lemma NewCall(st: State, s: nat)
    requires Enabled(st, Send(s))
    ensures var c := Call(s, st.senders[s].attempts + 1); Made(Next(st, Send(s)), c) && !Made(st, c)
  {
  }

  // ---- what is still on its way ----

  /** Of the call that waits, or of one that has timed out. */
  ghost predicate Live(d: Sender, late: set<nat>, attempt: nat) {
    (d.mode.Waiting? && attempt == d.attempts) || attempt in late
  }

  ghost predicate AllLive(st: State, s: nat, late: set<nat>)
    requires s < |st.senders|
  {
    var d := st.senders[s];
    && (forall c :: c in st.pending && c.s == s ==> Live(d, late, c.attempt))
    && (forall x :: x in multiset(d.replies) ==> Live(d, late, AttemptOf(st, x)))
  }

  ghost predicate Past(d: Sender, late: set<nat>) {
    forall t :: t in late ==> if d.mode.Waiting? then t < d.attempts else t <= d.attempts
  }

  lemma PastStep(d: Sender, a: Action, number: nat, late: set<nat>)
    requires Past(d, late) && (a.LoseReply? || a.Deliver? ==> a.k < |d.replies|)
    requires (a.Send? || a.SendFails? || a.Stop? ==> d.mode.Ready?) && (a.Deliver? || a.Timeout? ==> d.mode.Waiting?)
    ensures Past(SenderNext(d, a, number), late + if a.Timeout? then {d.attempts} else {})
  {
  }

  /** What a step of the sender does to it and what was live before. */
  lemma LiveStays(d: Sender, a: Action, number: nat, late: set<nat>, t: nat)
    requires Live(d, late, t) && (a.LoseReply? || a.Deliver? ==> a.k < |d.replies|)
    requires (a.Send? || a.SendFails? || a.Stop? ==> d.mode.Ready?) && (a.Deliver? || a.Timeout? ==> d.mode.Waiting?)
    requires a.Deliver? ==> t != d.attempts
    ensures Live(SenderNext(d, a, number), late + if a.Timeout? then {d.attempts} else {}, t)
  {
  }

  lemma RepliesStep(d: Sender, a: Action, number: nat, x: nat)
    requires (a.LoseReply? || a.Deliver? ==> a.k < |d.replies|) && x in multiset(SenderNext(d, a, number).replies)
    ensures (a.Handle? && x == number) || x in multiset(d.replies)
    ensures a.Deliver? && multiset(d.replies)[d.replies[a.k]] == 1 ==> x != d.replies[a.k]
  {
    if a.LoseReply? || a.Deliver? { WithoutOne(d.replies, a.k); }
    if a.Deliver? {
      OnwardKeeps(d.(seen := d.seen + [d.replies[a.k]], replies := Without(d.replies, a.k)));
    } else {
      OnwardKeeps(d);
    }
  }

  /** A reply under way has a number that was issued to its sender, and no other has it. */
  lemma ReplyNumbered(d: Sender, s: nat, issuedTo: seq<Call>, x: nat)
    requires Numbered(d, s, issuedTo) && x in multiset(d.replies)
    ensures 1 <= x <= |issuedTo| && issuedTo[x - 1].s == s && multiset(d.replies)[x] == 1
  {
    assert x in Numbers(d);
  }

  /** No other request has the attempt of a call that has just been answered with its own reply. */
  lemma AnsweredIsGone(st: State, s: nat, k: nat, late: set<nat>)
    requires Inv(st) && CallsOnce(st) && Enabled(st, Deliver(s, k))
    requires AttemptOf(st, st.senders[s].replies[k]) == st.senders[s].attempts
    ensures forall c :: c in st.pending && c.s == s ==> c.attempt != st.senders[s].attempts
    ensures forall y :: y in multiset(st.senders[s].replies) && y != st.senders[s].replies[k] ==>
              AttemptOf(st, y) != st.senders[s].attempts
  {
    hide Bounded, Numbered;
    var d, x := st.senders[s], st.senders[s].replies[k];
    assert x in multiset(d.replies);
    ReplyNumbered(d, s, st.issuedTo, x);
    assert st.issuedTo[x - 1] == Call(s, d.attempts) && st.issuedTo[x - 1] in st.issuedTo;
    forall y | y in multiset(d.replies) && y != x ensures AttemptOf(st, y) != d.attempts {
      ReplyNumbered(d, s, st.issuedTo, y);
      assert st.issuedTo[y - 1] != st.issuedTo[x - 1];
    }
  }

  /** The conditions a step of sender s's own must meet, and its effect on requests and numbers. */
  lemma OthersLive(st: State, a: Action, s: nat, late: set<nat>)
    requires Inv(st) && s < |st.senders| && AllLive(st, s, late) && Enabled(st, a) && a.s != s
    ensures |Next(st, a).senders| == |st.senders| && AllLive(Next(st, a), s, late)
  {
    hide SenderNext, Live, Bounded, Numbered;
    var d, t := st.senders[s], Next(st, a);
    forall x | x in multiset(d.replies) ensures AttemptOf(t, x) == AttemptOf(st, x) {
      ReplyNumbered(d, s, st.issuedTo, x);
    }
  }

  lemma OwnLive(st: State, a: Action, s: nat, late: set<nat>)
    requires Inv(st) && CallsOnce(st) && s < |st.senders| && AllLive(st, s, late) && Enabled(st, a) && a.s == s
    requires a.Deliver? ==> AttemptOf(st, st.senders[s].replies[a.k]) == st.senders[s].attempts
    ensures |Next(st, a).senders| == |st.senders|
    ensures AllLive(Next(st, a), s, late + if a.Timeout? then {st.senders[s].attempts} else {})
  {
    hide SenderNext, Live, Bounded, Numbered, CallsOnce;
    var d, t := st.senders[s], Next(st, a);
    var later := late + if a.Timeout? then {d.attempts} else {};
    if a.Deliver? { AnsweredIsGone(st, s, a.k, late); }
    forall c | c in t.pending && c.s == s ensures Live(t.senders[s], later, c.attempt) {
      if c in st.pending {
        LiveStays(d, a, st.count + 1, late, c.attempt);
      } else {
        SentIsLive(d, st.count + 1, s, later);
      }
    }
    forall x | x in multiset(t.senders[s].replies) ensures Live(t.senders[s], later, AttemptOf(t, x)) {
      RepliesStep(d, a, st.count + 1, x);
      if x in multiset(d.replies) {
        ReplyNumbered(d, s, st.issuedTo, x);
        if a.Deliver? { ReplyNumbered(d, s, st.issuedTo, d.replies[a.k]); }
        LiveStays(d, a, st.count + 1, late, AttemptOf(st, x));
      } else {
        LiveStays(d, a, st.count + 1, late, a.attempt);
      }
    }
  }

  lemma SentIsLive(d: Sender, number: nat, s: nat, late: set<nat>)
    ensures Live(SenderNext(d, Send(s), number), late, d.attempts + 1)
  {
  }

  // ---- the theorem ----

  ghost predicate Sound(st: State, s: nat, late: set<nat>) {
    CallsOnce(st) && s < |st.senders| && Past(st.senders[s], late)
  }

  lemma SoundStep(st: State, a: Action, s: nat, late: set<nat>)
    requires Sound(st, s, late)
    ensures Sound(Next(st, a), s, late + if Enabled(st, a) && a == Timeout(s) then {st.senders[s].attempts} else {})
  {
    hide CallsOnce, Past, SenderNext;
    CallsStep(st, a);
    if Enabled(st, a) && a.s == s { PastStep(st.senders[s], a, st.count + 1, late); }
    assert late + {} == late;
  }

  /** While all answers so far were own, a delivery is own exactly when its attempt has not timed out. */
  lemma OwnIffNotLate(st: State, a: Action, s: nat, late: set<nat>)
    requires Sound(st, s, late) && AllLive(st, s, late) && Enabled(st, a) && a.s == s && a.Deliver?
    ensures var x := AttemptOf(st, st.senders[s].replies[a.k]); x == st.senders[s].attempts <==> x !in late
  {
    assert st.senders[s].replies[a.k] in multiset(st.senders[s].replies);
  }

  /** The exact condition: in every run, every call of a sender that was answered was answered with the
      reply to its own request if and only if no reply to an attempt that had timed out was delivered. */
  lemma {:induction false} OwnAnswersIffNoneTooLate(n: nat, acts: seq<Action>, s: nat)
    requires s < n
    ensures Sound(Run(Init(n), acts), s, TimedOut(n, acts, s))
    ensures OwnAnswers(n, acts, s) ==> AllLive(Run(Init(n), acts), s, TimedOut(n, acts, s))
    ensures OwnAnswers(n, acts, s) <==> NoneTooLate(n, acts, s)
  {
    hide Next, Enabled, Inv, AttemptOf;
    if acts != [] {
      hide Sound, AllLive, Init;
      var front, a := acts[..|acts| - 1], acts[|acts| - 1];
      var st, late := Run(Init(n), front), TimedOut(n, front, s);
      OwnAnswersIffNoneTooLate(n, front, s);
      RunKeepsInv(n, front);
      SoundStep(st, a, s, late);
      if OwnAnswers(n, front, s) { LiveOn(st, a, s, late); }
    }
  }

  /** One step further, as long as it answers no call with another's reply. */
  lemma LiveOn(st: State, a: Action, s: nat, late: set<nat>)
    requires Inv(st) && Sound(st, s, late) && AllLive(st, s, late)
    ensures var own := Enabled(st, a) && a.s == s;
            && |Next(st, a).senders| == |st.senders|
            && (own && a.Deliver? ==>
                  (AttemptOf(st, st.senders[s].replies[a.k]) == st.senders[s].attempts
                   <==> AttemptOf(st, st.senders[s].replies[a.k]) !in late))
            && ((own && a.Deliver? ==> AttemptOf(st, st.senders[s].replies[a.k]) == st.senders[s].attempts) ==>
                  AllLive(Next(st, a), s,
                          late + if Enabled(st, a) && a == Timeout(s) then {st.senders[s].attempts} else {}))
  {
    hide AllLive, AttemptOf, Inv, CallsOnce, Past, SenderNext;
    assert late + {} == late;
    if Enabled(st, a) {
      if a.s != s {
        OthersLive(st, a, s, late);
      } else {
        if a.Deliver? { OwnIffNotLate(st, a, s, late); }
        if a.Deliver? ==> AttemptOf(st, st.senders[s].replies[a.k]) == st.senders[s].attempts {
          OwnLive(st, a, s, late);
        }
      }
    }
  }
}
