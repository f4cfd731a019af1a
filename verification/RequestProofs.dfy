/** Request numbers over every run: unique, counted up, bounded by the attempts, and exactly when they
    stay within 32-bit arithmetic. */
module RequestProofs {
  import opened RequestSpec

  /** The numbers told to a sender or on their way to it. */
  ghost function Numbers(d: Sender): multiset<nat> {
    multiset(d.seen) + multiset(d.replies)
  }

  /** They were issued to this sender, and none twice. */
  ghost predicate Numbered(d: Sender, s: nat, issuedTo: seq<Call>) {
    forall x :: x in Numbers(d) ==> Numbers(d)[x] == 1 && 1 <= x <= |issuedTo| && issuedTo[x - 1].s == s
  }

  /** A sender has made at most three attempts at each request before the current one, and at the
      current one those that failed and the one it waits for. */
  ghost predicate Bounded(d: Sender) {
    && 1 <= d.i <= REQUESTS + 1 && d.retry < MAX_RETRIES && |d.seen| < d.i
    && (!d.mode.Finished? ==> d.i <= REQUESTS)
    && (d.mode.Ready? ==> d.attempts <= MAX_RETRIES * (d.i - 1) + d.retry)
    && (d.mode.Waiting? ==> d.attempts <= MAX_RETRIES * (d.i - 1) + d.retry + 1)
    && d.attempts <= MAX_RETRIES * REQUESTS
  }

  function Attempts(d: seq<Sender>): nat {
    if d == [] then 0 else Attempts(d[..|d| - 1]) + d[|d| - 1].attempts
  }

  /** Successful calls, over all senders. */
  function Successes(d: seq<Sender>): nat {
    if d == [] then 0 else Successes(d[..|d| - 1]) + |d[|d| - 1].seen|
  }

  /** The same and the replies on their way. */
  function Told(d: seq<Sender>): nat {
    if d == [] then 0 else Told(d[..|d| - 1]) + |d[|d| - 1].seen| + |d[|d| - 1].replies|
  }

  ghost predicate Inv(st: State) {
    && st.count == |st.issuedTo|
    && st.count + |st.pending| <= Attempts(st.senders)
    && Told(st.senders) <= st.count
    && forall s :: 0 <= s < |st.senders| ==> Bounded(st.senders[s]) && Numbered(st.senders[s], s, st.issuedTo)
  }

  // ---- one step ----

  lemma {:induction false} SumsUpdate(d: seq<Sender>, s: nat, x: Sender)
    requires s < |d|
    ensures Attempts(d[s := x]) == Attempts(d) - d[s].attempts + x.attempts
    ensures Told(d[s := x]) == Told(d) - |d[s].seen| - |d[s].replies| + |x.seen| + |x.replies|
  {
    var n := |d| - 1;
    if s < n {
      SumsUpdate(d[..n], s, x);
      assert d[s := x][..n] == d[..n][s := x];
    } else {
      assert d[s := x][..n] == d[..n];
    }
  }

  lemma BoundedStep(d: Sender, a: Action, number: nat)
    requires Bounded(d) && (a.LoseReply? || a.Deliver? ==> a.k < |d.replies|)
    requires (a.Send? || a.SendFails? ==> d.mode.Ready?) && (a.Deliver? || a.Timeout? ==> d.mode.Waiting?)
    ensures Bounded(SenderNext(d, a, number))
    ensures SenderNext(d, a, number).attempts == d.attempts + if a.Send? || a.SendFails? then 1 else 0
    ensures var e := SenderNext(d, a, number);
            |e.seen| + |e.replies| == |d.seen| + |d.replies| + (if a.Handle? then 1 else if a.LoseReply? then -1 else 0)
  {
  }

  /** Delivery moves a number, loss removes one, and only the callback adds one. */
  lemma NumbersStep(d: Sender, a: Action, number: nat)
    requires a.LoseReply? || a.Deliver? ==> a.k < |d.replies|
    ensures Numbers(SenderNext(d, a, number))
         == if a.Handle? then Numbers(d) + multiset{number}
            else if a.LoseReply? then Numbers(d) - multiset{d.replies[a.k]}
            else Numbers(d)
  {
    if a.LoseReply? || a.Deliver? {
      hide Onward, Failed;
      WithoutOne(d.replies, a.k);
      if a.Deliver? {
        OnwardKeeps(d.(seen := d.seen + [d.replies[a.k]], replies := Without(d.replies, a.k)));
      }
    } else {
      OnwardKeeps(d);
    }
  }

  lemma WithoutOne(q: seq<nat>, k: nat)
    requires k < |q|
    ensures multiset(q) == multiset(Without(q, k)) + multiset{q[k]}
  {
    assert q == q[..k] + [q[k]] + q[k + 1..];
  }

  lemma OnwardKeeps(d: Sender)
    ensures Onward(d).seen == d.seen && Onward(d).replies == d.replies
  {
  }

  lemma NumberedStep(d: Sender, a: Action, s: nat, issuedTo: seq<Call>)
    requires a.s == s && Numbered(d, s, issuedTo) && (a.LoseReply? || a.Deliver? ==> a.k < |d.replies|)
    ensures Numbered(SenderNext(d, a, |issuedTo| + 1), s,
                     if a.Handle? then issuedTo + [Call(a.s, a.attempt)] else issuedTo)
  {
    hide Numbers, SenderNext;
    NumbersStep(d, a, |issuedTo| + 1);
    if a.Handle? {
      assert |issuedTo| + 1 !in Numbers(d);
    }
  }

  lemma NumberedMore(d: Sender, s: nat, issuedTo: seq<Call>, c: Call)
    requires Numbered(d, s, issuedTo)
    ensures Numbered(d, s, issuedTo + [c])
  {
  }

  lemma CountsStep(st: State, a: Action)
    requires Inv(st) && Enabled(st, a)
    ensures var t := Next(st, a);
            && t.count == |t.issuedTo| && |t.senders| == |st.senders|
            && t.count + |t.pending| <= Attempts(t.senders) && Told(t.senders) <= t.count
  {
    hide Bounded, Numbered, SenderNext;
    var d := st.senders[a.s];
    BoundedStep(d, a, st.count + 1);
    SumsUpdate(st.senders, a.s, SenderNext(d, a, st.count + 1));
  }

  lemma SenderStep(st: State, a: Action, s: nat)
    requires Enabled(st, a) && s < |st.senders| && st.count == |st.issuedTo|
    requires Bounded(st.senders[s]) && Numbered(st.senders[s], s, st.issuedTo)
    ensures var t := Next(st, a);
            |t.senders| == |st.senders| && Bounded(t.senders[s]) && Numbered(t.senders[s], s, t.issuedTo)
  {
    hide Bounded, Numbered, SenderNext;
    if s == a.s {
      BoundedStep(st.senders[s], a, st.count + 1);
      NumberedStep(st.senders[s], a, s, st.issuedTo);
    } else {
      NumberedMore(st.senders[s], s, st.issuedTo, Call(a.s, if a.Handle? then a.attempt else 0));
    }
  }

  lemma NextKeepsInv(st: State, a: Action)
    requires Inv(st)
    ensures Inv(Next(st, a)) && |Next(st, a).senders| == |st.senders|
  {
    if Enabled(st, a) {
      CountsStep(st, a);
      hide Bounded, Numbered, Next, Enabled, Attempts, Told;
      var t := Next(st, a);
      forall s | 0 <= s < |t.senders|
        ensures Bounded(t.senders[s]) && Numbered(t.senders[s], s, t.issuedTo)
      {
        SenderStep(st, a, s);
      }
    }
  }

  // ---- every run ----

  lemma {:induction false} Sums(d: seq<Sender>)
    requires forall s :: 0 <= s < |d| ==> Bounded(d[s])
    ensures Attempts(d) <= MAX_RETRIES * REQUESTS * |d| && Successes(d) <= Told(d)
    ensures (forall s :: 0 <= s < |d| ==> d[s] == FRESH) ==> Told(d) == 0
  {
    if d != [] {
      Sums(d[..|d| - 1]);
    }
  }

  lemma {:induction false} RunKeepsInv(n: nat, acts: seq<Action>)
    ensures Inv(Run(Init(n), acts)) && |Run(Init(n), acts).senders| == n
  {
    if acts == [] {
      Sums(Init(n).senders);
    } else {
      hide Inv, Next, Init;
      RunKeepsInv(n, acts[..|acts| - 1]);
      NextKeepsInv(Run(Init(n), acts[..|acts| - 1]), acts[|acts| - 1]);
    }
  }

  /** The numbers a sender was told were issued to it, and none is told twice. */
  ghost predicate Own(seen: seq<nat>, s: nat, issuedTo: seq<Call>) {
    && (forall i :: 0 <= i < |seen| ==> 1 <= seen[i] <= |issuedTo| && issuedTo[seen[i] - 1].s == s)
    && (forall i, j :: 0 <= i < j < |seen| ==> seen[i] != seen[j])
  }

  /** The numbers issued are 1 to count, each to one sender; a sender is told its own, none twice, and
      at most one per request. Successes <= count <= attempts made <= nine for each sender, less the
      requests still on their way. */
  lemma NumbersAreUnique(n: nat, acts: seq<Action>)
    ensures var st := Run(Init(n), acts);
            && st.count == |st.issuedTo| && |st.senders| == n
            && (forall s :: 0 <= s < n ==> Own(st.senders[s].seen, s, st.issuedTo) && |st.senders[s].seen| <= 3)
            && Successes(st.senders) <= st.count
            && st.count + |st.pending| <= Attempts(st.senders) <= 9 * n
  {
    hide Run, Own, Numbered;
    var st := Run(Init(n), acts);
    RunKeepsInv(n, acts);
    Sums(st.senders);
    forall s | 0 <= s < n ensures Own(st.senders[s].seen, s, st.issuedTo) {
      SeenOnce(st.senders[s], s, st.issuedTo);
    }
  }

  lemma SeenOnce(d: Sender, s: nat, issuedTo: seq<Call>)
    requires Numbered(d, s, issuedTo)
    ensures Own(d.seen, s, issuedTo)
  {
    var q := d.seen;
    forall i | 0 <= i < |q| ensures q[i] in Numbers(d) {
      assert q[i] in multiset(q);
    }
    forall i, j | 0 <= i < j < |q| ensures q[i] != q[j] {
      if q[i] == q[j] { CountedTwice(q, i, j); }
    }
  }

  lemma CountedTwice(q: seq<nat>, i: nat, j: nat)
    requires i < j < |q| && q[i] == q[j]
    ensures multiset(q)[q[i]] >= 2
  {
    assert q == q[..j] + q[j..] && q[..j][i] == q[i] && q[j..][0] == q[i];
  }

  // ---- a signal ----

  /** How many attempts a sender may still make once a signal has come: one, if it is past its tests. */
  function StillToMake(d: Sender): nat {
    if d.mode.Ready? then 1 else 0
  }

  lemma SignalStep(d: Sender, a: Action, number: nat)
    requires d.quit && (a.LoseReply? || a.Deliver? ==> a.k < |d.replies|)
    requires (a.Send? || a.SendFails? || a.Stop? ==> d.mode.Ready?) && (a.Deliver? || a.Timeout? ==> d.mode.Waiting?)
    ensures var e := SenderNext(d, a, number);
            && e.quit && e.attempts + StillToMake(e) <= d.attempts + StillToMake(d)
            && (d.mode.Finished? ==> e.mode.Finished?)
            && (a.Send? || a.SendFails? || a.Deliver? || a.Timeout? || a.Stop? ==> !e.mode.Ready?)
  {
  }

  lemma SignalNext(st: State, a: Action, s: nat)
    requires s < |st.senders| && st.senders[s].quit
    ensures var d, t := st.senders[s], Next(st, a);
            && |t.senders| == |st.senders| && t.senders[s].quit
            && t.senders[s].attempts + StillToMake(t.senders[s]) <= d.attempts + StillToMake(d)
  {
    hide SenderNext;
    if Enabled(st, a) && a.s == s { SignalStep(st.senders[s], a, st.count + 1); }
  }

  /** A signal stops a sender: from then on it makes at most the one attempt it was about to make, and
      none if it was waiting for an answer. */
  lemma {:induction false} SignalStops(st: State, acts: seq<Action>, s: nat)
    requires s < |st.senders| && st.senders[s].quit
    ensures var d, t := st.senders[s], Run(st, acts);
            && |t.senders| == |st.senders| && t.senders[s].quit
            && t.senders[s].attempts + StillToMake(t.senders[s]) <= d.attempts + StillToMake(d)
  {
    hide Next, StillToMake;
    if acts != [] {
      SignalStops(st, acts[..|acts| - 1], s);
      SignalNext(Run(st, acts[..|acts| - 1]), acts[|acts| - 1], s);
    }
  }

  // ---- the bound of nine is met, and 32-bit arithmetic ----

  /** j attempts of sender s, each answered only after it timed out. */
  function Storm(s: nat, j: nat): seq<Action> {
    if j == 0 then [] else Storm(s, j - 1) + [Send(s), Handle(s, j), Timeout(s)]
  }

  function Flood(n: nat): seq<Action> {
    if n == 0 then [] else Flood(n - 1) + Storm(n - 1, MAX_RETRIES * REQUESTS)
  }

  lemma RunOneMore(st: State, acts: seq<Action>, a: Action)
    ensures Run(st, acts + [a]) == Next(Run(st, acts), a)
  {
    assert (acts + [a])[..|acts|] == acts;
  }

  lemma RunNothing(st: State)
    ensures Run(st, []) == st
  {
  }

  lemma {:induction false} RunAppend(st: State, a: seq<Action>, b: seq<Action>)
    ensures Run(st, a + b) == Run(Run(st, a), b)
  {
    hide Next, Run;
    if b == [] {
      assert a + b == a;
      RunNothing(Run(st, a));
    } else {
      var front, last := b[..|b| - 1], b[|b| - 1];
      RunAppend(st, a, front);
      RunOneMore(st, a + front, last);
      RunOneMore(Run(st, a), front, last);
      assert front + [last] == b && a + front + [last] == a + b;
    }
  }

  /** What a sender is after j attempts that all failed. */
  function Tired(d: Sender, j: nat): Sender
    requires j <= MAX_RETRIES * REQUESTS
  {
    d.(i := 1 + j / MAX_RETRIES, retry := j % MAX_RETRIES,
       mode := if j < MAX_RETRIES * REQUESTS then Ready else Finished, attempts := j)
  }

  ghost predicate Stormed(st: State, t: State, s: nat, j: nat)
    requires s < |st.senders| && j <= MAX_RETRIES * REQUESTS
  {
    && t.count == st.count + j && t.pending == st.pending
    && |t.senders| == |st.senders|
    && t.senders[s].(replies := []) == Tired(FRESH, j)
    && forall r :: 0 <= r < |st.senders| && r != s ==> t.senders[r] == st.senders[r]
  }

  lemma SentAndHandled(t: State, s: nat)
    requires s < |t.senders| && t.senders[s].mode.Ready?
    ensures var d, k := t.senders[s], t.senders[s].attempts + 1;
            var u := Next(Next(t, Send(s)), Handle(s, k));
            && u.count == t.count + 1 && u.pending == t.pending && |u.senders| == |t.senders|
            && u.senders[s] == d.(mode := Waiting, attempts := k, replies := d.replies + [t.count + 1])
            && forall r :: 0 <= r < |t.senders| && r != s ==> u.senders[r] == t.senders[r]
  {
    var c, t1 := Call(s, t.senders[s].attempts + 1), Next(t, Send(s));
    assert t1.pending == t.pending + multiset{c};
    assert t1.pending - multiset{c} == t.pending;
  }

  lemma OneAttempt(st: State, t: State, s: nat, j: nat)
    requires s < |st.senders| && j < MAX_RETRIES * REQUESTS && Stormed(st, t, s, j)
    ensures Stormed(st, Next(Next(Next(t, Send(s)), Handle(s, j + 1)), Timeout(s)), s, j + 1)
  {
    TiredReady(t.senders[s], j);
    hide Failed, Next, Tired;
    var u := Next(Next(t, Send(s)), Handle(s, j + 1));
    SentAndHandled(t, s);
    TimedOutOnce(u, s);
    FailedOnce(u.senders[s], j);
  }

  lemma TiredReady(d: Sender, j: nat)
    requires j < MAX_RETRIES * REQUESTS && d.(replies := []) == Tired(FRESH, j)
    ensures d.mode.Ready? && d.attempts == j && d == Tired(FRESH, j).(replies := d.replies)
  {
  }

  lemma FailedOnce(e: Sender, j: nat)
    requires j < MAX_RETRIES * REQUESTS
    requires e == Tired(FRESH, j).(mode := Waiting, attempts := j + 1, replies := e.replies)
    ensures Failed(e).(replies := []) == Tired(FRESH, j + 1)
  {
  }

  lemma TimedOutOnce(t: State, s: nat)
    requires s < |t.senders| && t.senders[s].mode.Waiting?
    ensures var v := Next(t, Timeout(s));
            && v.count == t.count && v.pending == t.pending && |v.senders| == |t.senders|
            && v.senders[s] == Failed(t.senders[s])
            && forall r :: 0 <= r < |t.senders| && r != s ==> v.senders[r] == t.senders[r]
  {
  }

  lemma RunAttempt(st: State, acts: seq<Action>, s: nat, k: nat)
    ensures Run(st, acts + [Send(s), Handle(s, k), Timeout(s)])
         == Next(Next(Next(Run(st, acts), Send(s)), Handle(s, k)), Timeout(s))
  {
    hide Next, Run;
    RunOneMore(st, acts, Send(s));
    RunOneMore(st, acts + [Send(s)], Handle(s, k));
    RunOneMore(st, acts + [Send(s)] + [Handle(s, k)], Timeout(s));
    assert acts + [Send(s)] + [Handle(s, k)] + [Timeout(s)] == acts + [Send(s), Handle(s, k), Timeout(s)];
  }

  lemma {:induction false} StormCounts(st: State, s: nat, j: nat)
    requires s < |st.senders| && j <= MAX_RETRIES * REQUESTS && st.senders[s] == FRESH
    ensures Stormed(st, Run(st, Storm(s, j)), s, j)
  {
    hide Next, Run;
    if j > 0 {
      StormCounts(st, s, j - 1);
      hide Stormed;
      OneAttempt(st, Run(st, Storm(s, j - 1)), s, j - 1);
      RunAttempt(st, Storm(s, j - 1), s, j);
    } else {
      RunNothing(st);
    }
  }

  ghost predicate Flooded(t: State, n: nat, k: nat) {
    && t.count == MAX_RETRIES * REQUESTS * k && |t.senders| == n
    && forall s :: k <= s < n ==> t.senders[s] == FRESH
  }

  lemma {:induction false} FloodCounts(n: nat, k: nat)
    requires k <= n
    ensures Flooded(Run(Init(n), Flood(k)), n, k)
  {
    hide Run, Storm, Next, Tired;
    if k == 0 {
      RunNothing(Init(n));
    } else {
      hide Init;
      FloodCounts(n, k - 1);
      StormCounts(Run(Init(n), Flood(k - 1)), k - 1, MAX_RETRIES * REQUESTS);
      RunAppend(Init(n), Flood(k - 1), Storm(k - 1, MAX_RETRIES * REQUESTS));
    }
  }

  const INT_MAX: int := 0x7FFF_FFFF

  /** The callback's largest product fits in a 32-bit int in every run, exactly up to 3640 senders. */
  lemma ReplyFitsIff(n: nat)
    ensures (forall acts :: Run(Init(n), acts).count * 65536 <= INT_MAX) <==> n <= 3640
  {
    if n <= 3640 {
      forall acts ensures Run(Init(n), acts).count * 65536 <= INT_MAX {
        NumbersAreUnique(n, acts);
      }
    } else {
      FloodCounts(n, n);
      assert Run(Init(n), Flood(n)).count * 65536 > INT_MAX;
    }
  }
}
