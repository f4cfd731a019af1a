/** The split loop keeps the plain loop's meaning; the counter counts every packet once. */
module PrefetchProofs {
  import opened PrefetchSpec

  // ---- logs ----

  lemma LogMore(log: seq<Event>, e: Event)
    ensures Prefetched(log + [e]) == Prefetched(log) + if e.Prefetch? then [e.p] else []
    ensures Processed(log + [e]) == Processed(log) + if e.Process? then [e.p] else []
    ensures Freed(log + [e]) == Freed(log) + if e.Free? then [e.p] else []
  {
    assert (log + [e])[..|log|] == log;
  }

  /** Only the processing order matters. */
  lemma {:induction false} EffectIsFold<S>(log: seq<Event>, f: (S, Packet) -> S, s: S)
    ensures Effect(log, f, s) == Effect(Processes(Processed(log)), f, s)
  {
    if log != [] {
      var front, e := log[..|log| - 1], log[|log| - 1];
      EffectIsFold(front, f, s);
      var q := Processed(front);
      if e.Process? {
        assert Processes(q + [e.p])[..|q|] == Processes(q);
      } else {
        assert Processed(log) == q;
      }
    } else {
      assert Processes([]) == [];
    }
  }

  /** Every packet processed counts, once and in its turn: an effect that only lists them lists them
      all. */
  lemma {:induction false} EffectListsAll(log: seq<Event>)
    ensures Effect(log, (q: seq<Packet>, p: Packet) => q + [p], []) == Processed(log)
  {
    if log != [] { EffectListsAll(log[..|log| - 1]); }
  }

  lemma {:induction false} FoldSnoc<S>(b: seq<Packet>, p: Packet, f: (S, Packet) -> S, s: S)
    ensures Fold(b + [p], f, s) == f(Fold(b, f, s), p)
  {
    if b == [] {
      assert [] + [p] == [p] && [p][1..] == [];
    } else {
      assert (b + [p])[1..] == b[1..] + [p];
      FoldSnoc(b[1..], p, f, f(s, b[0]));
    }
  }

  /** The effect of a log is that of the packets processed, one after another from the first. */
  lemma {:induction false} EffectFolds<S>(log: seq<Event>, f: (S, Packet) -> S, s: S)
    ensures Effect(log, f, s) == Fold(Processed(log), f, s)
  {
    if log != [] {
      var front, e := log[..|log| - 1], log[|log| - 1];
      EffectFolds(front, f, s);
      if e.Process? {
        FoldSnoc(Processed(front), e.p, f, s);
      } else {
        assert Processed(log) == Processed(front);
      }
    }
  }

  lemma {:induction false} ProcessesAll(b: seq<Packet>, k: nat)
    requires k <= |b|
    ensures Processed(Processes(b)[..k]) == b[..k]
  {
    if k > 0 {
      ProcessesAll(b, k - 1);
      assert Processes(b)[..k][..k - 1] == Processes(b)[..k - 1];
      assert b[..k] == b[..k - 1] + [b[k - 1]];
    }
  }

  /** Any log that processes the burst in order has the plain loop's effect. */
  lemma SameAsPlain<S>(log: seq<Event>, b: seq<Packet>, f: (S, Packet) -> S, s: S)
    requires Processed(log) == b
    ensures Effect(log, f, s) == Effect(Plain(b), f, s) == Fold(b, f, s)
  {
    EffectFolds(log, f, s);
    EffectIsFold(log, f, s);
    FreesDoNothing(b, f, s, |b|);
    assert Frees(b)[..|b|] == Frees(b);
  }

  lemma {:induction false} FreesDoNothing<S>(b: seq<Packet>, f: (S, Packet) -> S, s: S, k: nat)
    requires k <= |b|
    ensures Effect(Processes(b) + Frees(b)[..k], f, s) == Effect(Processes(b), f, s)
  {
    var log := Processes(b) + Frees(b)[..k];
    if k == 0 {
      assert log == Processes(b);
    } else {
      FreesDoNothing(b, f, s, k - 1);
      assert log[..|log| - 1] == Processes(b) + Frees(b)[..k - 1];
    }
  }

  lemma OrderlyMore(log: seq<Event>, e: Event, b: seq<Packet>, ahead: nat)
    requires AlwaysOrderly(log, b, ahead) && Orderly(log + [e], b, ahead)
    ensures AlwaysOrderly(log + [e], b, ahead)
  {
    forall k | 0 <= k <= |log + [e]| ensures Orderly((log + [e])[..k], b, ahead) {
      if k <= |log| {
        assert (log + [e])[..k] == log[..k];
      } else {
        assert (log + [e])[..k] == log + [e];
      }
    }
  }

  // ---- the counter ----

  /** Time only goes up. */
  ghost predicate Rising(t0: nat, polls: seq<Poll>) {
    && (forall i :: 0 <= i < |polls| ==> t0 <= polls[i].now)
    && (forall i, j :: 0 <= i < j < |polls| ==> polls[i].now <= polls[j].now)
  }

  /** When the last report was made, or the loop began. */
  function LastReport(t0: nat, reports: seq<Report>): nat {
    if reports == [] then t0 else reports[|reports| - 1].at
  }

  lemma ModSum(a: int, b: int)
    ensures (a % U64 + b) % U64 == (a + b) % U64
  {
    var q := a / U64;
    assert a % U64 + b == a + b - q * U64;
    ModShift(a + b, -q);
  }

  lemma {:induction false} ModShift(a: int, k: int)
    ensures (a + k * U64) % U64 == a % U64
    decreases if k < 0 then -k else k
  {
    if k > 0 {
      ModShift(a, k - 1);
      assert (a + k * U64) == (a + (k - 1) * U64) + U64;
    } else if k < 0 {
      ModShift(a, k + 1);
      assert (a + k * U64) == (a + (k + 1) * U64) - U64;
    }
  }

  lemma ModDiff(a: int, b: int)
    ensures (a % U64 - b % U64) % U64 == (a - b) % U64
  {
    ModSum(a, -(b % U64));
    ModSum(-b, a);
    ModShift(a - b, b / U64);
    assert a - b % U64 == a - b + (b / U64) * U64;
  }

  /** The sums before and after a burst of n: `r` reported, the 64-bit total `t` and last `l`, and `s`
      received in truth. */
  ghost predicate Balanced(r: int, t: int, l: int, s: int) {
    && t == s % U64 && 0 <= l < U64
    && (r + t - l) % U64 == s % U64
    && (s < U64 ==> l <= t && r + t - l == s)
  }

  lemma BalanceStep(r: int, t: int, l: int, s: int, n: nat)
    requires Balanced(r, t, l, s) && s >= 0
    ensures var u := (t + n) % U64;
            Balanced(r, u, l, s + n) && Balanced(r + (u - l) % U64, u, u, s + n)
  {
    var u := (t + n) % U64;
    ModSum(s, n);
    ModSum(t + n, r - l);
    ModSum(r + t - l, n);
    ModSum(u - l, r);
    assert r + (u - l) == u + (r - l) && (t + n) + (r - l) == (r + t - l) + n;
  }

  /** Received and reported are sums: of one poll what it brought, of two runs of polls both. */
  lemma {:induction false} ReceivedAdds(a: seq<Poll>, b: seq<Poll>)
    ensures Received(a + b) == Received(a) + Received(b)
    ensures forall p: Poll :: Received([p]) == p.n
  {
    if b == [] {
      assert a + b == a;
    } else {
      ReceivedAdds(a, b[..|b| - 1]);
      assert (a + b)[..|a + b| - 1] == a + b[..|b| - 1];
    }
    assert forall p: Poll :: [p][..0] == [];
  }

  lemma {:induction false} ReportedAdds(a: seq<Report>, b: seq<Report>)
    ensures Reported(a + b) == Reported(a) + Reported(b)
    ensures forall x: Report :: Reported([x]) == x.packets
  {
    if b == [] {
      assert a + b == a;
    } else {
      ReportedAdds(a, b[..|b| - 1]);
      assert (a + b)[..|a + b| - 1] == a + b[..|b| - 1];
    }
    assert forall x: Report :: [x][..0] == [];
  }

  ghost predicate Accounts(c: Counter, received: nat) {
    Balanced(Reported(c.reports), c.total, c.last, received)
  }

  lemma TickAccounts(c: Counter, p: Poll, hz: nat, received: nat)
    requires Accounts(c, received)
    ensures Accounts(Tick(c, p, hz), received + p.n)
  {
    BalanceStep(Reported(c.reports), c.total, c.last, received, p.n);
    hide Balanced;
    var e := Tick(c, p, hz);
    if e.reports != c.reports {
      assert e.reports[..|c.reports|] == c.reports;
    }
  }

  /** Every packet received is in exactly one report or in total - last: in 64-bit arithmetic always,
      and exactly as long as the 64-bit total has not wrapped. */
  lemma {:induction false} CountsEveryPacket(t0: nat, polls: seq<Poll>, hz: nat)
    ensures Accounts(Ticks(t0, polls, hz), Received(polls))
  {
    if polls != [] {
      hide Accounts, Tick;
      var front := polls[..|polls| - 1];
      CountsEveryPacket(t0, front, hz);
      TickAccounts(Ticks(t0, front, hz), polls[|polls| - 1], hz, Received(front));
    }
  }

  /** Each report comes more than hz after the one before, or after the start. */
  ghost predicate Spaced(t0: nat, reports: seq<Report>, hz: nat) {
    forall k :: 0 <= k < |reports| ==> reports[k].at > LastReport(t0, reports[..k]) + hz
  }

  lemma SpacedMore(t0: nat, reports: seq<Report>, x: Report, hz: nat)
    requires Spaced(t0, reports, hz) && x.at > LastReport(t0, reports) + hz
    ensures Spaced(t0, reports + [x], hz)
  {
    var more := reports + [x];
    forall k | 0 <= k < |more| ensures more[k].at > LastReport(t0, more[..k]) + hz {
      assert more[..k] == if k < |reports| then reports[..k] else reports;
    }
  }

  /** The reports made so far, and the clock's reading at the last. */
  ghost predicate Timed(t0: nat, c: Counter, hz: nat, now: nat) {
    var last := LastReport(t0, c.reports);
    && Spaced(t0, c.reports, hz) && c.start == last % U64
    && t0 + |c.reports| * (hz + 1) <= last <= now
  }

  lemma TimedStep(t0: nat, c: Counter, p: Poll, hz: nat, before: nat)
    requires Timed(t0, c, hz, before) && before <= p.now
    ensures Timed(t0, Tick(c, p, hz), hz, p.now)
  {
    hide Spaced;
    var last := LastReport(t0, c.reports);
    ModDiff(p.now, last);
    if p.n > 0 && (p.now % U64 - c.start) % U64 > hz {
      LessThanItself(p.now - last);
      SpacedMore(t0, c.reports, Report(((c.total + p.n) % U64 - c.last) % U64, p.now), hz);
      OnceMore(|c.reports|, hz + 1);
    }
  }

  lemma LessThanItself(x: nat)
    ensures x % U64 <= x
  {
  }

  lemma OnceMore(n: nat, k: nat)
    ensures (n + 1) * k == n * k + k
  {
  }

  /** However the clock wraps, reports are more than hz apart, so at most one per hz is made. */
  lemma {:induction false} ReportsAreSpaced(t0: nat, polls: seq<Poll>, hz: nat)
    requires Rising(t0, polls)
    ensures var c := Ticks(t0, polls, hz);
            && Spaced(t0, c.reports, hz)
            && c.start == LastReport(t0, c.reports) % U64
            && t0 + |c.reports| * (hz + 1) <= LastReport(t0, c.reports)
            && LastReport(t0, c.reports) <= if polls == [] then t0 else polls[|polls| - 1].now
  {
    if polls != [] {
      var front, p := polls[..|polls| - 1], polls[|polls| - 1];
      ReportsAreSpaced(t0, front, hz);
      hide Tick, Spaced;
      TimedStep(t0, Ticks(t0, front, hz), p, hz, if front == [] then t0 else front[|front| - 1].now);
    }
  }

  /** A burst is reported exactly when more than hz, as the clock shows it, has passed since the last. */
  lemma {:induction false} ReportIff(t0: nat, polls: seq<Poll>, p: Poll, hz: nat)
    requires Rising(t0, polls)
    ensures var c, d := Ticks(t0, polls, hz), Ticks(t0, polls + [p], hz);
            |d.reports| == |c.reports| + (if p.n > 0 && (p.now - LastReport(t0, c.reports)) % U64 > hz then 1 else 0)
  {
    ReportsAreSpaced(t0, polls, hz);
    ModDiff(p.now, LastReport(t0, Ticks(t0, polls, hz).reports));
    assert (polls + [p])[..|polls|] == polls;
  }
}
