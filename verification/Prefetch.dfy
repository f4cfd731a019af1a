/** The receive loop over its burst array, in place. */
module Prefetch {
  import opened Basics
  import opened PrefetchSpec
  import opened PrefetchProofs

  /** At some moment that many packets were prefetched and unprocessed. */
  ghost predicate Peaked(log: seq<Event>, ahead: nat) {
    exists k :: 0 <= k <= |log| && Ahead(log[..k]) == ahead
  }

  /** A burst is handled: each packet prefetched, processed and freed once, in order; at every moment
      at most offset + 1 are prefetched and unprocessed, and at one moment that many are. */
  ghost predicate Handled(log: seq<Event>, b: seq<Packet>, offset: nat) {
    && Prefetched(log) == Processed(log) == Freed(log) == b
    && AlwaysOrderly(log, b, Min(|b|, offset + 1)) && Peaked(log, Min(|b|, offset + 1))
  }

  /** A log on its way: so many packets prefetched, processed and freed. */
  ghost predicate Reached(log: seq<Event>, b: seq<Packet>, ahead: nat, fetched: nat, done: nat, freed: nat) {
    && fetched <= |b| && done <= |b| && freed <= |b|
    && Prefetched(log) == b[..fetched] && Processed(log) == b[..done] && Freed(log) == b[..freed]
    && AlwaysOrderly(log, b, ahead)
  }

  lemma ReachedNothing(b: seq<Packet>, ahead: nat)
    ensures Reached([], b, ahead, 0, 0, 0) && (ahead == 0 ==> Peaked([], ahead))
  {
    if ahead == 0 {
      assert Ahead([][..0]) == 0;
    }
  }

  lemma PeakedMore(log: seq<Event>, e: Event, ahead: nat)
    ensures Peaked(log, ahead) || Ahead(log + [e]) == ahead ==> Peaked(log + [e], ahead)
  {
    var more := log + [e];
    assert more[..|more|] == more;
    if Peaked(log, ahead) {
      var k :| 0 <= k <= |log| && Ahead(log[..k]) == ahead;
      assert more[..k] == log[..k];
    }
  }

  function More(log: seq<Event>, e: Event): seq<Event> {
    log + [e]
  }

  lemma Fetch(log: seq<Event>, b: seq<Packet>, ahead: nat, fetched: nat, done: nat)
    requires Reached(log, b, ahead, fetched, done, 0) && fetched < |b| && fetched + 1 - done <= ahead
    ensures Reached(More(log, Prefetch(b[fetched])), b, ahead, fetched + 1, done, 0)
    ensures Peaked(log, ahead) || fetched + 1 - done == ahead ==> Peaked(More(log, Prefetch(b[fetched])), ahead)
  {
    LogMore(log, Prefetch(b[fetched]));
    assert log[..|log|] == log;
    OrderlyMore(log, Prefetch(b[fetched]), b, ahead);
    PeakedMore(log, Prefetch(b[fetched]), ahead);
  }

  lemma Do(log: seq<Event>, b: seq<Packet>, ahead: nat, fetched: nat, done: nat)
    requires Reached(log, b, ahead, fetched, done, 0) && done < fetched
    ensures Reached(More(log, Process(b[done])), b, ahead, fetched, done + 1, 0)
    ensures Peaked(log, ahead) ==> Peaked(More(log, Process(b[done])), ahead)
  {
    LogMore(log, Process(b[done]));
    assert log[..|log|] == log;
    OrderlyMore(log, Process(b[done]), b, ahead);
    PeakedMore(log, Process(b[done]), ahead);
  }

  lemma Release(log: seq<Event>, b: seq<Packet>, ahead: nat, freed: nat)
    requires Reached(log, b, ahead, |b|, |b|, freed) && freed < |b|
    ensures Reached(More(log, Free(b[freed])), b, ahead, |b|, |b|, freed + 1)
    ensures Peaked(log, ahead) ==> Peaked(More(log, Free(b[freed])), ahead)
  {
    LogMore(log, Free(b[freed]));
    assert log[..|log|] == log;
    OrderlyMore(log, Free(b[freed]), b, ahead);
    PeakedMore(log, Free(b[freed]), ahead);
  }

  lemma ReachedAll(log: seq<Event>, b: seq<Packet>, offset: nat)
    requires Reached(log, b, Min(|b|, offset + 1), |b|, |b|, |b|) && Peaked(log, Min(|b|, offset + 1))
    ensures Handled(log, b, offset)
  {
  }

  /** The first loop: prefetch the head of the burst. */
  method FetchHead(bufs: array<Packet>, nbRx: nat, offset: nat, ghost ahead: nat) returns (log: seq<Event>)
    requires nbRx <= bufs.Length && ahead == Min(nbRx, offset + 1)
    ensures Reached(log, bufs[..nbRx], ahead, Min(offset, nbRx), 0, 0)
    ensures nbRx <= offset ==> Peaked(log, ahead)
  {
    hide Reached, Peaked, More;
    ghost var b := bufs[..nbRx];
    log := [];
    ReachedNothing(b, ahead);
    var i := 0;
    while i < offset && i < nbRx
      invariant i <= Min(offset, nbRx) && Reached(log, b, ahead, i, 0, 0) && (i == ahead ==> Peaked(log, ahead))
    {
      Fetch(log, b, ahead, i, 0);
      log := More(log, Prefetch(bufs[i]));
      i := i + 1;
    }
  }

  /** The second loop: prefetch one packet and process the one `offset` before it. `nbRx - offset` is
      signed, so on a burst of at most `offset` packets it makes no turn. */
  method FetchAndProcess(bufs: array<Packet>, nbRx: nat, offset: nat, ghost ahead: nat, head: seq<Event>)
    returns (log: seq<Event>, i: nat)
    requires nbRx <= bufs.Length && ahead == Min(nbRx, offset + 1)
    requires Reached(head, bufs[..nbRx], ahead, Min(offset, nbRx), 0, 0) && (nbRx <= offset ==> Peaked(head, ahead))
    ensures i <= nbRx && Reached(log, bufs[..nbRx], ahead, nbRx, i, 0) && Peaked(log, ahead)
  {
    hide Reached, Peaked, More;
    ghost var b := bufs[..nbRx];
    log, i := head, 0;
    while i < nbRx - offset
      invariant if nbRx <= offset then i == 0 && log == head
                else i <= nbRx - offset && Reached(log, b, ahead, i + offset, i, 0) && (i > 0 ==> Peaked(log, ahead))
    {
      Fetch(log, b, ahead, i + offset, i);
      log := More(log, Prefetch(bufs[i + offset]));
      Do(log, b, ahead, i + offset + 1, i);
      log := More(log, Process(bufs[i]));
      i := i + 1;
    }
  }

  /** A burst: the two loops above, the rest of the processing, and the frees. */
  method HandleBurst(bufs: array<Packet>, nbRx: nat, offset: nat) returns (log: seq<Event>)
    requires nbRx <= bufs.Length
    ensures Handled(log, bufs[..nbRx], offset)
  {
    hide Reached, Peaked, Handled, More;
    ghost var b, ahead := bufs[..nbRx], Min(nbRx, offset + 1);
    log := FetchHead(bufs, nbRx, offset, ahead);
    var i;
    log, i := FetchAndProcess(bufs, nbRx, offset, ahead, log);
    while i < nbRx
      invariant i <= nbRx && Reached(log, b, ahead, nbRx, i, 0) && Peaked(log, ahead)
    {
      Do(log, b, ahead, nbRx, i);
      log := More(log, Process(bufs[i]));
      i := i + 1;
    }
    i := 0;
    while i < nbRx
      invariant i <= nbRx && Reached(log, b, ahead, nbRx, nbRx, i) && Peaked(log, ahead)
    {
      Release(log, b, ahead, i);
      log := More(log, Free(bufs[i]));
      i := i + 1;
    }
    ReachedAll(log, b, offset);
  }

  /** A handled burst has exactly the plain loop's effect: every packet of it processed, one after
      another from the first. */
  lemma HandledIsPlain<S>(log: seq<Event>, b: seq<Packet>, offset: nat, f: (S, Packet) -> S, s: S)
    requires Handled(log, b, offset)
    ensures Effect(log, f, s) == Effect(Plain(b), f, s) == Fold(b, f, s)
  {
    SameAsPlain(log, b, f, s);
  }

  /** At every moment of a handled burst, the packet processed is one prefetched before, in its turn,
      and more are prefetched than processed. */
  lemma PrefetchedFirst(log: seq<Event>, b: seq<Packet>, offset: nat, k: nat)
    requires Handled(log, b, offset) && k < |log| && log[k].Process?
    ensures var done, fetched := |Processed(log[..k])|, Prefetched(log[..k]);
            done < |fetched| <= done + offset + 1 && log[k].p == fetched[done] == b[done]
  {
    hide Handled;
    assert log[..k + 1] == log[..k] + [log[k]];
    Moment(log, b, offset, k);
    Moment(log, b, offset, k + 1);
    hide Orderly;
    ProcessTurn(log[..k], log[k], b, offset + 1);
  }

  lemma ProcessTurn(front: seq<Event>, e: Event, b: seq<Packet>, ahead: nat)
    requires Orderly(front, b, ahead) && Orderly(front + [e], b, ahead) && e.Process?
    ensures var done, fetched := |Processed(front)|, Prefetched(front);
            done < |fetched| <= done + ahead && e.p == fetched[done] == b[done]
  {
    LogMore(front, e);
    hide Prefetched, Processed, Freed;
    TakenInTurn(Processed(front), Prefetched(front), b, e.p);
  }

  lemma Moment(log: seq<Event>, b: seq<Packet>, offset: nat, k: nat)
    requires Handled(log, b, offset) && k <= |log|
    ensures Orderly(log[..k], b, offset + 1)
  {
    hide Prefetched, Processed, Freed, Peaked;
    assert Orderly(log[..k], b, Min(|b|, offset + 1));
  }

  lemma TakenInTurn(done: seq<Packet>, fetched: seq<Packet>, b: seq<Packet>, p: Packet)
    requires done + [p] <= b && fetched <= b && |done| + 1 <= |fetched|
    ensures fetched[|done|] == b[|done|] == p
  {
    assert (done + [p])[|done|] == p;
  }

  datatype Arrival = Arrival(packets: seq<Packet>, now: nat)

  function Polls(arrivals: seq<Arrival>): seq<Poll> {
    seq(|arrivals|, i requires 0 <= i < |arrivals| => Poll(|arrivals[i].packets|, arrivals[i].now))
  }

  /** lcore_main's variables. */
  class Receiver {
    const bufs: array<Packet>
    const hz: nat
    var total: nat
    var last: nat
    var start: nat
    var reports: seq<Report>

    function View(): Counter
      reads this
    {
      Counter(total, last, start, reports)
    }

    constructor (ticks: nat, t0: nat)
      ensures View() == Begin(t0) && hz == ticks && fresh(bufs) && bufs.Length == 32
    {
      bufs := new Packet[BURST_SIZE](_ => 0);
      total, last, start, hz, reports := 0, 0, t0 % U64, ticks, [];
    }

    /** One turn of the loop: rte_eth_rx_burst fills the array; an empty burst reads no clock. */
    method Turn(a: Arrival) returns (log: seq<Event>)
      requires |a.packets| <= bufs.Length
      modifies this, bufs
      ensures View() == Tick(old(View()), Poll(|a.packets|, a.now), hz)
      ensures Handled(log, a.packets, 4)
    {
      var nbRx := |a.packets|;
      forall i | 0 <= i < nbRx { bufs[i] := a.packets[i]; }
      assert bufs[..nbRx] == a.packets;
      log := HandleBurst(bufs, nbRx, PREFETCH_OFFSET);
      if nbRx == 0 { return; }
      total := (total + nbRx) % U64;
      var now := a.now % U64;
      if (now - start) % U64 > hz {
        reports := reports + [Report((total - last) % U64, a.now)];
        last := total;
        start := now;
      }
    }

    /** The loop over any arrivals: every burst is handled, and the counter counts them all. */
    method Receive(arrivals: seq<Arrival>, ghost t0: nat) returns (logs: seq<seq<Event>>)
      requires View() == Begin(t0) && forall a :: a in arrivals ==> |a.packets| <= bufs.Length
      modifies this, bufs
      ensures |logs| == |arrivals|
      ensures forall k :: 0 <= k < |logs| ==> Handled(logs[k], arrivals[k].packets, 4)
      ensures View() == Ticks(t0, Polls(arrivals), hz)
      ensures Accounts(View(), Received(Polls(arrivals)))
    {
      hide Handled, Tick, Begin;
      logs := [];
      for k := 0 to |arrivals|
        invariant |logs| == k && View() == Ticks(t0, Polls(arrivals[..k]), hz)
        invariant forall j :: 0 <= j < k ==> Handled(logs[j], arrivals[j].packets, PREFETCH_OFFSET)
      {
        var log := Turn(arrivals[k]);
        logs := logs + [log];
        assert Polls(arrivals[..k + 1])[..k] == Polls(arrivals[..k]);
      }
      assert arrivals[..|arrivals|] == arrivals;
      CountsEveryPacket(t0, Polls(arrivals), hz);
    }
  }
}
