/** What a receive loop does to the packets of a burst, and the packets-per-second counter beside it. */
module PrefetchSpec {

  type Packet = nat  // the address of an mbuf

  const PREFETCH_OFFSET: nat := 4
  const BURST_SIZE: nat := 32

  datatype Event = Prefetch(p: Packet) | Process(p: Packet) | Free(p: Packet)

  function Prefetched(log: seq<Event>): seq<Packet> {
    if log == [] then []
    else Prefetched(log[..|log| - 1]) + if log[|log| - 1].Prefetch? then [log[|log| - 1].p] else []
  }

  function Processed(log: seq<Event>): seq<Packet> {
    if log == [] then []
    else Processed(log[..|log| - 1]) + if log[|log| - 1].Process? then [log[|log| - 1].p] else []
  }

  function Freed(log: seq<Event>): seq<Packet> {
    if log == [] then []
    else Freed(log[..|log| - 1]) + if log[|log| - 1].Free? then [log[|log| - 1].p] else []
  }

  /** Each loop of the plain form. */
  function Processes(b: seq<Packet>): seq<Event> {
    seq(|b|, i requires 0 <= i < |b| => Process(b[i]))
  }

  function Frees(b: seq<Packet>): seq<Event> {
    seq(|b|, i requires 0 <= i < |b| => Free(b[i]))
  }

  /** The plain loop over a burst: process each packet, then free them. */
  function Plain(b: seq<Packet>): seq<Event> {
    Processes(b) + Frees(b)
  }

  /** What the packets do to whatever state their processing reads and writes; prefetching and freeing
      do nothing to it. */
  function Effect<S>(log: seq<Event>, f: (S, Packet) -> S, s: S): S {
    if log == [] then s
    else
      var t := Effect(log[..|log| - 1], f, s);
      if log[|log| - 1].Process? then f(t, log[|log| - 1].p) else t
  }

  /** The state after all the packets of a burst, one after another from the first. */
  function Fold<S>(b: seq<Packet>, f: (S, Packet) -> S, s: S): S {
    if b == [] then s else Fold(b[1..], f, f(s, b[0]))
  }

  /** How many packets are prefetched and not yet processed. */
  function Ahead(log: seq<Event>): int {
    |Prefetched(log)| - |Processed(log)|
  }

  /** What a burst's log must be at any moment: processing stays within what is prefetched, by at most
      `ahead` packets, and nothing is freed until all is processed. */
  ghost predicate Orderly(log: seq<Event>, b: seq<Packet>, ahead: nat) {
    && Prefetched(log) <= b && Processed(log) <= b && Freed(log) <= b
    && 0 <= Ahead(log) <= ahead
    && (Freed(log) != [] ==> Processed(log) == b)
  }

  ghost predicate AlwaysOrderly(log: seq<Event>, b: seq<Packet>, ahead: nat) {
    forall k :: 0 <= k <= |log| ==> Orderly(log[..k], b, ahead)
  }

  // ---- the counter ----

  const U64: nat := 0x1_0000_0000_0000_0000

  datatype Report = Report(packets: nat, at: nat)

  /** The 64-bit variables, and the reports made, each with the time it was made at. */
  datatype Counter = Counter(total: nat, last: nat, start: nat, reports: seq<Report>)

  /** A burst of n packets polled at a time that only goes up; the clock shows it in 64 bits. */
  datatype Poll = Poll(n: nat, now: nat)

  function Begin(t0: nat): Counter {
    Counter(0, 0, t0 % U64, [])
  }

  function Tick(c: Counter, p: Poll, hz: nat): Counter {
    if p.n == 0 then c
    else
      var total, now := (c.total + p.n) % U64, p.now % U64;
      if (now - c.start) % U64 > hz
      then Counter(total, total, now, c.reports + [Report((total - c.last) % U64, p.now)])
      else c.(total := total)
  }

  function Ticks(t0: nat, polls: seq<Poll>, hz: nat): Counter {
    if polls == [] then Begin(t0) else Tick(Ticks(t0, polls[..|polls| - 1], hz), polls[|polls| - 1], hz)
  }

  function Received(polls: seq<Poll>): nat {
    if polls == [] then 0 else Received(polls[..|polls| - 1]) + polls[|polls| - 1].n
  }

  function Reported(reports: seq<Report>): nat {
    if reports == [] then 0 else Reported(reports[..|reports| - 1]) + reports[|reports| - 1].packets
  }
}
