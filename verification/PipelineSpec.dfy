/** The three-stage packet pipeline as a step system: receive, parse and transmit threads, two bounded
    rings between them, a stop counter in each. */
module PipelineSpec {
  import opened Basics

  /** Packets are known by their place in arrival order. */
  type Packet = nat

  /** Each thread stops once its counter reaches `limit`; it moves at most `burst` packets at a time;
      a ring holds at most `cap`. */
  datatype Config = Config(limit: nat, burst: nat, cap: nat)

  /** The program's constants: a ring of 1024 entries keeps one unused. */
  const CONFIGURED := Config(25, 32, 1023)

  datatype Stage = Top | Hand(pkts: seq<Packet>) | Stopped

  datatype State = State(
    arrived: nat,             // packets received from the NIC so far
    rx: Stage, rxCount: nat,
    ring1: seq<Packet>,
    parser: Stage, parsed: nat,
    ring2: seq<Packet>,
    tx: Stage, sentCount: nat,
    finished: seq<Packet>,    // packets the transmit stage is done with, in order
    sent: seq<Packet>,        // of those, the ones the NIC took
    rxFreed: seq<Packet>,     // refused by ring 1 and freed
    leaked: seq<Packet>,      // refused by ring 2 and forgotten
    txFreed: seq<Packet>)     // refused by the NIC and freed

  datatype Action =
    | RxBurst(n: nat) | RxEnqueue
    | ParserDequeue | ParserEnqueue
    | TxDequeue | TxBurst(taken: nat)

  function Init(): State {
    State(0, Top, 0, [], Top, 0, [], Top, 0, [], [], [], [], [])
  }

  /** Packets number from, from + 1, ... */
  function Arrivals(from: nat, n: nat): (p: seq<Packet>)
    ensures |p| == n && forall i :: 0 <= i < n ==> p[i] == from + i
  {
    seq(n, i => from + i)
  }

  /** How many of n packets a ring holding `used` accepts. */
  function Accepts(c: Config, used: nat, n: nat): (k: nat)
    ensures k <= n
  {
    if used + n <= c.cap then n else if used <= c.cap then c.cap - used else 0
  }

  /** A thread's next stage after a round, by its counter. */
  function Onward(c: Config, count: nat): Stage {
    if count >= c.limit then Stopped else Top
  }

  /** Steps that move at least one packet. */
  predicate Enabled(c: Config, s: State, a: Action) {
    match a
    case RxBurst(n) => s.rx.Top? && 0 < n <= c.burst
    case RxEnqueue => s.rx.Hand?
    case ParserDequeue => s.parser.Top? && 0 < |s.ring1|
    case ParserEnqueue => s.parser.Hand?
    case TxDequeue => s.tx.Top? && 0 < |s.ring2|
    case TxBurst(k) => s.tx.Hand? && k <= |s.tx.pkts|
  }

  function Next(c: Config, s: State, a: Action): State {
    if !Enabled(c, s, a) then s
    else
      match a
      case RxBurst(n) => s.(arrived := s.arrived + n, rx := Hand(Arrivals(s.arrived, n)))
      case RxEnqueue =>
        var p, k := s.rx.pkts, Accepts(c, |s.ring1|, |s.rx.pkts|);
        s.(ring1 := s.ring1 + p[..k], rxFreed := s.rxFreed + p[k..], rxCount := s.rxCount + k,
           rx := Onward(c, s.rxCount + k))
      case ParserDequeue =>
        var k := Min(c.burst, |s.ring1|);
        s.(parser := Hand(s.ring1[..k]), ring1 := s.ring1[k..], parsed := s.parsed + k)
      case ParserEnqueue =>
        var p, k := s.parser.pkts, Accepts(c, |s.ring2|, |s.parser.pkts|);
        s.(ring2 := s.ring2 + p[..k], leaked := s.leaked + p[k..], parser := Onward(c, s.parsed))
      case TxDequeue =>
        var k := Min(c.burst, |s.ring2|);
        s.(tx := Hand(s.ring2[..k]), ring2 := s.ring2[k..])
      case TxBurst(k) =>
        var p := s.tx.pkts;
        s.(finished := s.finished + p, sent := s.sent + p[..k], txFreed := s.txFreed + p[k..],
           sentCount := s.sentCount + k, tx := Onward(c, s.sentCount + k))
  }

  /** Any interleaving; actions not enabled when their turn comes do nothing. */
  function Run(c: Config, acts: seq<Action>): State {
    if acts == [] then Init() else Next(c, Run(c, acts[..|acts| - 1]), acts[|acts| - 1])
  }

  function InHand(g: Stage): seq<Packet> {
    if g.Hand? then g.pkts else []
  }

  /** Everything under way, the packet nearest the NIC first. */
  function Line(s: State): seq<Packet> {
    InHand(s.tx) + s.ring2 + InHand(s.parser) + s.ring1 + InHand(s.rx)
  }
}
