/** The pipeline's threads and rings, updated in place: each method is one shared-memory step of one
    thread, proved to be the corresponding step of PipelineSpec. */
module Pipeline {
  import opened Basics
  import opened PipelineSpec
  import opened PipelineProofs
  import opened PipelineTheorems

  class Ring {
    const cap: nat
    var packets: seq<Packet>

    constructor (n: nat)
      ensures cap == n && packets == []
    {
      cap, packets := n, [];
    }

    /** Appends, in order, the part of the burst the model says a ring accepts: all of it, or else as
        much as fills the ring. */
    method EnqueueBurst(ghost c: Config, burst: seq<Packet>) returns (k: nat)
      requires |packets| <= cap == c.cap
      modifies this`packets
      ensures k == Accepts(c, |old(packets)|, |burst|) && packets == old(packets) + burst[..k]
      ensures |packets| <= cap && (k < |burst| ==> |packets| == cap)
    {
      k := if |packets| + |burst| <= cap then |burst| else cap - |packets|;
      packets := packets + burst[..k];
    }

    /** Takes packets from the front, fewer than n only when that empties the ring. */
    method DequeueBurst(n: nat) returns (burst: seq<Packet>)
      modifies this`packets
      ensures burst + packets == old(packets) && |burst| <= n && (|burst| < n ==> packets == [])
    {
      var k := Min(n, |packets|);
      burst := packets[..k];
      packets := packets[k..];
    }
  }

  class Pipeline {
    const c: Config
    const rxToParser: Ring
    const parseToTx: Ring
    var arrived: nat
    var rx: Stage
    var rxPacket: nat
    var parser: Stage
    var parsPacket: nat
    var tx: Stage
    var txPacket: nat
    var finished: seq<Packet>
    var sent: seq<Packet>
    var rxFreed: seq<Packet>
    ghost var leaked: seq<Packet>  // the program keeps no trace of these
    var txFreed: seq<Packet>

    ghost function View(): State
      reads this, rxToParser, parseToTx
    {
      State(arrived, rx, rxPacket, rxToParser.packets, parser, parsPacket, parseToTx.packets, tx, txPacket,
            finished, sent, rxFreed, leaked, txFreed)
    }

    ghost predicate Valid()
      reads this, rxToParser, parseToTx
    {
      && rxToParser != parseToTx && rxToParser.cap == parseToTx.cap == c.cap
      && |rxToParser.packets| <= c.cap && |parseToTx.packets| <= c.cap
    }

    constructor (config: Config)
      ensures Valid() && fresh(rxToParser) && fresh(parseToTx) && c == config && View() == Init()
    {
      c := config;
      rxToParser := new Ring(config.cap);
      parseToTx := new Ring(config.cap);
      arrived := 0;
      rx, rxPacket, parser, parsPacket, tx, txPacket := Top, 0, Top, 0, Top, 0;
      finished, sent, rxFreed, leaked, txFreed := [], [], [], [], [];
    }

    /** The receive thread polls the NIC, which has n packets for it. */
    method ReceiveBurst(n: nat)
      requires Valid() && Enabled(c, View(), RxBurst(n))
      modifies this
      ensures Valid() && View() == Next(c, old(View()), RxBurst(n))
    {
      rx := Hand(Arrivals(arrived, n));
      arrived := arrived + n;
    }

    /** It enqueues the burst and frees, one by one, what the ring refused. */
    method ReceiveEnqueue()
      requires Valid() && Enabled(c, View(), RxEnqueue)
      modifies this, rxToParser
      ensures Valid() && View() == Next(c, old(View()), RxEnqueue)
    {
      var packets := rx.pkts;
      var enq := rxToParser.EnqueueBurst(c, packets);
      rxFreed := FreeFrom(rxFreed, packets, enq);
      rxPacket := rxPacket + enq;
      rx := if rxPacket >= c.limit then Stopped else Top;
    }

    method ParserTake()
      requires Valid() && Enabled(c, View(), ParserDequeue)
      modifies this, rxToParser
      ensures Valid() && View() == Next(c, old(View()), ParserDequeue)
    {
      ghost var was := rxToParser.packets;
      var packets := rxToParser.DequeueBurst(c.burst);
      assert packets == was[..|packets|] && rxToParser.packets == was[|packets|..];
      parsPacket := parsPacket + |packets|;
      parser := Hand(packets);
    }

    /** The parser passes its burst on and does not look at how many were taken. */
    method ParserPut()
      requires Valid() && Enabled(c, View(), ParserEnqueue)
      modifies this, parseToTx
      ensures Valid() && View() == Next(c, old(View()), ParserEnqueue)
    {
      var nb := parseToTx.EnqueueBurst(c, parser.pkts);
      leaked := leaked + parser.pkts[nb..];
      parser := if parsPacket >= c.limit then Stopped else Top;
    }

    method TransmitTake()
      requires Valid() && Enabled(c, View(), TxDequeue)
      modifies this, parseToTx
      ensures Valid() && View() == Next(c, old(View()), TxDequeue)
    {
      ghost var was := parseToTx.packets;
      var packets := parseToTx.DequeueBurst(c.burst);
      assert packets == was[..|packets|] && parseToTx.packets == was[|packets|..];
      tx := Hand(packets);
    }

    /** The NIC takes the first `taken` packets of the burst; the rest are freed. */
    method TransmitBurst(taken: nat)
      requires Valid() && Enabled(c, View(), TxBurst(taken))
      modifies this
      ensures Valid() && View() == Next(c, old(View()), TxBurst(taken))
    {
      var packets := tx.pkts;
      finished := finished + packets;
      sent := sent + packets[..taken];
      txPacket := txPacket + taken;
      txFreed := FreeFrom(txFreed, packets, taken);
      tx := if txPacket >= c.limit then Stopped else Top;
    }

    /** The loop that frees packets from number `from` on. */
    static method FreeFrom(already: seq<Packet>, packets: seq<Packet>, from: nat) returns (freed: seq<Packet>)
      requires from <= |packets|
      ensures freed == already + packets[from..]
    {
      freed := already;
      for i := from to |packets|
        invariant freed == already + packets[from..i]
      {
        freed := freed + [packets[i]];
      }
    }

    /** Any schedule, run on the pipeline's own state. With room on the rings for everything a stage
        can handle, nothing is leaked, and packets stay in arrival order. */
    method Execute(acts: seq<Action>)
      requires Valid() && Sane(c) && Roomy(c) && View() == Init()
      modifies this, rxToParser, parseToTx
      ensures Valid() && View() == Run(c, acts)
      ensures leaked == [] && finished + Line(View()) == Arrivals(0, arrived)
    {
      hide Next, Line;
      assert acts[..0] == [];
      for k := 0 to |acts|
        invariant Valid() && View() == Run(c, acts[..k])
      {
        assert acts[..k + 1][..k] == acts[..k];
        NotEnabledHere(View(), acts[k]);
        match acts[k] {
        case RxBurst(n) => if rx.Top? && 0 < n <= c.burst { ReceiveBurst(n); }
        case RxEnqueue => if rx.Hand? { ReceiveEnqueue(); }
        case ParserDequeue => if parser.Top? && 0 < |rxToParser.packets| { ParserTake(); }
        case ParserEnqueue => if parser.Hand? { ParserPut(); }
        case TxDequeue => if tx.Top? && 0 < |parseToTx.packets| { TransmitTake(); }
        case TxBurst(taken) => if tx.Hand? && taken <= |tx.pkts| { TransmitBurst(taken); }
        }
      }
      assert acts[..|acts|] == acts;
      RoomyNeverRefuses(c, acts);
      ArrivalOrder(c, acts);
    }

    lemma NotEnabledHere(s: State, a: Action)
      ensures !Enabled(c, s, a) ==> Next(c, s, a) == s
    {
    }
  }
}
