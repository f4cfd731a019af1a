/** The full-duplex exchange: a primary process sends heap blocks over one ring and waits for each
    reply on another; a secondary process answers until it is sent -1. */
module DuplexSpec {

  type Addr = nat  // addresses are reused once freed

  datatype Primary = Loop | Sending(p: Addr) | Awaiting | Got(p: Addr) | Stopping(p: Addr) | PDone

  datatype Secondary = Polling | Received(p: Addr) | Computed(res: int) | Replying(p: Addr) | SDone

  datatype State = State(
    msgs: seq<int>,        // what the primary sends, in order
    cap: nat,              // what either ring holds
    heap: map<Addr, int>,  // live blocks
    ring1: seq<Addr>, ring2: seq<Addr>,
    i: nat,                // the primary's loop counter
    prim: Primary, sec: Secondary,
    replies: seq<int>,     // what the primary's received blocks held
    allocs: nat, frees: nat,
    crashed: bool)         // a block that was not live was read or freed

  /** The one to move; addr is what the allocator returns if the step allocates. */
  datatype Action = Prim(addr: Addr) | Sec(addr: Addr)

  function Init(msgs: seq<int>, cap: nat): State {
    State(msgs, cap, map[], [], [], 0, Loop, Polling, [], 0, 0, false)
  }

  function Alloc(s: State, a: Addr, v: int): State {
    s.(heap := s.heap[a := v], allocs := s.allocs + 1)
  }

  function Free(s: State, p: Addr): State {
    if p in s.heap then s.(heap := s.heap - {p}, frees := s.frees + 1) else s.(crashed := true)
  }

  /** A spinning process is one whose step is not enabled; the stop message is not retried. */
  predicate Enabled(s: State, a: Action) {
    match a
    case Prim(addr) =>
      (match s.prim
       case Loop => addr !in s.heap
       case Sending(_) => |s.ring1| < s.cap
       case Awaiting => s.ring2 != []
       case Got(_) => true
       case Stopping(_) => true
       case PDone => false)
    case Sec(addr) =>
      (match s.sec
       case Polling => s.ring1 != []
       case Received(_) => true
       case Computed(_) => addr !in s.heap
       case Replying(_) => |s.ring2| < s.cap
       case SDone => false)
  }

  function PrimStep(s: State, addr: Addr): State
    requires s.prim.Awaiting? ==> s.ring2 != []
  {
    match s.prim
    case Loop =>
      if s.i < |s.msgs| then Alloc(s, addr, s.msgs[s.i]).(prim := Sending(addr))
      else Alloc(s, addr, -1).(prim := Stopping(addr))
    case Sending(p) => s.(ring1 := s.ring1 + [p], prim := Awaiting)
    case Awaiting => s.(ring2 := s.ring2[1..], prim := Got(s.ring2[0]))
    case Got(p) =>
      Free(s, p).(replies := s.replies + if p in s.heap then [s.heap[p]] else [], i := s.i + 1, prim := Loop)
    case Stopping(p) => s.(ring1 := if |s.ring1| < s.cap then s.ring1 + [p] else s.ring1, prim := PDone)
    case PDone => s
  }

  function SecStep(s: State, addr: Addr): State
    requires s.sec.Polling? ==> s.ring1 != []
  {
    match s.sec
    case Polling => s.(ring1 := s.ring1[1..], sec := Received(s.ring1[0]))
    case Received(p) =>
      if p !in s.heap then s.(crashed := true)
      else if s.heap[p] == -1 then Free(s, p).(sec := SDone)
      else Free(s, p).(sec := Computed(10 * s.heap[p]))
    case Computed(res) => Alloc(s, addr, res).(sec := Replying(addr))
    case Replying(p) => s.(ring2 := s.ring2 + [p], sec := Polling)
    case SDone => s
  }

  function Next(s: State, a: Action): State {
    if s.crashed || !Enabled(s, a) then s
    else if a.Prim? then PrimStep(s, a.addr) else SecStep(s, a.addr)
  }

  function Run(s: State, acts: seq<Action>): State {
    if acts == [] then s else Next(Run(s, acts[..|acts| - 1]), acts[|acts| - 1])
  }
}
