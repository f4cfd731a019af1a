/** The RCU program as a step system: one writer, any number of readers, any number of updates, and
    the quiescent-state table they share. One action is one access to shared memory. */
module RcuSpec {
  type Rid = nat   // a reader thread
  type Addr = nat  // a heap address; addresses are reused once freed

  /** Where a reader is; the two-step entries hold a token read but not yet stored. */
  datatype ReaderPc =
    | Start | Registered | GoingOnline(t: nat)
    | LoopTop | Locked | Holding(p: Addr) | Used(p: Addr) | Unlocked | Reporting(t: nat)
    | Leaving | Offline | Exited

  datatype WriterPc =
    | Idle | Allocated(new_: Addr) | Swapped(old_: Addr)
    | Waiting(old_: Addr, t: nat, todo: set<Rid>)  // todo: threads synchronize has not passed yet
    | Joining | Done

  datatype State = State(
    heap: map<Addr, nat>,        // live blocks and the value each holds
    gdata: Addr,
    token: nat,
    registered: set<Rid>,
    cnt: map<Rid, nat>,          // 0 is offline
    stop: bool,
    updates: nat,                // how many updates the writer makes
    made: nat,                   // how many it has completed
    writer: WriterPc,
    readers: map<Rid, ReaderPc>,
    seen: map<Rid, seq<nat>>,    // the values each reader has printed
    freed: seq<nat>,             // the values of the blocks freed, in order
    crashed: bool)               // a block that was not live was read or freed

  datatype Action = Read(r: Rid) | Write(a: Addr) | Pass(r: Rid)

  function Init(ids: set<Rid>, updates: nat, first: Addr): State {
    State(map[first := 0], first, 1, {}, map r | r in ids :: 0, false, updates, 0, Idle,
          map r | r in ids :: Start, map r | r in ids :: [], [], false)
  }

  function Cnt(s: State, r: Rid): nat {
    if r in s.cnt then s.cnt[r] else 0
  }

  function Seen(s: State, r: Rid): seq<nat> {
    if r in s.seen then s.seen[r] else []
  }

  /** synchronize goes past a thread that is not registered, is offline or has reached the token. */
  predicate Passable(s: State, r: Rid, t: nat) {
    r !in s.registered || Cnt(s, r) == 0 || Cnt(s, r) >= t
  }

  /** A reader can always take its next step until it has exited; the writer waits in two places; an
      allocation returns an address not in use. */
  predicate Enabled(s: State, a: Action) {
    match a
    case Read(r) => r in s.readers && s.readers[r] != Exited
    case Pass(r) => s.writer.Waiting? && r in s.writer.todo && Passable(s, r, s.writer.t)
    case Write(addr) =>
      match s.writer
      case Idle => s.made == s.updates || addr !in s.heap
      case Waiting(_, _, todo) => todo == {}
      case Joining => forall r :: r in s.readers ==> s.readers[r] == Exited
      case Done => false
      case _ => true
  }

  /** Free a block: a crash if it is not live. */
  function Free(s: State, p: Addr): State {
    if p in s.heap then s.(heap := s.heap - {p}, freed := s.freed + [s.heap[p]]) else s.(crashed := true)
  }

  // A reader's step, by what it changes.

  function PcAfter(s: State, pc: ReaderPc): ReaderPc {
    match pc
    case Start => Registered
    case Registered => GoingOnline(s.token)
    case GoingOnline(_) => LoopTop
    case LoopTop => if s.stop then Leaving else Locked
    case Locked => Holding(s.gdata)
    case Holding(p) => if p in s.heap then Used(p) else Holding(p)
    case Used(_) => Unlocked
    case Unlocked => Reporting(s.token)
    case Reporting(_) => LoopTop
    case Leaving => Offline
    case Offline => Exited
    case Exited => Exited
  }

  function CntAfter(pc: ReaderPc, c: nat): nat {
    match pc
    case GoingOnline(t) => t
    case Reporting(t) => t
    case Leaving => 0
    case _ => c
  }

  function RegisteredAfter(s: State, r: Rid, pc: ReaderPc): set<Rid> {
    if pc.Start? then s.registered + {r} else if pc.Offline? then s.registered - {r} else s.registered
  }

  /** A dereference prints the block's value; of a block that is not live, it is a crash. */
  function SeenAfter(s: State, r: Rid, pc: ReaderPc): seq<nat> {
    if pc.Holding? && pc.p in s.heap then Seen(s, r) + [s.heap[pc.p]] else Seen(s, r)
  }

  function ReaderStep(s: State, r: Rid): State
    requires r in s.readers
  {
    var pc := s.readers[r];
    s.(readers := s.readers[r := PcAfter(s, pc)],
       cnt := s.cnt[r := CntAfter(pc, Cnt(s, r))],
       registered := RegisteredAfter(s, r, pc),
       seen := s.seen[r := SeenAfter(s, r, pc)],
       crashed := pc.Holding? && pc.p !in s.heap)
  }

  function WriterStep(s: State, addr: Addr): State {
    match s.writer
    case Idle =>
      if s.made < s.updates then s.(heap := s.heap[addr := s.made + 1], writer := Allocated(addr))
      else s.(stop := true, writer := Joining)
    case Allocated(n) => s.(gdata := n, writer := Swapped(s.gdata))
    case Swapped(p) => s.(token := s.token + 1, writer := Waiting(p, s.token + 1, s.readers.Keys))
    case Waiting(p, _, _) => Free(s, p).(made := s.made + 1, writer := Idle)
    case Joining => Free(s, s.gdata).(writer := Done)
    case Done => s
  }

  function Next(s: State, a: Action): State {
    if s.crashed || !Enabled(s, a) then s
    else
      match a
      case Read(r) => ReaderStep(s, r)
      case Write(addr) => WriterStep(s, addr)
      case Pass(r) => s.(writer := s.writer.(todo := s.writer.todo - {r}))
  }

  /** Any interleaving: a schedule of actions, those not enabled when their turn comes doing nothing. */
  function Run(s: State, acts: seq<Action>): State {
    if acts == [] then s else Next(Run(s, acts[..|acts| - 1]), acts[|acts| - 1])
  }
}
