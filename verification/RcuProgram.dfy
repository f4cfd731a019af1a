/** The RCU program's globals and threads, updated in place. Each method is one access to shared
    memory; the class is proved to go through exactly the states of RcuSpec. */
module RcuProgram {
  import opened RcuSpec
  import opened RcuProofs

  class Program {
    // shared: the heap, the published pointer, the quiescent-state table, the stop flag
    var heap: map<Addr, nat>
    var gdata: Addr
    var token: nat
    var registered: set<Rid>
    var cnt: map<Rid, nat>
    var stop: bool
    // the writer: its loop counter and where it is
    const updates: nat
    var i: nat
    var writer: WriterPc
    // the readers
    var readers: map<Rid, ReaderPc>
    var seen: map<Rid, seq<nat>>
    var freed: seq<nat>  // the values freed, for the record

    function View(): State
      reads this
    {
      State(heap, gdata, token, registered, cnt, stop, updates, i, writer, readers, seen, freed, false)
    }

    /** Every reader has its entries, and the proof's invariant holds. */
    ghost predicate Valid()
      reads this
    {
      Inv(View()) && Monotone(View()) && cnt.Keys == readers.Keys && seen.Keys == readers.Keys
    }

    constructor (ids: set<Rid>, n: nat, first: Addr)
      ensures Valid() && View() == Init(ids, n, first)
    {
      heap, gdata := map[first := 0], first;
      token, registered, cnt := 1, {}, map r | r in ids :: 0;
      stop, updates, i, writer := false, n, 0, Idle;
      readers, seen, freed := map r | r in ids :: Start, map r | r in ids :: [], [];
      new;
      InitInv(ids, n, first);
    }

    /** Registering, going online, going offline and unregistering. */
    method EnterOrLeave(r: Rid)
      requires Valid() && r in readers && readers[r] != Exited
      requires var pc := readers[r]; pc.Start? || pc.Registered? || pc.GoingOnline? || pc.Leaving? || pc.Offline?
      modifies this
      ensures Valid() && View() == Next(old(View()), Read(r))
    {
      hide Inv, Monotone, Next, ReaderStep;
      ghost var s := View();
      NextKeepsInv(s, Read(r));
      NextKeepsMonotone(s, Read(r));
      Unfold(s, r);
      var pc := readers[r];
      match pc {
      case Start => registered := registered + {r}; readers := readers[r := Registered];
      case Registered => readers := readers[r := GoingOnline(token)];
      case GoingOnline(t) => cnt := cnt[r := t]; readers := readers[r := LoopTop];
      case Leaving => cnt := cnt[r := 0]; readers := readers[r := Offline];
      case Offline => registered := registered - {r}; readers := readers[r := Exited];
      }
      TurnIsNext(s, r, View());
      assert s.readers.Keys + {r} == s.readers.Keys;
    }

    /** The reader's loop. The dereference reads the heap at the address held. */
    method LoopStep(r: Rid)
      requires Valid() && r in readers && Online(readers[r]) && !readers[r].Leaving?
      modifies this
      ensures Valid() && View() == Next(old(View()), Read(r))
    {
      hide Inv, Monotone, Next, ReaderStep;
      ghost var s := View();
      NextKeepsInv(s, Read(r));
      NextKeepsMonotone(s, Read(r));
      Unfold(s, r);
      var pc := readers[r];
      match pc {
      case LoopTop => readers := readers[r := if stop then Leaving else Locked];
      case Locked => readers := readers[r := Holding(gdata)];
      case Holding(d) =>
        HeldIsLive(s, r);
        seen := seen[r := seen[r] + [heap[d]]];
        readers := readers[r := Used(d)];
      case Used(_) => readers := readers[r := Unlocked];
      case Unlocked => readers := readers[r := Reporting(token)];
      case Reporting(t) => cnt := cnt[r := t]; readers := readers[r := LoopTop];
      }
      TurnIsNext(s, r, View());
      assert s.readers.Keys + {r} == s.readers.Keys;
    }

    /** One step of reader r. */
    method ReaderTurn(r: Rid)
      requires Valid() && r in readers && readers[r] != Exited
      modifies this
      ensures Valid() && View() == Next(old(View()), Read(r))
    {
      hide Inv, Monotone, Next;
      if Online(readers[r]) && !readers[r].Leaving? { LoopStep(r); } else { EnterOrLeave(r); }
    }

    /** The body of an update. `addr` is what the allocator returns. */
    method UpdateStep(addr: Addr)
      requires Valid() && Enabled(View(), Write(addr)) && i < updates && !writer.Joining?
      modifies this
      ensures Valid() && View() == Next(old(View()), Write(addr))
    {
      hide Inv, Monotone;
      ghost var s := View();
      FreedIsLive(s);
      NextKeepsInv(s, Write(addr));
      NextKeepsMonotone(s, Write(addr));
      assert !writer.Done?;
      hide Enabled;
      match writer {
      case Idle =>
        heap := heap[addr := i + 1];
        writer := Allocated(addr);
      case Allocated(n) =>
        var unpublished := gdata;
        gdata := n;
        writer := Swapped(unpublished);
      case Swapped(p) =>
        token := token + 1;
        writer := Waiting(p, token, readers.Keys);
      case Waiting(p, _, _) =>
        freed := freed + [heap[p]];
        heap := heap - {p};
        i := i + 1;
        writer := Idle;
      }
    }

    /** After the last update: the stop flag, the join and the last free. */
    method FinishStep(addr: Addr)
      requires Valid() && Enabled(View(), Write(addr)) && (writer.Joining? || (writer.Idle? && i == updates))
      modifies this
      ensures Valid() && View() == Next(old(View()), Write(addr))
    {
      hide Inv, Monotone;
      ghost var s := View();
      FreedIsLive(s);
      NextKeepsInv(s, Write(addr));
      NextKeepsMonotone(s, Write(addr));
      hide Enabled;
      if writer.Idle? {
        stop := true;
        writer := Joining;
      } else {
        freed := freed + [heap[gdata]];
        heap := heap - {gdata};
        writer := Done;
      }
    }

    /** One step of the writer. */
    method WriterTurn(addr: Addr)
      requires Valid() && Enabled(View(), Write(addr))
      modifies this
      ensures Valid() && View() == Next(old(View()), Write(addr))
    {
      WriterPlace(View(), addr);
      hide Inv, Monotone, Next, Enabled;
      if writer.Joining? || (writer.Idle? && i == updates) { FinishStep(addr); } else { UpdateStep(addr); }
    }

    lemma WriterPlace(s: State, addr: Addr)
      requires Inv(s) && Enabled(s, Write(addr))
      ensures s.made < s.updates || s.writer.Joining? || (s.writer.Idle? && s.made == s.updates)
    {
    }

    /** synchronize goes past thread r. */
    method PassTurn(r: Rid)
      requires Valid() && Enabled(View(), Pass(r))
      modifies this
      ensures Valid() && View() == Next(old(View()), Pass(r))
    {
      hide Inv, Monotone;
      ghost var s := View();
      NextKeepsInv(s, Pass(r));
      NextKeepsMonotone(s, Pass(r));
      assert !s.crashed;
      writer := writer.(todo := writer.todo - {r});
    }

    /** Any schedule, run on the program's own state; the memory accesses above are all to live blocks. */
    method Execute(acts: seq<Action>)
      requires Valid()
      modifies this
      ensures Valid() && View() == Run(old(View()), acts)
    {
      hide Inv, Monotone, Next;
      ghost var s := View();
      for k := 0 to |acts|
        invariant Valid() && View() == Run(s, acts[..k])
      {
        assert acts[..k + 1][..k] == acts[..k];
        if Enabled(View(), acts[k]) {
          match acts[k] {
          case Read(r) => ReaderTurn(r);
          case Write(addr) => WriterTurn(addr);
          case Pass(r) => PassTurn(r);
          }
        } else {
          NextDisabled(View(), acts[k]);
        }
      }
      assert acts[..|acts|] == acts;
    }

    /** The values the fields take in one turn are the next state's. */
    lemma TurnIsNext(s: State, r: Rid, t: State)
      requires Inv(s) && r in s.readers && !s.readers[r].Exited?
      requires t == s.(readers := t.readers, cnt := t.cnt, registered := t.registered, seen := t.seen)
      requires t.readers == s.readers[r := PcAfter(s, s.readers[r])]
      requires t.cnt == s.cnt[r := CntAfter(s.readers[r], Cnt(s, r))]
      requires t.registered == RegisteredAfter(s, r, s.readers[r])
      requires t.seen == s.seen[r := SeenAfter(s, r, s.readers[r])]
      ensures t == Next(s, Read(r)) && t.cnt.Keys == s.cnt.Keys + {r} && t.seen.Keys == s.seen.Keys + {r}
      ensures t.readers.Keys == s.readers.Keys
    {
      if s.readers[r].Holding? { HeldIsLive(s, r); }
    }

    lemma NextDisabled(s: State, a: Action)
      requires !Enabled(s, a)
      ensures Next(s, a) == s
    {
    }

    /** Storing back what an entry holds already changes nothing. */
    lemma Unfold(s: State, r: Rid)
      requires r in s.readers && s.cnt.Keys == s.readers.Keys && s.seen.Keys == s.readers.Keys
      ensures s.cnt[r := Cnt(s, r)] == s.cnt && s.seen[r := Seen(s, r)] == s.seen
    {
    }
  }
}
