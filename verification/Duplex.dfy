/** The two processes over their shared heap and rings, updated in place; each method is one step. */
module Duplex {
  import opened DuplexSpec
  import opened DuplexProofs

  class Exchange {
    const msgs: seq<int>
    const cap: nat
    var heap: map<Addr, int>
    var ring1: seq<Addr>
    var ring2: seq<Addr>
    var i: nat
    var prim: Primary
    var sec: Secondary
    var replies: seq<int>
    var allocs: nat
    var frees: nat
    ghost var step: nat  // where the baton is

    function View(): State
      reads this
    {
      State(msgs, cap, heap, ring1, ring2, i, prim, sec, replies, allocs, frees, false)
    }

    ghost predicate Valid()
      reads this
    {
      Inv(View(), step)
    }

    constructor (messages: seq<int>, size: nat)
      requires size > 0
      ensures Valid() && View() == Init(messages, size)
    {
      msgs, cap := messages, size;
      heap, ring1, ring2, i := map[], [], [], 0;
      prim, sec, replies, allocs, frees, step := Loop, Polling, [], 0, 0, 0;
      new;
      InitInv(messages, size);
    }

    /** rte_malloc and the store of the message. */
    method Malloc(addr: Addr, v: int)
      requires addr !in heap
      modifies this`heap, this`allocs
      ensures heap == old(heap)[addr := v] && allocs == old(allocs) + 1
    {
      heap := heap[addr := v];
      allocs := allocs + 1;
    }

    /** rte_free of a live block. */
    method Release(p: Addr)
      requires p in heap
      modifies this`heap, this`frees
      ensures heap == old(heap) - {p} && frees == old(frees) + 1
    {
      heap := heap - {p};
      frees := frees + 1;
    }

    method PrimaryTurn(addr: Addr)
      requires Valid() && Enabled(View(), Prim(addr))
      modifies this
      ensures Valid() && View() == Next(old(View()), Prim(addr))
    {
      hide Inv;
      ghost var s := View();
      Alive(s, step);
      BatonMoves(s, step, Prim(addr));
      match prim {
      case Loop =>
        if i < |msgs| {
          Malloc(addr, msgs[i]);
          prim := Sending(addr);
        } else {
          Malloc(addr, -1);
          prim := Stopping(addr);
        }
      case Sending(p) =>
        ring1 := ring1 + [p];
        prim := Awaiting;
      case Awaiting =>
        var reply := ring2[0];
        ring2 := ring2[1..];
        prim := Got(reply);
      case Got(received) =>
        replies := replies + [heap[received]];
        Release(received);
        i := i + 1;
        prim := Loop;
      case Stopping(stop) =>
        if |ring1| < cap { ring1 := ring1 + [stop]; }
        prim := PDone;
      }
      step := if step == 7 then 0 else step + 1;
    }

    method SecondaryTurn(addr: Addr)
      requires Valid() && Enabled(View(), Sec(addr))
      modifies this
      ensures Valid() && View() == Next(old(View()), Sec(addr))
    {
      hide Inv;
      ghost var s := View();
      Alive(s, step);
      BatonMoves(s, step, Sec(addr));
      match sec {
      case Polling =>
        var msg := ring1[0];
        ring1 := ring1[1..];
        sec := Received(msg);
      case Received(msg) =>
        var val := heap[msg];
        Release(msg);
        sec := if val == -1 then SDone else Computed(10 * val);
      case Computed(res) =>
        Malloc(addr, res);
        sec := Replying(addr);
      case Replying(reply) =>
        ring2 := ring2 + [reply];
        sec := Polling;
      }
      step := step + 1;
    }

    /** Any schedule; a step that is not enabled is a turn of a spin loop. */
    method Execute(acts: seq<Action>)
      requires Valid()
      modifies this
      ensures Valid() && View() == Run(old(View()), acts)
    {
      hide Inv, Next;
      ghost var s := View();
      for k := 0 to |acts|
        invariant Valid() && View() == Run(s, acts[..k])
      {
        assert acts[..k + 1][..k] == acts[..k];
        if Enabled(View(), acts[k]) {
          match acts[k] {
          case Prim(addr) => PrimaryTurn(addr);
          case Sec(addr) => SecondaryTurn(addr);
          }
        } else {
          NotEnabled(View(), acts[k]);
        }
      }
      assert acts[..|acts|] == acts;
    }
  }
}
