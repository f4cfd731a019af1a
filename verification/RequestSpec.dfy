/** Many secondary processes asking one primary: numbered requests, replies that may be lost or late,
    and bounded retries. */
module RequestSpec {

  const REQUESTS: nat := 3     // requests a sender makes
  const MAX_RETRIES: nat := 3  // attempts at each

  datatype Mode = Ready | Waiting | Finished

  /** A sender: the request it is at, the attempts failed so far at it, whether a signal came,
      attempts made in all, the numbers it has been told, and the replies on their way to it. */
  datatype Sender = Sender(i: nat, retry: nat, mode: Mode, quit: bool, attempts: nat,
                           seen: seq<nat>, replies: seq<nat>)

  /** A request on its way, by its sender and by which of the sender's attempts it is. */
  datatype Call = Call(s: nat, attempt: nat)

  /** `issuedTo[k]` is the call that got number k + 1. */
  datatype State = State(count: nat, issuedTo: seq<Call>, pending: multiset<Call>, senders: seq<Sender>)

  datatype Action =
    | Send(s: nat)                      // the request leaves the sender
    | SendFails(s: nat)                 // the call fails at once
    | LoseRequest(s: nat, attempt: nat)
    | Handle(s: nat, attempt: nat)      // the primary's callback numbers it and replies
    | LoseReply(s: nat, k: nat)         // the k-th reply on its way is lost, or was never sent
    | Deliver(s: nat, k: nat)           // the k-th reply on its way satisfies the call
    | Timeout(s: nat)
    | Signal(s: nat)                    // SIGINT or SIGTERM
    | Stop(s: nat)                      // a loop test finds the signal

  const FRESH := Sender(1, 0, Ready, false, 0, [], [])

  function Init(n: nat): State {
    State(0, [], multiset{}, seq(n, _ => FRESH))
  }

  predicate Enabled(st: State, a: Action) {
    a.s < |st.senders| &&
    var d := st.senders[a.s];
    match a
    case Send(_) => d.mode.Ready?
    case SendFails(_) => d.mode.Ready?
    case LoseRequest(s, t) => Call(s, t) in st.pending
    case Handle(s, t) => Call(s, t) in st.pending
    case LoseReply(_, k) => k < |d.replies|
    case Deliver(_, k) => d.mode.Waiting? && k < |d.replies|
    case Timeout(_) => d.mode.Waiting?
    case Signal(_) => true
    case Stop(_) => d.mode.Ready? && d.quit
  }

  /** The next request, or the end of the loop. */
  function Onward(d: Sender): Sender {
    d.(i := d.i + 1, retry := 0, mode := if d.i + 1 <= REQUESTS && !d.quit then Ready else Finished)
  }

  /** One failed attempt more: retry, or give this request up. */
  function Failed(d: Sender): Sender {
    if d.retry + 1 < MAX_RETRIES && !d.quit then d.(retry := d.retry + 1, mode := Ready) else Onward(d)
  }

  function Without(q: seq<nat>, k: nat): seq<nat>
    requires k < |q|
  {
    q[..k] + q[k + 1..]
  }

  function SenderNext(d: Sender, a: Action, number: nat): Sender
    requires a.LoseReply? || a.Deliver? ==> a.k < |d.replies|
  {
    match a
    case Send(_) => d.(mode := Waiting, attempts := d.attempts + 1)
    case SendFails(_) => Failed(d.(attempts := d.attempts + 1))
    case LoseRequest(_, _) => d
    case Handle(_, _) => d.(replies := d.replies + [number])
    case LoseReply(_, k) => d.(replies := Without(d.replies, k))
    case Deliver(_, k) => Onward(d.(seen := d.seen + [d.replies[k]], replies := Without(d.replies, k)))
    case Timeout(_) => Failed(d)
    case Signal(_) => d.(quit := true)
    case Stop(_) => d.(mode := Finished)
  }

  function Next(st: State, a: Action): State {
    if !Enabled(st, a) then st
    else
      var t := st.(senders := st.senders[a.s := SenderNext(st.senders[a.s], a, st.count + 1)]);
      match a
      case Send(s) => t.(pending := st.pending + multiset{Call(s, st.senders[s].attempts + 1)})
      case LoseRequest(s, k) => t.(pending := st.pending - multiset{Call(s, k)})
      case Handle(s, k) =>
        t.(pending := st.pending - multiset{Call(s, k)}, count := st.count + 1, issuedTo := st.issuedTo + [Call(s, k)])
      case _ => t
  }

  function Run(st: State, acts: seq<Action>): State {
    if acts == [] then st else Next(Run(st, acts[..|acts| - 1]), acts[|acts| - 1])
  }
}
