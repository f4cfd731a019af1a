/** The two programs of the request protocol: the primary's callback over its shared counter, and the
    sender's nested loops. */
module Requests {
  import opened Wrappers
  import opened RequestSpec
  import opened RequestProofs

  // ---- the sender ----

  /** One synchronous call: it is answered with a number or times out, and a signal may come meanwhile. */
  function Attempt(d: Sender, answer: Option<nat>, quit: bool): Sender
    requires d.replies == []
  {
    var w := SenderNext(d, Send(0), 0);
    var v := if quit then SenderNext(w, Signal(0), 0) else w;
    match answer
    case None => SenderNext(v, Timeout(0), 0)
    case Some(n) => SenderNext(SenderNext(v, Handle(0, 0), n), Deliver(0, 0), 0)
  }

  /** A sender that is at a loop test, with no reply left over. */
  predicate AtTest(d: Sender) {
    d.replies == [] && d.retry < MAX_RETRIES && (d.mode.Ready? ==> d.i <= REQUESTS)
  }

  /** A sender's whole run, when call number k gets answer(k) and a signal comes during call number
      quitAfter. */
  function Session(d: Sender, answer: nat -> Option<nat>, quitAfter: nat): Sender
    requires AtTest(d)
    decreases MAX_RETRIES * (REQUESTS + 1 - d.i) - d.retry
  {
    if !d.mode.Ready? then d
    else Session(Attempt(d, answer(d.attempts), quitAfter <= d.attempts + 1), answer, quitAfter)
  }

  /** A sender at its first request, unless a signal came even before. */
  function Begin(quitAfter: nat): (d: Sender)
    ensures AtTest(d)
  {
    if quitAfter == 0 then SenderNext(SenderNext(FRESH, Signal(0), 0), Stop(0), 0) else FRESH
  }

  function Listed(reply: Option<nat>): (r: seq<nat>)
    ensures |r| <= 1
  {
    match reply
    case None => []
    case Some(n) => [n]
  }

  /** The numbers among the first k answers. */
  function Answers(answer: nat -> Option<nat>, k: nat): seq<nat> {
    if k == 0 then []
    else Answers(answer, k - 1) + Listed(answer(k - 1))
  }

  /** A sender between two requests. */
  function Between(i: nat, attempts: nat, seen: seq<nat>, quitAfter: nat): (d: Sender)
    ensures AtTest(d)
  {
    Sender(i, 0, if i <= REQUESTS && attempts < quitAfter then Ready else Finished, quitAfter <= attempts,
           attempts, seen, [])
  }

  /** What one call does to a sender that may make one. */
  lemma AttemptMade(d: Sender, answer: nat -> Option<nat>, quitAfter: nat)
    requires d.i <= REQUESTS && d.retry < MAX_RETRIES && d.mode == Ready && !d.quit && d.replies == []
    ensures var e, k := Attempt(d, answer(d.attempts), quitAfter <= d.attempts + 1), d.attempts + 1;
            && e == (match answer(d.attempts)
                     case Some(n) => Between(d.i + 1, k, d.seen + [n], quitAfter)
                     case None =>
                       if d.retry + 1 < MAX_RETRIES && k < quitAfter
                       then d.(retry := d.retry + 1, attempts := k)
                       else Between(d.i + 1, k, d.seen, quitAfter))
            && Session(d, answer, quitAfter) == Session(e, answer, quitAfter)
  {
    match answer(d.attempts) {
    case None =>
    case Some(n) =>
      assert d.replies + [n] == [n] && Without([n], 0) == [];
    }
  }

  /** One request with its retries: the first answer ends it, or the third failure, or a signal. */
  method Request(i: nat, made: nat, ghost seen: seq<nat>, answer: nat -> Option<nat>, quitAfter: nat)
    returns (attempts: nat, reply: Option<nat>)
    requires i <= REQUESTS && made < quitAfter && Answers(answer, made) == seen
    ensures made < attempts <= made + MAX_RETRIES && attempts <= quitAfter
    ensures reply.None? ==> attempts == made + MAX_RETRIES || quitAfter <= attempts
    ensures Answers(answer, attempts) == seen + Listed(reply)
    ensures Session(Between(i, made, seen, quitAfter), answer, quitAfter)
         == Session(Between(i + 1, attempts, seen + Listed(reply), quitAfter), answer, quitAfter)
  {
    hide Attempt, Session, Answers;
    ghost var d := Between(i, made, seen, quitAfter);
    ghost var all := Session(d, answer, quitAfter);
    attempts, reply := made, None;
    var retry, success := 0, false;
    while retry < MAX_RETRIES && !success && attempts < quitAfter
      invariant success == reply.Some? && attempts == made + retry + (if success then 1 else 0)
      invariant retry + (if success then 1 else 0) <= MAX_RETRIES && attempts <= quitAfter
      invariant d == if !success && retry < MAX_RETRIES && attempts < quitAfter
                     then Sender(i, retry, Ready, false, attempts, seen, [])
                     else Between(i + 1, attempts, seen + Listed(reply), quitAfter)
      invariant Session(d, answer, quitAfter) == all
      invariant Answers(answer, attempts) == seen + Listed(reply)
    {
      AttemptMade(d, answer, quitAfter);
      AnswersMore(answer, attempts);
      d := Attempt(d, answer(attempts), quitAfter <= attempts + 1);
      match answer(attempts) {
      case None => retry := retry + 1;
      case Some(n) => success, reply := true, Some(n);
      }
      attempts := attempts + 1;
    }
  }

  /** The sender's outer loop. It keeps every answer in order, gives a request up after three failures
      and no earlier, and makes all its requests unless a signal comes. */
  method MakeRequests(answer: nat -> Option<nat>, quitAfter: nat) returns (i: nat, attempts: nat, seen: seq<nat>)
    ensures Session(Begin(quitAfter), answer, quitAfter) == Between(i, attempts, seen, quitAfter)
    ensures seen == Answers(answer, attempts)
    ensures |seen| < i <= 4 && attempts <= 3 * (i - 1)
    ensures attempts <= quitAfter && (i == 4 || quitAfter == attempts)
  {
    hide Attempt, Session, Begin, Answers, Between, AtTest, Listed;
    SessionBegins(quitAfter);
    ghost var all := Session(Begin(quitAfter), answer, quitAfter);
    AnswersMore(answer, 0);
    i, attempts, seen := 1, 0, [];
    while i <= REQUESTS && attempts < quitAfter
      invariant 1 <= i <= REQUESTS + 1 && |seen| < i && attempts <= MAX_RETRIES * (i - 1) && attempts <= quitAfter
      invariant Session(Between(i, attempts, seen, quitAfter), answer, quitAfter) == all
      invariant seen == Answers(answer, attempts)
    {
      var made, reply := Request(i, attempts, seen, answer, quitAfter);
      attempts, seen, i := made, seen + Listed(reply), i + 1;
    }
    SessionOver(i, attempts, seen, answer, quitAfter);
  }

  lemma AnswersMore(answer: nat -> Option<nat>, k: nat)
    ensures Answers(answer, k + 1) == Answers(answer, k) + Listed(answer(k))
    ensures Answers(answer, 0) == []
  {
  }

  lemma SessionBegins(quitAfter: nat)
    ensures Begin(quitAfter) == Between(1, 0, [], quitAfter)
  {
  }

  lemma SessionOver(i: nat, attempts: nat, seen: seq<nat>, answer: nat -> Option<nat>, quitAfter: nat)
    requires REQUESTS < i || quitAfter <= attempts
    ensures var d := Between(i, attempts, seen, quitAfter); Session(d, answer, quitAfter) == d
  {
  }

  // ---- the primary ----

  lemma InvMeans(st: State)
    requires Inv(st)
    ensures st.count <= MAX_RETRIES * REQUESTS * |st.senders|
    ensures forall r, x :: 0 <= r < |st.senders| && x in Numbers(st.senders[r]) ==> x <= st.count
  {
    Sums(st.senders);
    hide Numbers, Bounded;
  }

  /** The primary's counter beside the processes it serves. */
  class Exchange {
    var requestCount: nat
    var issuedTo: seq<Call>  // for the record
    var pending: multiset<Call>
    var senders: seq<Sender>

    function View(): State
      reads this
    {
      State(requestCount, issuedTo, pending, senders)
    }

    constructor (n: nat)
      ensures View() == Init(n) && Inv(View())
    {
      requestCount, issuedTo, pending := 0, [], multiset{};
      senders := seq(n, _ => FRESH);
      new;
      RunKeepsInv(n, []);
    }

    /** mp_callback: take the next number, and answer with it and its two products. */
    method Callback(s: nat, attempt: nat) returns (reqNum: nat, packets: nat, bytes: nat)
      requires Inv(View()) && Enabled(View(), Handle(s, attempt))
      modifies this
      ensures View() == Next(old(View()), Handle(s, attempt)) && Inv(View())
      ensures forall r, x :: 0 <= r < |senders| && x in Numbers(old(senders[r])) ==> x < reqNum
      ensures reqNum == requestCount && packets == 1024 * reqNum && bytes == 65536 * reqNum
      ensures |senders| <= 3640 ==> bytes <= INT_MAX
    {
      hide Inv, Numbers, Run;
      ghost var before := View();
      InvMeans(before);
      NextKeepsInv(before, Handle(s, attempt));
      InvMeans(Next(before, Handle(s, attempt)));
      requestCount := requestCount + 1;
      reqNum := requestCount;
      packets, bytes := reqNum * 1024, reqNum * 65536;
      pending := pending - multiset{Call(s, attempt)};
      issuedTo := issuedTo + [Call(s, attempt)];
      senders := senders[s := senders[s].(replies := senders[s].replies + [reqNum])];
    }
  }
}
