/** The calls of `RpcClient` as steps: many callers share one connection, and responses find
    their caller by sequence id.

    A call is known by a number of its own, which is also that of its channel.  `Begin` is the
    locked part of `sendProtocol` together with the hand-over to the sending coroutine;
    `Take` and `Expire` are the two ways in which the wait ends; `Leave` is what follows.
*/
module RpcDemux {
  import opened Options

  /** What the server sends back: the sequence id of the request, and which call that was. */
  datatype Response = Response(seqId: nat, answers: nat)

  datatype Result = Result(response: Option<Response>, timeout: bool)

  datatype Call =
    | Waiting(seqId: nat)
    | Woken(seqId: nat, result: Result)
    | Returned(seqId: nat, result: Result)

  /** `ids` is the number of sequence ids, 2^32 in the code.  `asked` holds the requests the
      server has not answered, `inFlight` the responses not yet received. */
  datatype Client = Client(
    ids: nat, sequenceId: nat, handlers: map<nat, nat>, isClose: bool,
    calls: map<nat, Call>, queues: map<nat, seq<Option<Response>>>,
    asked: map<nat, nat>, inFlight: set<Response>)

  datatype Action =
    | Begin(call: nat)
    | Answer(call: nat)
    | Receive(response: Response)
    | Take(call: nat)
    | Expire(call: nat)
    | Leave(call: nat)
    | Close

  /** `++m_sequenceId`, which wraps. */
  function NextId(c: Client): nat {
    if c.sequenceId + 1 < c.ids then c.sequenceId + 1 else 0
  }

  /** A push into the channel of a call. */
  function Push(c: Client, call: nat, r: Option<Response>): Client {
    if call in c.queues then c.(queues := c.queues[call := c.queues[call] + [r]]) else c
  }

  function OnBegin(c: Client, k: nat): Client
    requires c.ids > 0
  {
    if k in c.calls then c
    else
      var id := NextId(c);
      c.(sequenceId := id,
         handlers := if id in c.handlers then c.handlers else c.handlers[id := k],
         calls := c.calls[k := Waiting(id)],
         queues := c.queues[k := []],
         asked := c.asked[k := id])
  }

  function OnAnswer(c: Client, k: nat): Client {
    if k in c.asked
    then c.(asked := c.asked - {k}, inFlight := c.inFlight + {Response(c.asked[k], k)})
    else c
  }

  function OnReceive(c: Client, r: Response): Client {
    if r !in c.inFlight then c
    else
      var c1 := c.(inFlight := c.inFlight - {r});
      if r.seqId in c.handlers then Push(c1, c.handlers[r.seqId], Some(r)) else c1
  }

  function OnTake(c: Client, k: nat): Client {
    if k in c.calls && c.calls[k].Waiting? && k in c.queues && c.queues[k] != []
    then c.(queues := c.queues[k := c.queues[k][1..]],
            calls := c.calls[k := Woken(c.calls[k].seqId, Result(c.queues[k][0], false))])
    else c
  }

  function OnExpire(c: Client, k: nat): Client {
    if k in c.calls && c.calls[k].Waiting?
    then c.(calls := c.calls[k := Woken(c.calls[k].seqId, Result(None, true))])
    else c
  }

  function OnLeave(c: Client, k: nat): Client {
    if k in c.calls && c.calls[k].Woken?
    then c.(handlers := if c.isClose then c.handlers else c.handlers - {c.calls[k].seqId},
            calls := c.calls[k := Returned(c.calls[k].seqId, c.calls[k].result)])
    else c
  }

  function OnClose(c: Client): Client {
    if c.isClose then c
    else c.(isClose := true, handlers := map[],
            queues := map k | k in c.queues :: if k in c.handlers.Values then c.queues[k] + [None] else c.queues[k])
  }

  function Do(c: Client, a: Action): Client
    requires c.ids > 0
  {
    match a
    case Begin(k) => OnBegin(c, k)
    case Answer(k) => OnAnswer(c, k)
    case Receive(r) => OnReceive(c, r)
    case Take(k) => OnTake(c, k)
    case Expire(k) => OnExpire(c, k)
    case Leave(k) => OnLeave(c, k)
    case Close => OnClose(c)
  }

  function Open(ids: nat): Client {
    Client(ids, 0, map[], false, map[], map[], map[], {})
  }

  function Run(ids: nat, actions: seq<Action>): (c: Client)
    requires ids > 0
    ensures c.ids == ids
  {
    if actions == [] then Open(ids) else Do(Run(ids, actions[..|actions| - 1]), actions[|actions| - 1])
  }

  // ----- no sequence id is reused while outstanding

  /** Some call, request or response still carries the id. */
  ghost predicate Outstanding(c: Client, id: nat) {
    || id in c.handlers
    || (exists k :: k in c.asked && c.asked[k] == id)
    || (exists r :: r in c.inFlight && r.seqId == id)
  }

  ghost predicate Fresh(c: Client, a: Action)
    requires c.ids > 0
  {
    a.Begin? && a.call !in c.calls ==> !Outstanding(c, NextId(c))
  }

  ghost predicate FreshRun(ids: nat, actions: seq<Action>)
    requires ids > 0
  {
    actions == [] ||
    (FreshRun(ids, actions[..|actions| - 1]) &&
     Fresh(Run(ids, actions[..|actions| - 1]), actions[|actions| - 1]))
  }

  // ----- the invariant

  /** Handlers lead to the calls with their ids; while the connection is open they are those of
      the calls that have not left. */
  ghost predicate HandlersOK(c: Client) {
    && (forall id :: id in c.handlers ==>
          var k := c.handlers[id]; k in c.calls && c.calls[k].seqId == id && (!c.isClose ==> !c.calls[k].Returned?))
    && (!c.isClose ==> forall k :: k in c.calls && !c.calls[k].Returned? ==>
          c.calls[k].seqId in c.handlers && c.handlers[c.calls[k].seqId] == k)
  }

  /** A request or response with an id that has a handler belongs to the handler's call. */
  ghost predicate WireOK(c: Client) {
    && (forall k :: k in c.asked ==> k in c.calls && Belongs(c, c.asked[k], k))
    && (forall r :: r in c.inFlight ==> Belongs(c, r.seqId, r.answers))
  }

  ghost predicate Belongs(c: Client, id: nat, k: nat) {
    id in c.handlers ==> c.handlers[id] == k
  }

  /** A channel and a result hold only responses to their own call. */
  ghost predicate OwnOnly(c: Client) {
    && c.queues.Keys == c.calls.Keys
    && forall k :: k in c.calls ==> QueueOK(k, c.queues[k]) && CallOK(k, c.calls[k])
  }

  ghost predicate QueueOK(k: nat, q: seq<Option<Response>>) {
    forall i :: 0 <= i < |q| && q[i].Some? ==> q[i].value.answers == k
  }

  ghost predicate CallOK(k: nat, call: Call) {
    call.Waiting? || (call.result.response.Some? ==> call.result.response.value.answers == k && !call.result.timeout)
  }

  ghost predicate Inv(c: Client) {
    c.ids > 0 && HandlersOK(c) && WireOK(c) && OwnOnly(c)
  }

  lemma BeginKeepsHandlers(c: Client, k: nat)
    requires Inv(c) && Fresh(c, Begin(k))
    ensures HandlersOK(OnBegin(c, k))
  {
  }

  lemma LeaveKeepsHandlers(c: Client, k: nat)
    requires Inv(c)
    ensures HandlersOK(OnLeave(c, k))
  {
  }

  lemma WakeKeepsHandlers(c: Client, k: nat, result: Result)
    requires Inv(c) && k in c.calls && c.calls[k].Waiting?
    ensures HandlersOK(c.(calls := c.calls[k := Woken(c.calls[k].seqId, result)]))
  {
  }

  lemma ExpireKeepsHandlers(c: Client, k: nat)
    requires Inv(c)
    ensures HandlersOK(OnExpire(c, k))
  {
    if k in c.calls && c.calls[k].Waiting? { WakeKeepsHandlers(c, k, Result(None, true)); }
  }

  lemma TakeKeepsHandlers(c: Client, k: nat)
    requires Inv(c)
    ensures HandlersOK(OnTake(c, k))
  {
    if k in c.calls && c.calls[k].Waiting? && k in c.queues && c.queues[k] != [] {
      WakeKeepsHandlers(c, k, Result(c.queues[k][0], false));
    }
  }

  lemma HandlersKept(c: Client, a: Action)
    requires Inv(c) && Fresh(c, a)
    ensures HandlersOK(Do(c, a))
  {
    match a
    case Begin(k) => BeginKeepsHandlers(c, k);
    case Take(k) => TakeKeepsHandlers(c, k);
    case Expire(k) => ExpireKeepsHandlers(c, k);
    case Leave(k) => LeaveKeepsHandlers(c, k);
    case _ =>
  }

  lemma WireKept(c: Client, a: Action)
    requires Inv(c) && Fresh(c, a)
    ensures WireOK(Do(c, a))
  {
  }

  lemma BeginKeepsOwn(c: Client, k: nat)
    requires Inv(c)
    ensures OwnOnly(OnBegin(c, k))
  {
  }

  lemma ReceiveKeepsOwn(c: Client, r: Response)
    requires Inv(c)
    ensures OwnOnly(OnReceive(c, r))
  {
  }

  lemma TakeKeepsOwn(c: Client, k: nat)
    requires Inv(c)
    ensures OwnOnly(OnTake(c, k))
  {
  }

  lemma CloseKeepsOwn(c: Client)
    requires Inv(c)
    ensures OwnOnly(OnClose(c))
  {
  }

  lemma OwnKept(c: Client, a: Action)
    requires Inv(c) && Fresh(c, a)
    ensures OwnOnly(Do(c, a))
  {
    match a
    case Begin(k) => BeginKeepsOwn(c, k);
    case Receive(r) => ReceiveKeepsOwn(c, r);
    case Take(k) => TakeKeepsOwn(c, k);
    case Close => CloseKeepsOwn(c);
    case _ =>
  }

  lemma {:induction false} InvInRuns(ids: nat, actions: seq<Action>)
    requires ids > 0 && FreshRun(ids, actions)
    ensures Inv(Run(ids, actions))
  {
    if actions != [] {
      var c, a := Run(ids, actions[..|actions| - 1]), actions[|actions| - 1];
      InvInRuns(ids, actions[..|actions| - 1]);
      HandlersKept(c, a);
      WireKept(c, a);
      OwnKept(c, a);
    }
  }

  // ----- what callers can rely on

  /** The call has come back with a response. */
  predicate Answered(c: Client, k: nat) {
    k in c.calls && c.calls[k].Returned? && c.calls[k].result.response.Some?
  }

  /** In every interleaving of callers, responses, timeouts and a close: a call that returns a
      response returns one to its own request, and no response is returned by two calls. */
  lemma Demultiplexed(ids: nat, actions: seq<Action>, k: nat, j: nat)
    requires ids > 0 && FreshRun(ids, actions)
    ensures var c := Run(ids, actions);
      && (Answered(c, k) ==> c.calls[k].result.response.value.answers == k && !c.calls[k].result.timeout)
      && (Answered(c, k) && Answered(c, j) && c.calls[k].result.response == c.calls[j].result.response ==> k == j)
  {
    InvInRuns(ids, actions);
  }

  /** While the connection is open the handlers are exactly those of the calls under way, and a
      close leaves none of them without something to wake up to. */
  lemma NoneLeftBehind(ids: nat, actions: seq<Action>, k: nat)
    requires ids > 0 && FreshRun(ids, actions) && !Run(ids, actions).isClose
    ensures var c := Run(ids, actions);
      && (k in c.handlers.Values <==> k in c.calls && !c.calls[k].Returned?)
      && var d := Do(c, Close);
         d.handlers == map[] && (k in c.handlers.Values ==> k in d.queues && d.queues[k] == c.queues[k] + [None])
  {
    InvInRuns(ids, actions);
    var c := Run(ids, actions);
    if k in c.calls && !c.calls[k].Returned? {
      assert c.handlers[c.calls[k].seqId] == k;
    }
  }

  /** A call that is begun, and its response come in. */
  lemma ResponseWaits(c: Client, k: nat)
    requires Inv(c) && Fresh(c, Begin(k)) && !c.isClose && k !in c.calls
    ensures var r := Response(NextId(c), k);
      Do(Do(Do(c, Begin(k)), Answer(k)), Receive(r)) ==
      c.(sequenceId := NextId(c), handlers := c.handlers[NextId(c) := k], calls := c.calls[k := Waiting(NextId(c))],
         queues := c.queues[k := [Some(r)]], asked := c.asked - {k}, inFlight := c.inFlight - {r})
  {
    var id, r := NextId(c), Response(NextId(c), k);
    var c1 := Do(c, Begin(k));
    assert c1.handlers[id] == k && c1.queues[k] == [] && c1.asked[k] == id;
    var c2 := Do(c1, Answer(k));
    assert c2.asked == c.asked - {k} && c2.inFlight - {r} == c.inFlight - {r};
    var c3 := Do(c2, Receive(r));
    assert c3.queues == c.queues[k := [Some(r)]] by { assert [] + [Some(r)] == [Some(r)]; }
  }

  lemma TakenAndLeft(c: Client, c3: Client, k: nat, r: Response)
    requires c.ids > 0 && !c.isClose && r.seqId !in c.handlers
    requires c3 == c.(sequenceId := c3.sequenceId, handlers := c.handlers[r.seqId := k],
                      calls := c.calls[k := Waiting(r.seqId)], queues := c.queues[k := [Some(r)]],
                      asked := c3.asked, inFlight := c3.inFlight)
    ensures var d := Do(Do(c3, Take(k)), Leave(k));
      && d.calls == c.calls[k := Returned(r.seqId, Result(Some(r), false))] && d.handlers == c.handlers
      && d.asked == c3.asked && d.inFlight == c3.inFlight
  {
    assert c3.handlers - {r.seqId} == c.handlers;
  }

  /** A call on an open connection whose response comes in before it gives up returns that response, and leaves
      the handlers as they were before it. */
  lemma CallCompletes(c: Client, k: nat)
    requires Inv(c) && Fresh(c, Begin(k)) && !c.isClose && k !in c.calls
    ensures var r := Response(NextId(c), k);
      var d := Do(Do(Do(Do(Do(c, Begin(k)), Answer(k)), Receive(r)), Take(k)), Leave(k));
      && d.calls == c.calls[k := Returned(NextId(c), Result(Some(r), false))]
      && d.handlers == c.handlers && d.asked == c.asked - {k} && d.inFlight == c.inFlight - {r}
  {
    var r := Response(NextId(c), k);
    ResponseWaits(c, k);
    TakenAndLeft(c, Do(Do(Do(c, Begin(k)), Answer(k)), Receive(r)), k, r);
  }

  /** A call that gives up returns a timeout, and its response is dropped when it comes in afterwards. */
  lemma LateResponseDropped(c: Client, k: nat)
    requires Inv(c) && Fresh(c, Begin(k)) && !c.isClose && k !in c.calls
    ensures var r := Response(NextId(c), k);
      var d := Do(Do(Do(Do(Do(c, Begin(k)), Expire(k)), Leave(k)), Answer(k)), Receive(r));
      && d.calls == c.calls[k := Returned(NextId(c), Result(None, true))]
      && d.handlers == c.handlers && d.queues == c.queues[k := []]
  {
    var id := NextId(c);
    var c1 := Do(c, Begin(k));
    assert c1.handlers[id] == k && c1.calls[k] == Waiting(id) && c1.handlers - {id} == c.handlers;
  }

  // ----- when ids come round

  /** A response that comes in reaches the channel of another call exactly when its id has been given
      to another call. */
  lemma MisdeliversIff(c: Client, r: Response)
    requires c.ids > 0 && r in c.inFlight && forall id :: id in c.handlers ==> c.handlers[id] in c.queues
    ensures (exists k :: k in c.queues && k != r.answers && Do(c, Receive(r)).queues[k] != c.queues[k]) <==>
            r.seqId in c.handlers && c.handlers[r.seqId] != r.answers
  {
    if r.seqId in c.handlers {
      var k := c.handlers[r.seqId];
      assert |Do(c, Receive(r)).queues[k]| == |c.queues[k]| + 1;
    }
  }

  /** If the next id is that of a request under way whose call has left, its response reaches the next
      caller, which returns it. */
  lemma ReuseMisdelivers(c: Client, k: nat, j: nat)
    requires c.ids > 0 && !c.isClose && k in c.asked && j !in c.calls && k != j
    requires c.asked[k] == NextId(c) && NextId(c) !in c.handlers
    ensures var r := Response(c.asked[k], k);
      var d := Do(Do(Do(Do(Do(c, Begin(j)), Answer(k)), Receive(r)), Take(j)), Leave(j));
      Answered(d, j) && d.calls[j].result.response.value.answers == k
  {
    var id := NextId(c);
    var c1 := Do(c, Begin(j));
    assert c1.handlers[id] == j && c1.queues[j] == [] && c1.asked[k] == id;
    var c3 := Do(Do(c1, Answer(k)), Receive(Response(id, k)));
    assert c3.queues[j] == [Some(Response(id, k))];
  }

  /** How many calls are begun. */
  function Begins(actions: seq<Action>): nat {
    if actions == [] then 0
    else Begins(actions[..|actions| - 1]) + if actions[|actions| - 1].Begin? then 1 else 0
  }

  /** `given` ids have been given, one after the other from the first, and none is carried but those. */
  ghost predicate Given(c: Client, given: nat) {
    && given <= c.ids && c.sequenceId == (if given < c.ids then given else 0)
    && (given < c.ids ==>
          && (forall id :: id in c.handlers ==> 1 <= id <= given)
          && (forall k :: k in c.asked ==> 1 <= c.asked[k] <= given)
          && (forall r :: r in c.inFlight ==> 1 <= r.seqId <= given))
  }

  lemma BeginGives(c: Client, k: nat, given: nat)
    requires c.ids > 0 && Given(c, given) && given < c.ids
    ensures Fresh(c, Begin(k))
    ensures Given(OnBegin(c, k), if k in c.calls then given else given + 1)
  {
  }

  lemma OthersGiveNone(c: Client, a: Action, given: nat)
    requires c.ids > 0 && Given(c, given) && !a.Begin?
    ensures Fresh(c, a) && Given(Do(c, a), given)
  {
  }

  /** As long as no more calls are begun than there are ids, none is reused while outstanding. */
  lemma {:induction false} EnoughIds(ids: nat, actions: seq<Action>) returns (given: nat)
    requires ids > 0 && Begins(actions) <= ids
    ensures FreshRun(ids, actions) && given <= Begins(actions) && Given(Run(ids, actions), given)
  {
    if actions == [] {
      given := 0;
    } else {
      var init, a := actions[..|actions| - 1], actions[|actions| - 1];
      given := EnoughIds(ids, init);
      if a.Begin? {
        BeginGives(Run(ids, init), a.call, given);
        given := if a.call in Run(ids, init).calls then given else given + 1;
      } else {
        OthersGiveNone(Run(ids, init), a, given);
      }
    }
  }

  /** So many calls, one after the other, none of which waits for its response. */
  function Impatient(calls: nat): seq<Action> {
    if calls == 0 then [] else Impatient(calls - 1) + [Begin(calls - 1), Expire(calls - 1), Leave(calls - 1)]
  }

  lemma RunOne(ids: nat, actions: seq<Action>, a: Action)
    requires ids > 0
    ensures Run(ids, actions + [a]) == Do(Run(ids, actions), a)
  {
    assert (actions + [a])[..|actions|] == actions;
  }

  lemma RunThree(ids: nat, actions: seq<Action>, a: Action, b: Action, c: Action)
    requires ids > 0
    ensures Run(ids, actions + [a, b, c]) == Do(Do(Do(Run(ids, actions), a), b), c)
  {
    RunOne(ids, actions, a);
    RunOne(ids, actions + [a], b);
    RunOne(ids, actions + [a] + [b], c);
    assert actions + [a] + [b] + [c] == actions + [a, b, c];
  }

  /** A call that is begun, times out and leaves; its request stays with the server. */
  lemma OneImpatient(c: Client, k: nat)
    requires c.ids > 0 && !c.isClose && c.handlers == map[] && k !in c.calls
    ensures var d := Do(Do(Do(c, Begin(k)), Expire(k)), Leave(k));
      && d.handlers == map[] && !d.isClose && d.sequenceId == NextId(c)
      && d.calls.Keys == c.calls.Keys + {k} && d.asked == c.asked[k := NextId(c)]
  {
    var c1 := Do(c, Begin(k));
    assert c1.handlers == map[NextId(c) := k] && c1.calls[k] == Waiting(NextId(c));
    var c2 := Do(c1, Expire(k));
    assert c2.handlers == c1.handlers && c2.calls[k].seqId == NextId(c);
  }

  /** So many calls have left without a response, and that of the first is still to come. */
  ghost predicate Left(c: Client, calls: nat) {
    && c.handlers == map[] && !c.isClose && c.sequenceId == (if calls < c.ids then calls else 0)
    && (forall k :: k in c.calls <==> 0 <= k < calls)
    && (calls > 0 ==> 0 in c.asked && c.asked[0] == if c.ids == 1 then 0 else 1)
  }

  lemma OneMoreLeft(c: Client, calls: nat)
    requires c.ids > 0 && Left(c, calls) && calls < c.ids
    ensures Left(Do(Do(Do(c, Begin(calls)), Expire(calls)), Leave(calls)), calls + 1)
  {
    OneImpatient(c, calls);
  }

  lemma {:induction false} AfterImpatient(ids: nat, calls: nat)
    requires 0 < ids && calls <= ids
    ensures Left(Run(ids, Impatient(calls)), calls)
  {
    if calls > 0 {
      AfterImpatient(ids, calls - 1);
      OneMoreLeft(Run(ids, Impatient(calls - 1)), calls - 1);
      RunThree(ids, Impatient(calls - 1), Begin(calls - 1), Expire(calls - 1), Leave(calls - 1));
    }
  }

  /** And it comes to that: when as many calls have timed out as there are ids, the first one's response
      is still to come, and its id is the next to be given. */
  lemma ReuseIsReached(ids: nat)
    requires ids > 0
    ensures var c := Run(ids, Impatient(ids));
      !c.isClose && 0 in c.asked && ids !in c.calls && c.asked[0] == NextId(c) && NextId(c) !in c.handlers
  {
    AfterImpatient(ids, ids);
  }
}
