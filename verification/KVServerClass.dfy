/** `KVServer`: the applier and its helpers as they update the maps, proved against the steps of
    `KVReplica`. */
module KVServerClass {
  import opened Endings
  import opened Options
  import opened Varint
  import opened ByteFlat
  import opened SerialFormat
  import opened SerializerClass
  import opened KVMachine
  import opened KVSnapshot
  import opened KVReplica

  /** One more element read. */
  lemma GottenNext(t: Ty, count: nat, b: Bytes)
    requires count > 0
    ensures match Decode(t, b)
            case None => Gotten(t, count, b) == [] && DecodeMany(t, count, b) == None
            case Some((v, rest)) =>
              && Gotten(t, count, b) == [v] + Gotten(t, count - 1, rest)
              && DecodeMany(t, count, b) == (match DecodeMany(t, count - 1, rest)
                                             case None => None
                                             case Some((vs, end)) => Some(([v] + vs, end)))
  {
  }

  /** What is still to come after the elements in `done`. */
  ghost predicate OnTheWay(elem: Ty, size: nat, body: Bytes, done: seq<Val>, left: nat, rest: Bytes) {
    && Gotten(elem, size, body) == done + Gotten(elem, left, rest)
    && DecodeMany(elem, size, body) == (match DecodeMany(elem, left, rest)
                                        case None => None
                                        case Some((vs, end)) => Some((done + vs, end)))
  }

  lemma OneOnTheWay(elem: Ty, size: nat, body: Bytes, done: seq<Val>, left: nat, rest: Bytes)
    requires OnTheWay(elem, size, body, done, left, rest) && left > 0
    ensures match Decode(elem, rest)
            case None => Gotten(elem, size, body) == done && DecodeMany(elem, size, body) == None
            case Some((v, more)) => OnTheWay(elem, size, body, done + [v], left - 1, more)
  {
    GottenNext(elem, left, rest);
    match Decode(elem, rest)
    case None => assert done + [] == done;
    case Some((v, more)) =>
      assert done + ([v] + Gotten(elem, left - 1, more)) == (done + [v]) + Gotten(elem, left - 1, more);
      match DecodeMany(elem, left - 1, more)
      case None =>
      case Some((vs, _)) => assert done + ([v] + vs) == (done + [v]) + vs;
  }

  lemma StartOnTheWay(elem: Ty, size: nat, body: Bytes)
    ensures OnTheWay(elem, size, body, [], size, body)
  {
    assert [] + Gotten(elem, size, body) == Gotten(elem, size, body);
    match DecodeMany(elem, size, body)
    case None =>
    case Some((vs, _)) => assert [] + vs == vs;
  }

  lemma EndOnTheWay(elem: Ty, size: nat, body: Bytes, done: seq<Val>, rest: Bytes)
    requires OnTheWay(elem, size, body, done, 0, rest)
    ensures Gotten(elem, size, body) == done && DecodeMany(elem, size, body) == Some((done, rest))
  {
    assert done + [] == done;
  }

  lemma MapFilledNext(t: Ty, done: seq<Val>, v: Val)
    requires t.TMap?
    ensures Emplace(VMap(Emplaced(done)), v) == VMap(Emplaced(done + [v]))
  {
    FilledNext(t, done, v);
  }

  /** The elements of a map, emplaced one by one into an empty one; when reading one throws, what has
      been emplaced stays. */
  method EmplaceEach(s: Serializer, t: Ty, size: nat, ghost start: Flat, ghost body: Bytes)
    returns (m: map<Val, Val>, whole: bool, ghost rest: Bytes)
    requires t.TMap? && s.StandsAt(start, body)
    modifies s.byteArray`current, s.byteArray`position, s.byteArray`at
    ensures m == Emplaced(Gotten(ElementOf(t), size, body))
    ensures if whole then DecodeMany(ElementOf(t), size, body) == Some((Gotten(ElementOf(t), size, body), rest)) &&
                          s.StandsAt(start, rest)
            else DecodeMany(ElementOf(t), size, body) == None
  {
    var elem := ElementOf(t);
    ghost var done: seq<Val>, left: nat := [], size;
    var container := VMap(map[]);
    rest := body;
    StartOnTheWay(elem, size, body);
    for i := 0 to size
      invariant left == size - i && s.StandsAt(start, rest)
      invariant OnTheWay(elem, size, body, done, left, rest)
      invariant container == VMap(Emplaced(done))
    {
      OneOnTheWay(elem, size, body, done, left, rest);
      var v;
      v, rest := s.ReadValue(elem, start, rest);
      if v == None { return container.entries, false, body; }
      MapFilledNext(t, done, v.value);
      container := Emplace(container, v.value);
      done, left := done + [v.value], left - 1;
    }
    EndOnTheWay(elem, size, body, done, rest);
    m, whole := container.entries, true;
  }

  /** `operator>>` into an empty map. */
  method ReadMap(s: Serializer, t: Ty, ghost start: Flat, ghost b: Bytes)
    returns (m: map<Val, Val>, whole: bool, ghost rest: Bytes)
    requires t.TMap? && s.StandsAt(start, b)
    modifies s.byteArray`current, s.byteArray`position, s.byteArray`at
    ensures m == MapRead(t, b) && (whole <==> Decode(t, b).Some?)
    ensures whole ==> Decode(t, b) == Some((VMap(m), rest)) && s.StandsAt(start, rest)
  {
    var size;
    size, rest := s.ReadVUint(W64, start, b);
    if size == None { return map[], false, b; }
    m, whole, rest := EmplaceEach(s, t, size.value, start, rest);
  }

  class KVServer {
    var data: map<Bytes, Bytes>
    var lastOperation: map<int, (int, Response)>
    var lastApplied: int

    ghost function State(): Server
      reads this
    {
      Server(Machine(data, lastOperation), lastApplied)
    }

    /** Construction, and the part of `start` that restores what was saved. */
    constructor (snapshot: Option<Bytes>)
      ensures State() == Server(if snapshot.Some? then ReadSnapshot(snapshot.value) else EMPTY, 0)
    {
      data, lastOperation, lastApplied := map[], map[], 0;
      new;
      if snapshot.Some? {
        Restore(snapshot.value);
      }
    }

    method IsDuplicateRequest(client: int, command: int) returns (r: bool)
      ensures r <==> client in lastOperation && lastOperation[client].0 == command
    {
      if client !in lastOperation {
        return false;
      }
      return lastOperation[client].0 == command;
    }

    method ApplyLogToStateMachine(request: Request) returns (ending: Ending, response: Response)
      modifies `data
      ensures match Execute(old(data), request)
              case None => ending == Exited && data == old(data)
              case Some((d, r)) => ending == Returned && data == d && response == r
    {
      response := Response(OK, [], -1);
      ending := Returned;
      if request.op == GET {
        if request.key !in data {
          response := response.(err := NO_KEY);
        } else {
          response := response.(value := data[request.key]);
        }
      } else if request.op == PUT {
        data := data[request.key := request.value];
      } else if request.op == APPEND {
        if request.key !in data {
          data := data[request.key := []];
        }
        data := data[request.key := data[request.key] + request.value];
      } else if request.op == DELETE {
        if request.key !in data {
          response := response.(err := NO_KEY);
        } else {
          data := data - {request.key};
        }
      } else if request.op == CLEAR {
        data := map[];
      } else {
        ending := Exited;
      }
    }

    /** `readSnapshot`. */
    method Restore(snapshot: Bytes)
      modifies `data, `lastOperation
      ensures Machine(data, lastOperation) == ReadSnapshot(snapshot)
    {
      data := map[];
      lastOperation := map[];
      var s := Open(snapshot);
      ghost var start := s.byteArray.Flat();
      var m, whole;
      ghost var rest;
      m, whole, rest := ReadMap(s, DATA, start, snapshot);
      data := DataOf(m);
      if whole {
        m, whole, rest := ReadMap(s, LAST, start, rest);
        lastOperation := LastOf(m);
      }
    }

    /** The command of one entry: looked up, or executed and remembered. */
    method Serve(request: Request) returns (ending: Ending, response: Response)
      modifies `data, `lastOperation
      ensures match Step(old(Machine(data, lastOperation)), request)
              case None => ending == Exited
              case Some((m, r)) => ending == Returned && Machine(data, lastOperation) == m && response == r
    {
      ending := Returned;
      var duplicate := IsDuplicateRequest(request.clientId, request.commandId);
      if request.op != GET && duplicate {
        response := lastOperation[request.clientId].1;
      } else {
        ending, response := ApplyLogToStateMachine(request);
        if ending == Returned && request.op != GET {
          lastOperation := lastOperation[request.clientId := (request.commandId, response)];
        }
      }
    }

    /** One round of the applier loop. */
    method HandleMessage(msg: ApplyMsg) returns (ending: Ending, response: Option<Response>)
      modifies this
      ensures match Handle(old(State()), msg)
              case None => ending == Exited
              case Some((s, r)) => ending == Returned && State() == s && response == r
    {
      ending, response := Returned, None;
      match msg {
        case SnapshotMsg(index, _, bytes) =>
          Restore(bytes);
          lastApplied := index;
        case EntryMsg(index, _, bytes) =>
          if |bytes| == 0 {
            return;
          }
          if index <= lastApplied {
            return;
          }
          lastApplied := index;
          match Parse(bytes) {
            case None => ending := Exited;
            case Some(request) =>
              var r;
              ending, r := Serve(request);
              response := Some(r);
          }
      }
    }

    /** The applier, for the messages the channel gives before it is closed. */
    method Applier(msgs: seq<ApplyMsg>) returns (ending: Ending)
      modifies this
      ensures match HandleAll(old(State()), msgs)
              case None => ending == Exited
              case Some(s) => ending == Returned && State() == s
    {
      var i := 0;
      while i < |msgs|
        invariant 0 <= i <= |msgs|
        invariant HandleAll(old(State()), msgs) == HandleAll(State(), msgs[i..])
      {
        var response;
        assert msgs[i..][0] == msgs[i] && msgs[i..][1..] == msgs[i + 1..];
        ending, response := HandleMessage(msgs[i]);
        if ending == Exited {
          return;
        }
        i := i + 1;
      }
      ending := Returned;
    }
  }
}
