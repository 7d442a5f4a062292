/** The key-value state machine behind the replicated log, as a function of the committed
    commands: what one command does, and how a server that is fed commands and snapshots in
    any mix stays at the fold of the committed log. */
module KVMachine {
  import opened Options
  import opened Varint
  import opened SerialFormat

  type Bytes = seq<Byte>

  // ----- commands

  /** `Operation` and `Error`, by number as they travel. */
  const GET := 0
  const PUT := 1
  const APPEND := 2
  const DELETE := 3
  const CLEAR := 4

  const OK := 0
  const NO_KEY := 1

  datatype Request = Request(op: int, key: Bytes, value: Bytes, clientId: int, commandId: int)
  datatype Response = Response(err: int, value: Bytes, leaderId: int)

  const DONE := Response(OK, [], -1)

  /** `m_data` and `m_lastOperation`, the table of each client's last command and its response. */
  datatype Machine = Machine(data: map<Bytes, Bytes>, last: map<int, (int, Response)>)

  const EMPTY := Machine(map[], map[])

  /** `applyLogToStateMachine`; nothing where the process exits. */
  function Execute(data: map<Bytes, Bytes>, r: Request): Option<(map<Bytes, Bytes>, Response)> {
    if r.op == GET then
      Some((data, if r.key in data then DONE.(value := data[r.key]) else DONE.(err := NO_KEY)))
    else if r.op == PUT then Some((data[r.key := r.value], DONE))
    else if r.op == APPEND then
      Some((data[r.key := (if r.key in data then data[r.key] else []) + r.value], DONE))
    else if r.op == DELETE then
      if r.key in data then Some((data - {r.key}, DONE)) else Some((data, DONE.(err := NO_KEY)))
    else if r.op == CLEAR then Some((map[], DONE))
    else None
  }

  predicate Mutates(r: Request) { r.op != GET }

  predicate IsDuplicate(last: map<int, (int, Response)>, r: Request) {
    r.clientId in last && last[r.clientId].0 == r.commandId
  }

  /** The middle of the applier: a mutating command that repeats its client's last one is
      answered from the table; any other is executed and, if it mutates, remembered. */
  function Step(m: Machine, r: Request): Option<(Machine, Response)> {
    if Mutates(r) && IsDuplicate(m.last, r) then Some((m, m.last[r.clientId].1))
    else
      match Execute(m.data, r)
      case None => None
      case Some((data, response)) =>
        Some((Machine(data, if Mutates(r) then m.last[r.clientId := (r.commandId, response)] else m.last), response))
  }

  // ----- the fold of a log

  /** One committed entry: an empty one, as a new leader may write, does nothing. `parse` is
      `msg.as<CommandRequest>()`, which throws on data that is no request. */
  function StepEntry(m: Machine, data: Bytes): Option<(Machine, Option<Response>)> {
    if data == [] then Some((m, None))
    else
      match Parse(data)
      case None => None
      case Some(r) =>
        match Step(m, r)
        case None => None
        case Some((m', response)) => Some((m', Some(response)))
  }

  function Fold(log: seq<Bytes>): Option<Machine> {
    if log == [] then Some(EMPTY)
    else
      match Fold(log[..|log| - 1])
      case None => None
      case Some(m) =>
        match StepEntry(m, log[|log| - 1])
        case None => None
        case Some((m', _)) => Some(m')
  }

  // ----- requests and snapshots as bytes

  const REQUEST: Ty :=
    TPair(TInt(W32), TPair(TString, TPair(TString, TPair(TInt(W64), TPair(TInt(W64), TUnit)))))

  const RESPONSE: Ty := TPair(TInt(W32), TPair(TString, TPair(TInt(W64), TUnit)))

  const DATA: Ty := TMap(TString, TString)
  const LAST: Ty := TMap(TInt(W64), TPair(TInt(W64), RESPONSE))

  function RequestItem(r: Request): Item {
    Both(Num(r.op), Both(Text(r.key), Both(Text(r.value), Both(Num(r.clientId), Both(Num(r.commandId), Nothing)))))
  }

  function RequestOf(v: Val): Option<Request> {
    match v
    case VBoth(VNum(op), VBoth(VText(key), VBoth(VText(value), VBoth(VNum(client), VBoth(VNum(command), VNothing))))) =>
      Some(Request(op, key, value, client, command))
    case _ => None
  }

  function Parse(b: Bytes): Option<Request> {
    match Decode(REQUEST, b)
    case None => None
    case Some((v, _)) => RequestOf(v)
  }

  /** A request is read back by the server that applies it. */
  lemma RequestRoundTrip(r: Request)
    requires HasType(RequestItem(r), REQUEST)
    ensures Parse(Encode(RequestItem(r), REQUEST)) == Some(r)
  {
    var b := Encode(RequestItem(r), REQUEST);
    assert b + [] == b;
    RoundTrip(RequestItem(r), REQUEST, []);
  }

  /** The bytes of a request with numbers that are not negative: the operation by its number, key and value with
      their lengths before them, the two ids. */
  lemma RequestBytes(r: Request)
    requires HasType(RequestItem(r), REQUEST) && r.op >= 0 && r.clientId >= 0 && r.commandId >= 0
    ensures Encode(RequestItem(r), REQUEST) ==
            EncodeVarint(2 * r.op) + (EncodeVarint(|r.key|) + r.key + (EncodeVarint(|r.value|) + r.value +
            (EncodeVarint(2 * r.clientId) + (EncodeVarint(2 * r.commandId) + []))))
  {
    ZigzagInterleaves(r.op, W32);
    ZigzagInterleaves(r.clientId, W64);
    ZigzagInterleaves(r.commandId, W64);
  }

  /** Client 7 puts "v" under "k" with its command 9. */
  lemma PutBytes()
    ensures var r := Request(1, [107], [118], 7, 9);
      && HasType(RequestItem(r), REQUEST) && Encode(RequestItem(r), REQUEST) == [2, 1, 107, 1, 118, 14, 18]
      && r.op == PUT
  {
    var r := Request(1, [107], [118], 7, 9);
    RequestBytes(r);
    assert EncodeVarint(2) == [2] && EncodeVarint(1) == [1] && EncodeVarint(14) == [14] && EncodeVarint(18) == [18];
  }
}
