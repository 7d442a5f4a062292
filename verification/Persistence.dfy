/** The file of `Persister`: the hard state and behind it the entries, written with one
    serializer and read back with another. */
module Persistence {
  import opened Options
  import opened Varint
  import opened SerialFormat
  import opened ByteFlat
  import opened ByteArrayClass
  import opened SerializerClass

  datatype HardState = HardState(term: int, vote: int, commit: int)
  datatype Record = Record(index: int, term: int, data: seq<Byte>)

  const HARD: Ty := TPair(TInt(W64), TPair(TInt(W64), TPair(TInt(W64), TUnit)))
  const ENTRY: Ty := TPair(TInt(W64), TPair(TInt(W64), TPair(TString, TUnit)))
  const ENTRIES: Ty := TList(ENTRY)

  function HardItem(hs: HardState): Item {
    Both(Num(hs.term), Both(Num(hs.vote), Both(Num(hs.commit), Nothing)))
  }

  function EntryItem(e: Record): Item {
    Both(Num(e.index), Both(Num(e.term), Both(Text(e.data), Nothing)))
  }

  function EntriesItem(es: seq<Record>): Item {
    Items(seq(|es|, i requires 0 <= i < |es| => EntryItem(es[i])))
  }

  /** The fields are 64 bits wide, and lengths are `size_t`. */
  predicate Storable(hs: HardState, es: seq<Record>) {
    HasType(HardItem(hs), HARD) && HasType(EntriesItem(es), ENTRIES)
  }

  function File(hs: HardState, es: seq<Record>): seq<Byte>
    requires Storable(hs, es)
  {
    Encode(HardItem(hs), HARD) + Encode(EntriesItem(es), ENTRIES)
  }

  /** A signed number as it stands in the file. */
  function Code(n: int): seq<Byte> {
    EncodeVarint(if n >= 0 then 2 * n else -2 * n - 1)
  }

  function HardLayout(hs: HardState): seq<Byte> {
    Code(hs.term) + (Code(hs.vote) + Code(hs.commit))
  }

  function RecordLayout(e: Record): seq<Byte> {
    Code(e.index) + (Code(e.term) + (EncodeVarint(|e.data|) + e.data))
  }

  function RecordsLayout(es: seq<Record>): seq<Byte> {
    if es == [] then [] else RecordLayout(es[0]) + RecordsLayout(es[1..])
  }

  lemma RecordLaidOut(e: Record)
    requires HasType(EntryItem(e), ENTRY)
    ensures Encode(EntryItem(e), ENTRY) == RecordLayout(e)
  {
    ZigzagInterleaves(e.index, W64);
    ZigzagInterleaves(e.term, W64);
    assert EncodeVarint(|e.data|) + e.data + [] == EncodeVarint(|e.data|) + e.data;
  }

  lemma HardLaidOut(hs: HardState)
    requires HasType(HardItem(hs), HARD)
    ensures Encode(HardItem(hs), HARD) == HardLayout(hs)
  {
    ZigzagInterleaves(hs.term, W64);
    ZigzagInterleaves(hs.vote, W64);
    ZigzagInterleaves(hs.commit, W64);
    assert Code(hs.commit) + [] == Code(hs.commit);
  }

  lemma {:induction false} RecordsLaidOut(es: seq<Record>)
    requires AllHaveType(EntriesItem(es).items, ENTRY)
    ensures EncodeAll(EntriesItem(es).items, ENTRY) == RecordsLayout(es)
  {
    if es != [] {
      assert EntriesItem(es).items[1..] == EntriesItem(es[1..]).items;
      RecordLaidOut(es[0]);
      RecordsLaidOut(es[1..]);
    }
  }

  lemma EntriesLaidOut(es: seq<Record>)
    requires HasType(EntriesItem(es), ENTRIES)
    ensures Encode(EntriesItem(es), ENTRIES) == EncodeVarint(|es|) + RecordsLayout(es)
  {
    assert ElementOf(ENTRIES) == ENTRY && |EntriesItem(es).items| == |es|;
    RecordsLaidOut(es);
  }

  /** The file byte by byte: term, vote and commit index, the number of entries, and of each its index, its term
      and its data with their length before them. */
  lemma FileLaidOut(hs: HardState, es: seq<Record>)
    requires Storable(hs, es)
    ensures File(hs, es) == HardLayout(hs) + (EncodeVarint(|es|) + RecordsLayout(es))
  {
    HardLaidOut(hs);
    EntriesLaidOut(es);
  }

  // ----- reading back

  function HardOf(v: Val): Option<HardState> {
    match v
    case VBoth(VNum(term), VBoth(VNum(vote), VBoth(VNum(commit), VNothing))) => Some(HardState(term, vote, commit))
    case _ => None
  }

  function EntryOf(v: Val): Option<Record> {
    match v
    case VBoth(VNum(index), VBoth(VNum(term), VBoth(VText(data), VNothing))) => Some(Record(index, term, data))
    case _ => None
  }

  function EntriesOf(vs: seq<Val>): Option<seq<Record>> {
    if vs == [] then Some([])
    else
      match (EntryOf(vs[0]), EntriesOf(vs[1..]))
      case (Some(e), Some(es)) => Some([e] + es)
      case _ => None
  }

  /** `loadHardState` of a file that is there. */
  function LoadHardState(file: seq<Byte>): Option<HardState> {
    match Decode(HARD, file)
    case None => None
    case Some((v, _)) => HardOf(v)
  }

  /** `loadEntries` of a file that is there. */
  function LoadEntries(file: seq<Byte>): Option<seq<Record>> {
    match Decode(HARD, file)
    case None => None
    case Some((_, rest)) =>
      match Decode(ENTRIES, rest)
      case Some((VList(vs), _)) => EntriesOf(vs)
      case _ => None
  }

  lemma {:induction false} EntriesMean(es: seq<Record>)
    requires AllHaveType(EntriesItem(es).items, ENTRY)
    ensures EntriesOf(Meanings(EntriesItem(es).items, ENTRY)) == Some(es)
  {
    if es != [] {
      var items := EntriesItem(es).items;
      assert items[1..] == EntriesItem(es[1..]).items && items[0] == EntryItem(es[0]);
      EntriesMean(es[1..]);
      assert EntryOf(Meaning(EntryItem(es[0]), ENTRY)) == Some(es[0]);
      assert [es[0]] + es[1..] == es;
    }
  }

  lemma HardStateLoads(hs: HardState, rest: seq<Byte>)
    requires HasType(HardItem(hs), HARD)
    ensures LoadHardState(Encode(HardItem(hs), HARD) + rest) == Some(hs)
  {
    RoundTrip(HardItem(hs), HARD, rest);
  }

  /** What was persisted is what is loaded. */
  lemma PersistedLoads(hs: HardState, es: seq<Record>)
    requires Storable(hs, es)
    ensures LoadHardState(File(hs, es)) == Some(hs) && LoadEntries(File(hs, es)) == Some(es)
  {
    var tail := Encode(EntriesItem(es), ENTRIES);
    HardStateLoads(hs, tail);
    assert LoadEntries(File(hs, es)) == Some(es) by {
      RoundTrip(HardItem(hs), HARD, tail);
      RoundTrip(EntriesItem(es), ENTRIES, []);
      assert tail + [] == tail;
      EntriesMean(es);
    }
  }

  /** A file that was cut off loads no entries, and the hard state just when that was complete:
      a node that starts from such a file keeps its vote but not its log. */
  lemma CutFileLoads(hs: HardState, es: seq<Record>, k: nat)
    requires Storable(hs, es) && k < |File(hs, es)|
    ensures LoadEntries(File(hs, es)[..k]) == None
    ensures LoadHardState(File(hs, es)[..k]) ==
            if k < |Encode(HardItem(hs), HARD)| then None else Some(hs)
  {
    var front, tail := Encode(HardItem(hs), HARD), Encode(EntriesItem(es), ENTRIES);
    if k < |front| {
      assert File(hs, es)[..k] == front[..k];
      Truncated(HardItem(hs), HARD, k);
    } else {
      assert File(hs, es)[..k] == front + tail[..k - |front|];
      RoundTrip(HardItem(hs), HARD, tail[..k - |front|]);
      Truncated(EntriesItem(es), ENTRIES, k - |front|);
    }
  }

  // ----- over the buffer

  lemma WroteFromFront(start: Flat, g: Flat, done: seq<Byte>)
    requires Wrote(start, g, done) && start.size == 0
    ensures g.Valid() && g.(position := 0).Readable() == done
  {
  }

  /** `persist`, up to the bytes that go to the file. */
  method Persist(hs: HardState, es: seq<Record>) returns (file: seq<Byte>)
    requires Storable(hs, es)
    ensures file == File(hs, es)
  {
    var buffer := new ByteArray(NODE_SIZE);
    var s := new Serializer(buffer);
    ghost var start := buffer.Flat();
    ghost var done := s.WriteItem(HardItem(hs), HARD, start, []);
    done := s.WriteItem(EntriesItem(es), ENTRIES, start, done);
    assert done == File(hs, es) by { Joined([], Encode(HardItem(hs), HARD), Encode(EntriesItem(es), ENTRIES)); }
    WroteFromFront(start, buffer.Flat(), done);
    var ok := buffer.SetPosition(0);
    file := buffer.ToString();
  }

  method Load(file: seq<Byte>) returns (hs: Option<HardState>, es: Option<seq<Record>>)
    ensures hs == LoadHardState(file) && es == LoadEntries(file)
  {
    var s := Open(file);
    ghost var start := s.byteArray.Flat();
    var v, u;
    ghost var rest, end;
    v, rest := s.ReadValue(HARD, start, file);
    if v == None {
      return None, None;
    }
    hs := HardOf(v.value);
    u, end := s.ReadValue(ENTRIES, start, rest);
    es := if u.Some? && u.value.VList? then EntriesOf(u.value.list) else None;
  }
}
