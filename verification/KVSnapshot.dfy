/** Snapshots of the key-value state machine: `saveSnapshot` writes both maps one after the
    other, and `readSnapshot` restores from whatever bytes it is given. */
module KVSnapshot {
  import opened Options
  import opened Sequences
  import opened Varint
  import opened SerialFormat
  import opened KVMachine

  // ----- reading a container as far as the bytes go

  /** The elements that are read before the bytes end. */
  function Gotten(t: Ty, count: nat, b: Bytes): seq<Val>
    decreases count
  {
    if count == 0 then []
    else
      match Decode(t, b)
      case None => []
      case Some((v, rest)) => [v] + Gotten(t, count - 1, rest)
  }

  lemma {:induction false} GottenAll(t: Ty, count: nat, b: Bytes)
    ensures var r := DecodeMany(t, count, b); r.Some? ==> Gotten(t, count, b) == r.value.0
    decreases count
  {
    if count > 0 {
      match Decode(t, b)
      case None =>
      case Some((v, rest)) => GottenAll(t, count - 1, rest);
    }
  }

  /** What an empty map holds after `>>`, whether or not that throws. */
  function MapRead(t: Ty, b: Bytes): map<Val, Val>
    requires t.TMap?
  {
    match ReadVarint(b, W64)
    case None => map[]
    case Some((n, rest)) => Emplaced(Gotten(ElementOf(t), n, rest))
  }

  lemma MapReadWhole(t: Ty, b: Bytes)
    requires t.TMap?
    ensures var r := Decode(t, b); r.Some? ==> r.value.0 == VMap(MapRead(t, b))
  {
    match ReadVarint(b, W64)
    case None =>
    case Some((n, rest)) => GottenAll(ElementOf(t), n, rest);
  }

  // ----- the two maps as values

  function DataOf(m: map<Val, Val>): map<Bytes, Bytes> {
    map k | k in m && k.VText? && m[k].VText? :: k.s := m[k].s
  }

  function DataVal(d: map<Bytes, Bytes>): map<Val, Val> {
    map k | k in d :: VText(k) := VText(d[k])
  }

  function ResponseVal(r: Response): Val {
    VBoth(VNum(r.err), VBoth(VText(r.value), VBoth(VNum(r.leaderId), VNothing)))
  }

  function LastEntryOf(v: Val): Option<(int, Response)> {
    match v
    case VBoth(VNum(id), VBoth(VNum(err), VBoth(VText(value), VBoth(VNum(leader), VNothing)))) =>
      Some((id, Response(err, value, leader)))
    case _ => None
  }

  function LastOf(m: map<Val, Val>): map<int, (int, Response)> {
    map k | k in m && k.VNum? && LastEntryOf(m[k]).Some? :: k.n := LastEntryOf(m[k]).value
  }

  function LastVal(l: map<int, (int, Response)>): map<Val, Val> {
    map c | c in l :: VNum(c) := VBoth(VNum(l[c].0), ResponseVal(l[c].1))
  }

  lemma DataAsValue(d: map<Bytes, Bytes>)
    ensures DataOf(DataVal(d)) == d
  {
    var v := DataVal(d);
    forall k | k in d ensures k in DataOf(v) && DataOf(v)[k] == d[k] {
      assert VText(k) in v && v[VText(k)] == VText(d[k]);
    }
  }

  lemma LastAsValue(l: map<int, (int, Response)>)
    ensures LastOf(LastVal(l)) == l
  {
    var v := LastVal(l);
    forall c | c in l ensures c in LastOf(v) && LastOf(v)[c] == l[c] {
      assert VNum(c) in v && LastEntryOf(v[VNum(c)]) == Some(l[c]);
    }
  }

  /** `readSnapshot`: both maps are cleared and read; when that throws, what has been read stays. */
  function ReadSnapshot(b: Bytes): Machine {
    Machine(DataOf(MapRead(DATA, b)),
            match Decode(DATA, b)
            case None => map[]
            case Some((_, rest)) => LastOf(MapRead(LAST, rest)))
  }

  // ----- writing

  /** The maps as they are walked, in some order of their keys. */
  function DataItem(d: map<Bytes, Bytes>, keys: seq<Bytes>): Item
    requires forall i :: 0 <= i < |keys| ==> keys[i] in d
  {
    Items(seq(|keys|, i requires 0 <= i < |keys| => Both(Text(keys[i]), Text(d[keys[i]]))))
  }

  function ResponseItem(r: Response): Item {
    Both(Num(r.err), Both(Text(r.value), Both(Num(r.leaderId), Nothing)))
  }

  function LastItem(l: map<int, (int, Response)>, keys: seq<int>): Item
    requires forall i :: 0 <= i < |keys| ==> keys[i] in l
  {
    Items(seq(|keys|, i requires 0 <= i < |keys| =>
      Both(Num(keys[i]), Both(Num(l[keys[i]].0), ResponseItem(l[keys[i]].1)))))
  }

  /** The keys of a map in the order in which the map is walked. */
  ghost predicate Lists<K(!new), V>(keys: seq<K>, m: map<K, V>) {
    && Distinct(keys)
    && (forall i :: 0 <= i < |keys| ==> keys[i] in m)
    && (forall k :: k in m ==> k in keys)
  }

  /** `b` is what `saveSnapshot` writes for `m`. */
  ghost predicate IsSnapshot(b: Bytes, m: Machine) {
    exists dk, lk :: WritesSnapshot(b, m, dk, lk)
  }

  ghost predicate WritesSnapshot(b: Bytes, m: Machine, dk: seq<Bytes>, lk: seq<int>) {
    && Lists(dk, m.data) && Lists(lk, m.last)
    && HasType(DataItem(m.data, dk), DATA) && HasType(LastItem(m.last, lk), LAST)
    && b == Encode(DataItem(m.data, dk), DATA) + Encode(LastItem(m.last, lk), LAST)
  }

  lemma {:induction false} MeaningsAt(xs: seq<Item>, t: Ty, i: nat)
    requires AllHaveType(xs, t) && i < |xs|
    ensures HasType(xs[i], t) && Meanings(xs, t)[i] == Meaning(xs[i], t)
  {
    if i > 0 { MeaningsAt(xs[1..], t, i - 1); }
  }

  lemma DataMeans(d: map<Bytes, Bytes>, keys: seq<Bytes>)
    requires Lists(keys, d) && HasType(DataItem(d, keys), DATA)
    ensures Meaning(DataItem(d, keys), DATA) == VMap(DataVal(d))
  {
    var xs, t := DataItem(d, keys).items, ElementOf(DATA);
    var ks := seq(|keys|, i requires 0 <= i < |keys| => VText(keys[i]));
    forall i | 0 <= i < |keys|
      ensures Meanings(xs, t)[i] == VBoth(ks[i], DataVal(d)[ks[i]])
    {
      MeaningsAt(xs, t, i);
    }
    assert Meanings(xs, t) == Pairs(DataVal(d), ks);
    forall k | k in DataVal(d) ensures k in ks {
      var i :| 0 <= i < |keys| && keys[i] == k.s;
      assert ks[i] == k;
    }
    MapComesBack(DataVal(d), ks);
  }

  lemma LastMeans(l: map<int, (int, Response)>, keys: seq<int>)
    requires Lists(keys, l) && HasType(LastItem(l, keys), LAST)
    ensures Meaning(LastItem(l, keys), LAST) == VMap(LastVal(l))
  {
    var xs, t := LastItem(l, keys).items, ElementOf(LAST);
    var ks := seq(|keys|, i requires 0 <= i < |keys| => VNum(keys[i]));
    forall i | 0 <= i < |keys|
      ensures Meanings(xs, t)[i] == VBoth(ks[i], LastVal(l)[ks[i]])
    {
      MeaningsAt(xs, t, i);
    }
    assert Meanings(xs, t) == Pairs(LastVal(l), ks);
    forall k | k in LastVal(l) ensures k in ks {
      var i :| 0 <= i < |keys| && keys[i] == k.n;
      assert ks[i] == k;
    }
    MapComesBack(LastVal(l), ks);
  }

  /** A server restored from a snapshot has the state of the one that saved it. */
  lemma SnapshotRoundTrip(b: Bytes, m: Machine)
    requires IsSnapshot(b, m)
    ensures ReadSnapshot(b) == m
  {
    var dk, lk :| WritesSnapshot(b, m, dk, lk);
    var data, last := DataItem(m.data, dk), LastItem(m.last, lk);
    RoundTrip(data, DATA, Encode(last, LAST));
    RoundTrip(last, LAST, []);
    assert Encode(last, LAST) + [] == Encode(last, LAST);
    DataMeans(m.data, dk);
    LastMeans(m.last, lk);
    MapReadWhole(DATA, b);
    MapReadWhole(LAST, Encode(last, LAST));
    DataAsValue(m.data);
    LastAsValue(m.last);
  }
}
