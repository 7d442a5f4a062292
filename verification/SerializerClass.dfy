/** `Serializer`: its operators move the cursor of one shared `ByteArray` and fill containers in
    loops.  Writing is proved to lay down the bytes of `SerialFormat.Encode`, reading to do
    what `SerialFormat.Decode` does to the bytes from the cursor on. */
module SerializerClass {
  import opened Options
  import opened Varint
  import opened ByteFlat
  import opened ByteArrayClass
  import opened SerialFormat
  import FixedInt

  // ----- what a write and a read do to the bytes

  /** `g` is `f` after `bytes` have been written at the cursor, as far as any reader can tell. */
  ghost predicate Wrote(f: Flat, g: Flat, bytes: seq<Byte>) {
    && f.Valid() && g.Valid()
    && g.position == f.position + |bytes|
    && g.size == (if g.position > f.size then g.position else f.size)
    && forall k :: 0 <= k < g.size ==>
         g.mem[k] == if f.position <= k < g.position then bytes[k - f.position] else f.mem[k]
  }

  lemma WroteOne(f: Flat, bytes: seq<Byte>, node: nat)
    requires f.Valid() && node > 0
    ensures Wrote(f, f.Write(bytes, node), bytes)
  {
  }

  lemma WroteBoth(f: Flat, g: Flat, h: Flat, a: seq<Byte>, b: seq<Byte>)
    requires Wrote(f, g, a) && Wrote(g, h, b)
    ensures Wrote(f, h, a + b)
  {
  }

  /** What that leaves in the array. */
  lemma WroteContents(f: Flat, g: Flat, bytes: seq<Byte>)
    requires Wrote(f, g, bytes)
    ensures g.Contents() == f.Contents()[..f.position] + bytes
              + (if g.position < f.size then f.Contents()[g.position..] else [])
  {
  }

  /** `g` is `f` with the cursor at the end of what has been read, `rest` being still to read. */
  ghost predicate ReadUpTo(f: Flat, g: Flat, rest: seq<Byte>) {
    f.Valid() && g.Valid() && g.mem == f.mem && g.size == f.size && g.Readable() == rest
  }

  lemma ReadIsPrefix(f: Flat, count: nat)
    requires f.Valid()
    ensures match f.Read(count)
            case None => |f.Readable()| < count
            case Some((bytes, g)) =>
              count <= |f.Readable()| && bytes == f.Readable()[..count] && ReadUpTo(f, g, f.Readable()[count..])
  {
  }

  /** Reading a number from `all` has come to `b`, with `units` to go. */
  ghost predicate Reading(all: seq<Byte>, b: seq<Byte>, units: nat, scale: nat, acc: nat, w: Width) {
    ReadVarint(all, w) == ReadUnits(b, units, scale, acc, w)
  }

  function Accumulated(acc: nat, scale: nat, unit: Byte, w: Width): nat {
    (acc + scale * (unit as nat % 0x80)) % w.Size()
  }

  lemma ReadingNext(all: seq<Byte>, b: seq<Byte>, units: nat, scale: nat, acc: nat, w: Width)
    requires Reading(all, b, units, scale, acc, w) && units > 0 && b != [] && b[0] >= 0x80
    ensures Reading(all, b[1..], units - 1, 0x80 * scale, Accumulated(acc, scale, b[0], w), w)
  {
  }

  lemma ReadingEnds(all: seq<Byte>, b: seq<Byte>, units: nat, scale: nat, acc: nat, w: Width)
    requires Reading(all, b, units, scale, acc, w)
    ensures units == 0 ==> ReadVarint(all, w) == Some((acc, b))
    ensures units > 0 && b == [] ==> ReadVarint(all, w) == None
    ensures units > 0 && b != [] && b[0] < 0x80 ==>
              ReadVarint(all, w) == Some((Accumulated(acc, scale, b[0], w), b[1..]))
  {
  }

  /** `emplace_back` and `emplace`. */
  function Emplace(container: Val, v: Val): Val {
    match container
    case VList(list) => VList(list + [v])
    case VSet(elems) => VSet(elems + {v})
    case VBag(bag) => VBag(bag + multiset{v})
    case VMap(m) => if !v.VBoth? || v.first in m then VMap(m) else VMap(m[v.first := v.second])
    case _ => container
  }

  lemma FilledNext(t: Ty, vs: seq<Val>, v: Val)
    requires IsContainer(t)
    ensures Emplace(Filled(t, vs), v) == Filled(t, vs + [v])
  {
    match t
    case TSet(_) => assert (set x | x in vs + [v]) == (set x | x in vs) + {v};
    case TMap(_, _) => assert (vs + [v])[..|vs|] == vs;
    case _ =>
  }

  /** Reading `left` more elements behind those in `vs`, and filling them all into a container. */
  function DecodeOnto(t: Ty, left: nat, b: seq<Byte>, container: Val): Option<(Val, seq<Byte>)>
    decreases left
  {
    if left == 0 then Some((container, b))
    else
      match Decode(t, b)
      case None => None
      case Some((v, rest)) => DecodeOnto(t, left - 1, rest, Emplace(container, v))
  }

  lemma {:induction false} OntoFilled(t: Ty, left: nat, b: seq<Byte>, vs: seq<Val>)
    requires IsContainer(t)
    ensures DecodeOnto(ElementOf(t), left, b, Filled(t, vs)) ==
            match DecodeMany(ElementOf(t), left, b)
            case None => None
            case Some((more, end)) => Some((Filled(t, vs + more), end))
    decreases left
  {
    if left == 0 {
      assert vs + [] == vs;
    } else if Decode(ElementOf(t), b).Some? {
      var (v, rest) := Decode(ElementOf(t), b).value;
      FilledNext(t, vs, v);
      OntoFilled(t, left - 1, rest, vs + [v]);
      if DecodeMany(ElementOf(t), left - 1, rest).Some? {
        var more := DecodeMany(ElementOf(t), left - 1, rest).value.0;
        assert vs + ([v] + more) == (vs + [v]) + more;
      }
    }
  }

  lemma ContainerDecodes(t: Ty, b: seq<Byte>, n: nat, body: seq<Byte>)
    requires IsContainer(t) && ReadVarint(b, W64) == Some((n, body))
    ensures Decode(t, b) == DecodeOnto(ElementOf(t), n, body, Filled(t, []))
  {
    OntoFilled(t, n, body, []);
    var r := DecodeMany(ElementOf(t), n, body);
    assert r.Some? ==> [] + r.value.0 == r.value.0;
  }

  /** With `rest` still to be written, `now` is on its way to `all`. */
  ghost predicate Laying(now: seq<Byte>, rest: seq<Item>, elem: Ty, all: seq<Byte>) {
    AllHaveType(rest, elem) && now + EncodeAll(rest, elem) == all
  }

  lemma LayingNext(now: seq<Byte>, rest: seq<Item>, elem: Ty, all: seq<Byte>)
    requires Laying(now, rest, elem, all) && rest != []
    ensures HasType(rest[0], elem) && Laying(now + Encode(rest[0], elem), rest[1..], elem, all)
  {
  }

  class Serializer {
    const byteArray: ByteArray

    constructor (byteArray: ByteArray)
      ensures this.byteArray == byteArray
    {
      this.byteArray := byteArray;
    }

    // ----- writing

    /** What has been written since the array was `start`. */
    ghost predicate Written(start: Flat, done: seq<Byte>)
      reads byteArray, byteArray.nodes, byteArray.buffers
    {
      byteArray.Valid() && byteArray.Owns() && Wrote(start, byteArray.Flat(), done)
    }

    method WriteBytes(bytes: seq<Byte>, ghost start: Flat, ghost done: seq<Byte>)
      requires Written(start, done)
      modifies byteArray, byteArray.Repr
      ensures Written(start, done + bytes) && fresh(byteArray.Repr - old(byteArray.Repr))
    {
      WroteOne(byteArray.Flat(), bytes, byteArray.nodeSize);
      WroteBoth(start, byteArray.Flat(), byteArray.Flat().Write(bytes, byteArray.nodeSize), done, bytes);
      byteArray.Write(bytes);
    }

    /** `writeVUint32` and `writeVUint64`: the units are collected and written together. */
    method WriteVUint(value: nat, w: Width, ghost start: Flat, ghost done: seq<Byte>)
      requires Unsigned(value, w) && Written(start, done)
      modifies byteArray, byteArray.Repr
      ensures Written(start, done + EncodeVarint(value)) && fresh(byteArray.Repr - old(byteArray.Repr))
    {
      var units := VarintUnits(value, w);
      WriteBytes(units, start, done);
    }

    /** `operator<<` for a value of type `t`. */
    method WriteItem(x: Item, t: Ty, ghost start: Flat, ghost done: seq<Byte>) returns (ghost now: seq<Byte>)
      requires HasType(x, t) && Written(start, done)
      modifies byteArray, byteArray.Repr
      ensures now == done + Encode(x, t)
      ensures Written(start, now) && fresh(byteArray.Repr - old(byteArray.Repr))
      decreases Weight(t), 2
    {
      now := done + Encode(x, t);
      match t
      case TFixed(n) => WriteBytes(FixedInt.Write(x.n, n, FixedInt.Big, FixedInt.Little), start, done);
      case TInt(w) =>
        ZigzagBijection(x.n, 0, w);
        WriteVUint(EncodeZigzag(x.n, w), w, start, done);
      case TUint(w) => WriteVUint(x.n, w, start, done);
      case TString => now := WriteString(x.s, start, done);
      case TUnit => assert now == done;
      case TPair(first, second) => now := WritePair(x, first, second, start, done);
      case _ => now := WriteContainer(x.items, t, start, done);
    }

    /** `writeStringVint`. */
    method WriteString(text: seq<Byte>, ghost start: Flat, ghost done: seq<Byte>) returns (ghost now: seq<Byte>)
      requires Unsigned(|text|, W64) && Written(start, done)
      modifies byteArray, byteArray.Repr
      ensures now == done + (EncodeVarint(|text|) + text)
      ensures Written(start, now) && fresh(byteArray.Repr - old(byteArray.Repr))
    {
      Joined(done, EncodeVarint(|text|), text);
      now := done + EncodeVarint(|text|);
      WriteVUint(|text|, W64, start, done);
      WriteBytes(text, start, now);
      now := now + text;
    }

    method WritePair(x: Item, first: Ty, second: Ty, ghost start: Flat, ghost done: seq<Byte>)
      returns (ghost now: seq<Byte>)
      requires HasType(x, TPair(first, second)) && Written(start, done)
      modifies byteArray, byteArray.Repr
      ensures now == done + Encode(x, TPair(first, second))
      ensures Written(start, now) && fresh(byteArray.Repr - old(byteArray.Repr))
      decreases Weight(TPair(first, second)), 0
    {
      Joined(done, Encode(x.first, first), Encode(x.second, second));
      now := WriteItem(x.first, first, start, done);
      now := WriteItem(x.second, second, start, now);
    }

    /** The container operators: the size, and then a loop over the elements. */
    method WriteContainer(items: seq<Item>, t: Ty, ghost start: Flat, ghost done: seq<Byte>)
      returns (ghost now: seq<Byte>)
      requires IsContainer(t) && HasType(Items(items), t) && Written(start, done)
      modifies byteArray, byteArray.Repr
      ensures now == done + Encode(Items(items), t)
      ensures Written(start, now) && fresh(byteArray.Repr - old(byteArray.Repr))
      decreases Weight(t), 1
    {
      Joined(done, EncodeVarint(|items|), EncodeAll(items, ElementOf(t)));
      now := done + EncodeVarint(|items|);
      WriteVUint(|items|, W64, start, done);
      now := WriteElements(items, ElementOf(t), start, now);
    }

    method WriteElements(items: seq<Item>, elem: Ty, ghost start: Flat, ghost done: seq<Byte>)
      returns (ghost now: seq<Byte>)
      requires AllHaveType(items, elem) && Written(start, done)
      modifies byteArray, byteArray.Repr
      ensures now == done + EncodeAll(items, elem)
      ensures Written(start, now) && fresh(byteArray.Repr - old(byteArray.Repr))
      decreases Weight(elem), 3
    {
      now := done;
      ghost var rest := items;
      for i := 0 to |items|
        invariant rest == items[i..] && Laying(now, rest, elem, done + EncodeAll(items, elem))
        invariant Written(start, now) && fresh(byteArray.Repr - old(byteArray.Repr))
      {
        LayingNext(now, rest, elem, done + EncodeAll(items, elem));
        assert rest[0] == items[i] && rest[1..] == items[i + 1..];
        now := WriteItem(items[i], elem, start, now);
        rest := rest[1..];
      }
      assert now + EncodeAll([], elem) == now;
    }

    // ----- reading

    /** The cursor is where `rest` is still to read, and the bytes are those of `start`. */
    ghost predicate StandsAt(start: Flat, rest: seq<Byte>)
      reads byteArray, byteArray.nodes, byteArray.buffers
    {
      byteArray.Valid() && ReadUpTo(start, byteArray.Flat(), rest)
    }

    method ReadBytes(count: nat, ghost start: Flat, ghost b: seq<Byte>) returns (r: Option<seq<Byte>>)
      requires StandsAt(start, b)
      modifies byteArray`current, byteArray`position, byteArray`at
      ensures if |b| < count then r == None && StandsAt(start, b)
              else r == Some(b[..count]) && StandsAt(start, b[count..])
    {
      ReadIsPrefix(byteArray.Flat(), count);
      r := byteArray.Read(count);
    }

    method ReadUint8(ghost start: Flat, ghost b: seq<Byte>) returns (r: Option<Byte>)
      requires StandsAt(start, b)
      modifies byteArray`current, byteArray`position, byteArray`at
      ensures if b == [] then r == None && StandsAt(start, b)
              else r == Some(b[0]) && StandsAt(start, b[1..])
    {
      var tmp := ReadBytes(1, start, b);
      r := if tmp == None then None else Some(tmp.value[0]);
    }

    /** `readVUint32` and `readVUint64`, a byte at a time. */
    method ReadVUint(w: Width, ghost start: Flat, ghost all: seq<Byte>) returns (r: Option<nat>, ghost rest: seq<Byte>)
      requires StandsAt(start, all)
      modifies byteArray`current, byteArray`position, byteArray`at
      ensures r.None? ==> ReadVarint(all, w) == None && byteArray.Valid()
      ensures r.Some? ==> ReadVarint(all, w) == Some((r.value, rest)) && StandsAt(start, rest)
    {
      var result: nat, scale: nat := 0, 1;
      ghost var left: nat := w.MaxUnits();
      rest := all;
      for i := 0 to w.MaxUnits()
        invariant left == w.MaxUnits() - i
        invariant StandsAt(start, rest) && Reading(all, rest, left, scale, result, w)
      {
        ReadingEnds(all, rest, left, scale, result, w);
        var unit := ReadUint8(start, rest);
        if unit == None {
          return None, rest;
        }
        if unit.value < 0x80 {
          return Some(Accumulated(result, scale, unit.value, w)), rest[1..];
        }
        ReadingNext(all, rest, left, scale, result, w);
        result := Accumulated(result, scale, unit.value, w);
        scale := 0x80 * scale;
        rest, left := rest[1..], left - 1;
      }
      ReadingEnds(all, rest, left, scale, result, w);
      r := Some(result);
    }

    /** `operator>>` for a value of type `t`; with too few bytes it throws, and the cursor stays
        somewhere in them. */
    method ReadValue(t: Ty, ghost start: Flat, ghost b: seq<Byte>) returns (r: Option<Val>, ghost rest: seq<Byte>)
      requires StandsAt(start, b)
      modifies byteArray`current, byteArray`position, byteArray`at
      ensures r.None? ==> Decode(t, b) == None && byteArray.Valid()
      ensures r.Some? ==> Decode(t, b) == Some((r.value, rest)) && StandsAt(start, rest)
      decreases Weight(t), 2
    {
      rest := b;
      match t
      case TFixed(n) =>
        var bytes := ReadBytes(n, start, b);
        if bytes == None { return None, b; }
        r, rest := Some(VNum(FixedInt.Read(bytes.value, FixedInt.Big, FixedInt.Little))), b[n..];
      case TInt(w) =>
        var u;
        u, rest := ReadVUint(w, start, b);
        r := if u == None then None else Some(VNum(DecodeZigzag(u.value, w)));
      case TUint(w) =>
        var u;
        u, rest := ReadVUint(w, start, b);
        r := if u == None then None else Some(VNum(u.value));
      case TString => r, rest := ReadString(start, b);
      case TUnit => r := Some(VNothing);
      case TPair(first, second) => r, rest := ReadPair(first, second, start, b);
      case _ => r, rest := ReadContainer(t, start, b);
    }

    /** `readStringVint`. */
    method ReadString(ghost start: Flat, ghost b: seq<Byte>) returns (r: Option<Val>, ghost rest: seq<Byte>)
      requires StandsAt(start, b)
      modifies byteArray`current, byteArray`position, byteArray`at
      ensures r.None? ==> Decode(TString, b) == None && byteArray.Valid()
      ensures r.Some? ==> Decode(TString, b) == Some((r.value, rest)) && StandsAt(start, rest)
    {
      var n;
      n, rest := ReadVUint(W64, start, b);
      if n == None { return None, b; }
      var bytes := ReadBytes(n.value, start, rest);
      if bytes == None { return None, b; }
      r, rest := Some(VText(bytes.value)), rest[n.value..];
    }

    method ReadPair(first: Ty, second: Ty, ghost start: Flat, ghost b: seq<Byte>)
      returns (r: Option<Val>, ghost rest: seq<Byte>)
      requires StandsAt(start, b)
      modifies byteArray`current, byteArray`position, byteArray`at
      ensures r.None? ==> Decode(TPair(first, second), b) == None && byteArray.Valid()
      ensures r.Some? ==> Decode(TPair(first, second), b) == Some((r.value, rest)) && StandsAt(start, rest)
      decreases Weight(TPair(first, second)), 0
    {
      var x, y;
      x, rest := ReadValue(first, start, b);
      if x == None { return None, b; }
      y, rest := ReadValue(second, start, rest);
      r := if y == None then None else Some(VBoth(x.value, y.value));
    }

    /** The container operators: the size, and then a loop over the elements. */
    method ReadContainer(t: Ty, ghost start: Flat, ghost b: seq<Byte>) returns (r: Option<Val>, ghost rest: seq<Byte>)
      requires IsContainer(t) && StandsAt(start, b)
      modifies byteArray`current, byteArray`position, byteArray`at
      ensures r.None? ==> Decode(t, b) == None && byteArray.Valid()
      ensures r.Some? ==> Decode(t, b) == Some((r.value, rest)) && StandsAt(start, rest)
      decreases Weight(t), 1
    {
      var size;
      size, rest := ReadVUint(W64, start, b);
      if size == None { return None, b; }
      ContainerDecodes(t, b, size.value, rest);
      r, rest := ReadElements(ElementOf(t), size.value, Filled(t, []), start, rest);
    }

    method ReadElements(elem: Ty, size: nat, empty: Val, ghost start: Flat, ghost b: seq<Byte>)
      returns (r: Option<Val>, ghost rest: seq<Byte>)
      requires StandsAt(start, b)
      modifies byteArray`current, byteArray`position, byteArray`at
      ensures r.None? ==> DecodeOnto(elem, size, b, empty) == None && byteArray.Valid()
      ensures r.Some? ==> DecodeOnto(elem, size, b, empty) == Some((r.value, rest)) && StandsAt(start, rest)
      decreases Weight(elem), 3
    {
      var container := empty;
      ghost var left: nat := size;
      rest := b;
      for i := 0 to size
        invariant left == size - i && StandsAt(start, rest)
        invariant DecodeOnto(elem, size, b, empty) == DecodeOnto(elem, left, rest, container)
      {
        var v;
        v, rest := ReadValue(elem, start, rest);
        if v == None { return None, b; }
        container := Emplace(container, v.value);
        left := left - 1;
      }
      r := Some(container);
    }
  }

  /** `Serializer`'s default buffer. */
  const NODE_SIZE: nat := 4096

  /** The bytes behind a new serializer, to be read from the front. */
  method Open(bytes: seq<Byte>) returns (s: Serializer)
    ensures fresh(s) && fresh(s.byteArray) && s.byteArray.Valid() && s.byteArray.Flat().Readable() == bytes
  {
    var buffer := new ByteArray(NODE_SIZE);
    s := new Serializer(buffer);
    WriteContents(buffer.Flat(), bytes, NODE_SIZE);
    buffer.Write(bytes);
    var ok := buffer.SetPosition(0);
  }
}
