/** The format of `Serializer`: what each type's `<<` appends to the bytes, and what its `>>`
    makes of the bytes it finds.

    The dispatch on the C++ type is a dispatch on `Ty`. Aggregates, tuples and pairs are
    written field by field without anything between, so `TPair` and `TUnit` cover them all.
*/
module SerialFormat {
  import opened Options
  import opened Sequences
  import opened Varint
  import FixedInt

  datatype Ty =
    | TFixed(bytes: nat)                 // bool, char, 8 and 16 bits, the bits of a float or double
    | TInt(width: Width)                 // int32_t, int64_t, enumerations
    | TUint(width: Width)                // uint32_t, uint64_t, size_t
    | TString
    | TUnit
    | TPair(first: Ty, second: Ty)
    | TList(elem: Ty)                    // vector, list
    | TSet(elem: Ty)                     // set, unordered_set
    | TBag(elem: Ty)                     // the multisets, and of pairs the multimaps
    | TMap(key: Ty, val: Ty)             // map, unordered_map

  /** A value as it is written: a container is the list of its elements in the order in which
      the iteration of the program finds them. */
  datatype Item = Num(n: int) | Text(s: seq<Byte>) | Nothing | Both(first: Item, second: Item) | Items(items: seq<Item>)

  /** A value as it is meant. */
  datatype Val =
    | VNum(n: int) | VText(s: seq<Byte>) | VNothing | VBoth(first: Val, second: Val)
    | VList(list: seq<Val>) | VSet(elems: set<Val>) | VBag(bag: multiset<Val>) | VMap(entries: map<Val, Val>)

  /** What the type of the elements of a container is; a map's are pairs. */
  function ElementOf(t: Ty): Ty
    requires t.TList? || t.TSet? || t.TBag? || t.TMap?
  {
    match t
    case TList(e) => e
    case TSet(e) => e
    case TBag(e) => e
    case TMap(k, v) => TPair(k, v)
  }

  predicate IsContainer(t: Ty) { t.TList? || t.TSet? || t.TBag? || t.TMap? }

  /** For termination: types by size, since a map is read through a pair type. */
  function Weight(t: Ty): (w: nat)
    ensures w > 0
  {
    match t
    case TFixed(_) => 1
    case TInt(_) => 1
    case TUint(_) => 1
    case TString => 1
    case TUnit => 1
    case TPair(a, b) => 1 + Weight(a) + Weight(b)
    case TList(e) => 1 + Weight(e)
    case TSet(e) => 1 + Weight(e)
    case TBag(e) => 1 + Weight(e)
    case TMap(k, v) => 2 + Weight(k) + Weight(v)
  }

  // ----- what values a type has

  predicate HasType(x: Item, t: Ty)
    decreases Weight(t), 0
  {
    match t
    case TFixed(n) => x.Num? && 0 <= x.n < FixedInt.Pow256(n)
    case TInt(w) => x.Num? && Signed(x.n, w)
    case TUint(w) => x.Num? && Unsigned(x.n, w)
    case TString => x.Text? && Unsigned(|x.s|, W64)
    case TUnit => x.Nothing?
    case TPair(a, b) => x.Both? && HasType(x.first, a) && HasType(x.second, b)
    case _ => x.Items? && Unsigned(|x.items|, W64) && AllHaveType(x.items, ElementOf(t))
  }

  predicate AllHaveType(xs: seq<Item>, t: Ty)
    decreases Weight(t), |xs| + 1
  {
    xs == [] || (HasType(xs[0], t) && AllHaveType(xs[1..], t))
  }

  /** The value an item stands for. */
  function Meaning(x: Item, t: Ty): Val
    requires HasType(x, t)
    decreases Weight(t), 0
  {
    match t
    case TFixed(_) => VNum(x.n)
    case TInt(_) => VNum(x.n)
    case TUint(_) => VNum(x.n)
    case TString => VText(x.s)
    case TUnit => VNothing
    case TPair(a, b) => VBoth(Meaning(x.first, a), Meaning(x.second, b))
    case _ => Filled(t, Meanings(x.items, ElementOf(t)))
  }

  function Meanings(xs: seq<Item>, t: Ty): (vs: seq<Val>)
    requires AllHaveType(xs, t)
    ensures |vs| == |xs|
    decreases Weight(t), |xs| + 1
  {
    if xs == [] then [] else [Meaning(xs[0], t)] + Meanings(xs[1..], t)
  }

  /** An empty container after its elements have been put in, one by one. */
  function Filled(t: Ty, vs: seq<Val>): Val
    requires IsContainer(t)
  {
    match t
    case TList(_) => VList(vs)
    case TSet(_) => VSet(set v | v in vs)
    case TBag(_) => VBag(multiset(vs))
    case TMap(_, _) => VMap(Emplaced(vs))
  }

  /** `emplace` keeps what is there already. */
  function Emplaced(vs: seq<Val>): map<Val, Val> {
    if vs == [] then map[]
    else
      var m, p := Emplaced(vs[..|vs| - 1]), vs[|vs| - 1];
      if !p.VBoth? || p.first in m then m else m[p.first := p.second]
  }

  // ----- writing

  function Encode(x: Item, t: Ty): seq<Byte>
    requires HasType(x, t)
    decreases Weight(t), 0
  {
    match t
    case TFixed(n) => FixedInt.Write(x.n, n, FixedInt.Big, FixedInt.Little)
    case TInt(w) => ZigzagBijection(x.n, 0, w); EncodeVarint(EncodeZigzag(x.n, w))
    case TUint(_) => EncodeVarint(x.n)
    case TString => EncodeVarint(|x.s|) + x.s
    case TUnit => []
    case TPair(a, b) => Encode(x.first, a) + Encode(x.second, b)
    case _ => EncodeVarint(|x.items|) + EncodeAll(x.items, ElementOf(t))
  }

  function EncodeAll(xs: seq<Item>, t: Ty): seq<Byte>
    requires AllHaveType(xs, t)
    decreases Weight(t), |xs| + 1
  {
    if xs == [] then [] else Encode(xs[0], t) + EncodeAll(xs[1..], t)
  }

  // ----- reading

  /** The value at the front of the bytes and the bytes behind it; nothing when they end too
      early, where `ByteArray::read` throws. */
  function Decode(t: Ty, b: seq<Byte>): Option<(Val, seq<Byte>)>
    decreases Weight(t), 0
  {
    match t
    case TFixed(n) =>
      if |b| < n then None else Some((VNum(FixedInt.Read(b[..n], FixedInt.Big, FixedInt.Little)), b[n..]))
    case TInt(w) => (match ReadVarint(b, w)
                     case None => None
                     case Some((u, rest)) => Some((VNum(DecodeZigzag(u, w)), rest)))
    case TUint(w) => (match ReadVarint(b, w)
                      case None => None
                      case Some((u, rest)) => Some((VNum(u), rest)))
    case TString => (match ReadVarint(b, W64)
                     case None => None
                     case Some((n, rest)) => if |rest| < n then None else Some((VText(rest[..n]), rest[n..])))
    case TUnit => Some((VNothing, b))
    case TPair(first, second) =>
      (match Decode(first, b)
       case None => None
       case Some((v, rest)) =>
         match Decode(second, rest)
         case None => None
         case Some((u, end)) => Some((VBoth(v, u), end)))
    case _ =>
      (match ReadVarint(b, W64)
       case None => None
       case Some((n, rest)) =>
         match DecodeMany(ElementOf(t), n, rest)
         case None => None
         case Some((vs, end)) => Some((Filled(t, vs), end)))
  }

  function DecodeMany(t: Ty, count: nat, b: seq<Byte>): Option<(seq<Val>, seq<Byte>)>
    decreases Weight(t), count + 1
  {
    if count == 0 then Some(([], b))
    else
      match Decode(t, b)
      case None => None
      case Some((v, rest)) =>
        match DecodeMany(t, count - 1, rest)
        case None => None
        case Some((vs, end)) => Some(([v] + vs, end))
  }

  // ----- the round trip

  lemma Joined(a: seq<Byte>, b: seq<Byte>, c: seq<Byte>)
    ensures (a + b) + c == a + (b + c)
  {
  }

  /** Whatever follows, reading gives back the value and stops exactly at its end. */
  lemma {:induction false} RoundTrip(x: Item, t: Ty, rest: seq<Byte>)
    requires HasType(x, t)
    ensures Decode(t, Encode(x, t) + rest) == Some((Meaning(x, t), rest))
    decreases Weight(t), 0
  {
    var b := Encode(x, t) + rest;
    match t
    case TFixed(n) =>
      FixedInt.FixedRoundTrip(x.n, n, FixedInt.Big, FixedInt.Little, FixedInt.Little);
      assert b[..n] == Encode(x, t) && b[n..] == rest;
    case TInt(w) =>
      ZigzagBijection(x.n, 0, w);
      VarintRoundTrip(EncodeZigzag(x.n, w), rest, w);
    case TUint(w) => VarintRoundTrip(x.n, rest, w);
    case TString =>
      VarintRoundTrip(|x.s|, x.s + rest, W64);
      Joined(EncodeVarint(|x.s|), x.s, rest);
      assert (x.s + rest)[..|x.s|] == x.s && (x.s + rest)[|x.s|..] == rest;
    case TUnit => assert b == rest;
    case TPair(first, second) =>
      Joined(Encode(x.first, first), Encode(x.second, second), rest);
      RoundTrip(x.first, first, Encode(x.second, second) + rest);
      RoundTrip(x.second, second, rest);
    case _ =>
      var body := EncodeAll(x.items, ElementOf(t));
      Joined(EncodeVarint(|x.items|), body, rest);
      VarintRoundTrip(|x.items|, body + rest, W64);
      RoundTripAll(x.items, ElementOf(t), rest);
  }

  lemma FirstOfMany(t: Ty, count: nat, b: seq<Byte>, v: Val, more: seq<Byte>, vs: seq<Val>, end: seq<Byte>)
    requires count > 0 && Decode(t, b) == Some((v, more)) && DecodeMany(t, count - 1, more) == Some((vs, end))
    ensures DecodeMany(t, count, b) == Some(([v] + vs, end))
  {
  }

  lemma {:induction false} RoundTripAll(xs: seq<Item>, t: Ty, rest: seq<Byte>)
    requires AllHaveType(xs, t)
    ensures DecodeMany(t, |xs|, EncodeAll(xs, t) + rest) == Some((Meanings(xs, t), rest))
    decreases Weight(t), |xs| + 1
  {
    if xs == [] {
      assert EncodeAll(xs, t) + rest == rest;
    } else {
      var first, body := Encode(xs[0], t), EncodeAll(xs[1..], t);
      Joined(first, body, rest);
      RoundTrip(xs[0], t, body + rest);
      RoundTripAll(xs[1..], t, rest);
      FirstOfMany(t, |xs|, first + (body + rest), Meaning(xs[0], t), body + rest, Meanings(xs[1..], t), rest);
    }
  }

  /** So no encoding is the beginning of another, and bytes are read in one way only. */
  lemma ReadOneWay(x: Item, y: Item, t: Ty, afterX: seq<Byte>, afterY: seq<Byte>)
    requires HasType(x, t) && HasType(y, t) && Encode(x, t) + afterX == Encode(y, t) + afterY
    ensures Meaning(x, t) == Meaning(y, t) && afterX == afterY && Encode(x, t) == Encode(y, t)
  {
    RoundTrip(x, t, afterX);
    RoundTrip(y, t, afterY);
    assert Encode(x, t) == (Encode(x, t) + afterX)[..|Encode(x, t)|];
    assert Encode(y, t) == (Encode(y, t) + afterY)[..|Encode(y, t)|];
  }

  // ----- bytes that end too early

  /** What reading the number at the front of cut-off bytes finds: nothing, or the number and the
      part of the rest that is still there. */
  lemma CutNumber(v: nat, body: seq<Byte>, k: nat, w: Width)
    requires Unsigned(v, w) && k <= |EncodeVarint(v) + body|
    ensures var n := |EncodeVarint(v)|;
      ReadVarint((EncodeVarint(v) + body)[..k], w) == if k < n then None else Some((v, body[..k - n]))
  {
    var n := |EncodeVarint(v)|;
    if k < n {
      assert (EncodeVarint(v) + body)[..k] == EncodeVarint(v)[..k];
      VarintTruncated(v, k, w);
    } else {
      assert (EncodeVarint(v) + body)[..k] == EncodeVarint(v) + body[..k - n];
      VarintRoundTrip(v, body[..k - n], w);
    }
  }

  /** An encoding that has been cut off anywhere is not read as any value. */
  lemma {:induction false} Truncated(x: Item, t: Ty, k: nat)
    requires HasType(x, t) && k < |Encode(x, t)|
    ensures Decode(t, Encode(x, t)[..k]) == None
    decreases Weight(t), 0
  {
    match t
    case TFixed(n) =>
      FixedInt.FixedRoundTrip(x.n, n, FixedInt.Big, FixedInt.Little, FixedInt.Little);
    case TInt(w) =>
      ZigzagBijection(x.n, 0, w);
      VarintTruncated(EncodeZigzag(x.n, w), k, w);
    case TUint(w) => VarintTruncated(x.n, k, w);
    case TString => CutNumber(|x.s|, x.s, k, W64);
    case TUnit =>
    case TPair(first, second) =>
      var n := |Encode(x.first, first)|;
      if k < n {
        assert Encode(x, t)[..k] == Encode(x.first, first)[..k];
        Truncated(x.first, first, k);
      } else {
        assert Encode(x, t)[..k] == Encode(x.first, first) + Encode(x.second, second)[..k - n];
        RoundTrip(x.first, first, Encode(x.second, second)[..k - n]);
        Truncated(x.second, second, k - n);
      }
    case _ =>
      CutNumber(|x.items|, EncodeAll(x.items, ElementOf(t)), k, W64);
      var n := |EncodeVarint(|x.items|)|;
      if n <= k {
        TruncatedAll(x.items, ElementOf(t), k - n);
      }
  }

  lemma {:induction false} TruncatedAll(xs: seq<Item>, t: Ty, k: nat)
    requires AllHaveType(xs, t) && k < |EncodeAll(xs, t)|
    ensures DecodeMany(t, |xs|, EncodeAll(xs, t)[..k]) == None
    decreases Weight(t), |xs| + 1
  {
    var n, more := |Encode(xs[0], t)|, EncodeAll(xs[1..], t);
    if k < n {
      assert EncodeAll(xs, t)[..k] == Encode(xs[0], t)[..k];
      Truncated(xs[0], t, k);
    } else {
      assert EncodeAll(xs, t)[..k] == Encode(xs[0], t) + more[..k - n];
      RoundTrip(xs[0], t, more[..k - n]);
      TruncatedAll(xs[1..], t, k - n);
    }
  }

  // ----- containers come back as what they were

  /** The pairs of a map, in the order of `keys`. */
  function Pairs(m: map<Val, Val>, keys: seq<Val>): (vs: seq<Val>)
    requires forall k :: k in keys ==> k in m
    ensures |vs| == |keys|
  {
    seq(|keys|, i requires 0 <= i < |keys| => VBoth(keys[i], m[keys[i]]))
  }

  lemma {:induction false} PairsEmplaced(m: map<Val, Val>, keys: seq<Val>)
    requires Distinct(keys) && forall k :: k in keys ==> k in m
    ensures Emplaced(Pairs(m, keys)) == map k | k in keys :: m[k]
  {
    if keys != [] {
      var n := |keys| - 1;
      var init := keys[..n];
      assert Pairs(m, keys)[..n] == Pairs(m, init);
      PairsEmplaced(m, init);
      assert keys == init + [keys[n]];
      assert keys[n] !in init;
    }
  }

  /** The keys of a map that has been read are those of its pairs. */
  lemma {:induction false} KeyFromPair(vs: seq<Val>, key: Val) returns (j: nat)
    requires key in Emplaced(vs)
    ensures j < |vs| && vs[j].VBoth? && vs[j].first == key
  {
    var n := |vs| - 1;
    if key in Emplaced(vs[..n]) { j := KeyFromPair(vs[..n], key); } else { j := n; }
  }

  /** And the first pair with a key decides: a later one does not replace it. */
  lemma {:induction false} FirstPairCounts(vs: seq<Val>, i: nat)
    requires i < |vs| && vs[i].VBoth? && forall j :: 0 <= j < i && vs[j].VBoth? ==> vs[j].first != vs[i].first
    ensures vs[i].first in Emplaced(vs) && Emplaced(vs)[vs[i].first] == vs[i].second
  {
    var n := |vs| - 1;
    if i < n {
      FirstPairCounts(vs[..n], i);
    } else if vs[i].first in Emplaced(vs[..n]) {
      var j := KeyFromPair(vs[..n], vs[i].first);
      assert false;
    }
  }

  /** A map that is written in any order of its keys comes back as that map. */
  lemma MapComesBack(m: map<Val, Val>, keys: seq<Val>)
    requires Distinct(keys) && forall k :: k in keys <==> k in m
    ensures forall k, v :: Filled(TMap(k, v), Pairs(m, keys)) == VMap(m)
  {
    PairsEmplaced(m, keys);
    assert (map k | k in keys :: m[k]) == m;
  }
}
