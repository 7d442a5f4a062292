/** The variable-length integers of `ByteArray`: zigzag and varint, for 32 and 64 bits.

    Machine words are integers taken modulo a power of two; `x ^ 0xFF..F` is written as the
    complement `2^w - 1 - x`, and `|` of disjoint bits as a sum.
*/
module Varint {
  import opened Options

  newtype Byte = x: int | 0 <= x < 0x100

  /** The widths in use. */
  datatype Width = W32 | W64 {
    function Size(): nat { match this case W32 => 0x1_0000_0000 case W64 => 0x1_0000_0000_0000_0000 }
    function Half(): nat { match this case W32 => 0x8000_0000 case W64 => 0x8000_0000_0000_0000 }
    function MaxUnits(): nat { match this case W32 => 5 case W64 => 10 }
  }

  predicate Signed(n: int, w: Width) { 0 - w.Half() <= n < w.Half() }
  predicate Unsigned(v: int, w: Width) { 0 <= v < w.Size() }

  // ----- zigzag

  /** The machine word of a signed number, and back. */
  function Word(n: int, w: Width): int { n % w.Size() }
  function SignedOf(u: int, w: Width): int { if u < w.Half() then u else u - w.Size() }
  function Complement(u: int, w: Width): int { w.Size() - 1 - u }

  /** `(n << 1) ^ (n >> (bits - 1))`, the formula in the comment. */
  function EncodeZigzag(n: int, w: Width): int {
    var shifted := (2 * Word(n, w)) % w.Size();
    if n < 0 then Complement(shifted, w) else shifted
  }

  /** `(u >> 1) ^ -(u & 1)`. */
  function DecodeZigzag(u: int, w: Width): int {
    SignedOf(if u % 2 == 1 then Complement(u / 2, w) else u / 2, w)
  }

  /** Zigzag interleaves: 0, -1, 1, -2, 2, ... */
  lemma ZigzagInterleaves(n: int, w: Width)
    requires Signed(n, w)
    ensures EncodeZigzag(n, w) == if n >= 0 then 2 * n else -2 * n - 1
  {
    if n < 0 {
      assert Word(n, w) == n + w.Size();
      assert 2 * (n + w.Size()) == w.Size() + (2 * n + w.Size());
      assert (2 * (n + w.Size())) % w.Size() == 2 * n + w.Size();
    }
  }

  /** Zigzag is a bijection between the signed and the unsigned numbers of a width. */
  lemma ZigzagBijection(n: int, u: int, w: Width)
    requires Signed(n, w) && Unsigned(u, w)
    ensures Unsigned(EncodeZigzag(n, w), w) && DecodeZigzag(EncodeZigzag(n, w), w) == n
    ensures Signed(DecodeZigzag(u, w), w) && EncodeZigzag(DecodeZigzag(u, w), w) == u
  {
    ZigzagInterleaves(n, w);
    ZigzagInterleaves(DecodeZigzag(u, w), w);
  }

  /** Numbers close to zero, and only they, have small codes. */
  lemma ZigzagKeepsSmall(n: int, w: Width, bound: nat)
    requires Signed(n, w)
    ensures EncodeZigzag(n, w) < 2 * bound <==> 0 - bound <= n < bound
  {
    ZigzagInterleaves(n, w);
  }

  /** As written the code encodes `-value` under the shift. */
  function EncodeZigzagAsWritten(n: int, w: Width): int {
    var shifted := (2 * Word(-n, w)) % w.Size();
    if n < 0 then Complement(shifted, w) else shifted
  }

  /** What that computes: the sign of every number is lost. */
  lemma AsWrittenCode(n: int, w: Width)
    requires Signed(n, w)
    ensures n == 0 ==> EncodeZigzagAsWritten(n, w) == 0
    ensures n > 0 ==> EncodeZigzagAsWritten(n, w) == w.Size() - 2 * n
    ensures n == 0 - w.Half() ==> EncodeZigzagAsWritten(n, w) == w.Size() - 1
    ensures 0 - w.Half() < n < 0 ==> EncodeZigzagAsWritten(n, w) == w.Size() - 1 + 2 * n
  {
    match w {
      case W32 =>
        if n > 0 { assert Word(-n, w) == 0x1_0000_0000 - n; }
      case W64 =>
        if n > 0 { assert Word(-n, w) == 0x1_0000_0000_0000_0000 - n; }
    }
  }

  /** `DecodeZigzag` undoes that for exactly four numbers of each width. */
  lemma ZigzagAsWrittenIff(n: int, w: Width)
    requires Signed(n, w)
    ensures DecodeZigzag(EncodeZigzagAsWritten(n, w), w) == n <==>
            n == 0 || n == 0 - w.Half() || 2 * n == w.Half() || 2 * n == 0 - w.Half()
  {
    AsWrittenCode(n, w);
    ZigzagInterleaves(n, w);
    ZigzagBijection(n, EncodeZigzagAsWritten(n, w), w);
  }

  // ----- varint

  /** Seven bits a byte, the low ones first; the top bit says that more follow. */
  function EncodeVarint(v: nat): (r: seq<Byte>)
    ensures |r| > 0
  {
    if v < 0x80 then [v as Byte] else [(v % 0x80 + 0x80) as Byte] + EncodeVarint(v / 0x80)
  }

  function Pow128(n: nat): (p: nat)
    ensures p > 0
  {
    if n == 0 then 1 else 0x80 * Pow128(n - 1)
  }

  /** The length is the number of seven-bit groups in the value. */
  lemma {:induction false} VarintLength(v: nat)
    ensures var n := |EncodeVarint(v)|; v < Pow128(n) && (n > 1 ==> Pow128(n - 1) <= v)
  {
    if v >= 0x80 {
      VarintLength(v / 0x80);
      var n := |EncodeVarint(v / 0x80)|;
      assert Pow128(n + 1) == 0x80 * Pow128(n);
    }
  }

  /** A value below the n-th power takes at most n bytes. */
  lemma {:induction false} VarintBound(v: nat, n: nat)
    requires n > 0 && v < Pow128(n)
    ensures |EncodeVarint(v)| <= n
  {
    if v >= 0x80 {
      assert n > 1 by { assert Pow128(1) == 0x80; }
      VarintBound(v / 0x80, n - 1);
    }
  }

  /** What the low seven bits of each byte add up to, the first byte counting least. */
  function Weighed(b: seq<Byte>): nat {
    if b == [] then 0 else b[0] as nat % 0x80 + 0x80 * Weighed(b[1..])
  }

  /** The top bit is set in all bytes but the last, and a byte of zero ends only the number zero. */
  predicate Formed(b: seq<Byte>) {
    && b != [] && b[|b| - 1] < 0x80 && (|b| > 1 ==> b[|b| - 1] != 0)
    && forall i :: 0 <= i < |b| - 1 ==> b[i] >= 0x80
  }

  lemma FormedTail(b: seq<Byte>)
    requires |b| > 1
    ensures Formed(b) <==> Formed(b[1..]) && b[0] >= 0x80 && b[1..] != [0]
  {
    var tail := b[1..];
    assert tail[|tail| - 1] == b[|b| - 1];
    forall i | 0 <= i < |tail| ensures tail[i] == b[i + 1] {}
    if Formed(tail) && b[0] >= 0x80 {
      forall i | 0 <= i < |b| - 1 ensures b[i] >= 0x80 {
        if i > 0 { assert tail[i - 1] >= 0x80; }
      }
    }
  }

  /** The encoding of a number is the one sequence of bytes of that form which adds up to it. */
  lemma {:induction false} VarintIs(v: nat, b: seq<Byte>)
    ensures b == EncodeVarint(v) <==> Formed(b) && Weighed(b) == v
    decreases |b|
  {
    if |b| == 1 {
      assert b == [b[0]] && Weighed(b) == b[0] as nat % 0x80;
    } else if |b| > 1 {
      FormedTail(b);
      VarintIs(v / 0x80, b[1..]);
      assert b == [b[0]] + b[1..];
      assert EncodeVarint(0) == [0];
    }
  }

  /** At most 5 bytes for 32 bits and 10 for 64. */
  lemma VarintFits(v: nat, w: Width)
    requires Unsigned(v, w)
    ensures |EncodeVarint(v)| <= w.MaxUnits()
  {
    assert Pow128(5) == 0x8_0000_0000 by {
      assert Pow128(1) == 0x80 && Pow128(2) == 0x4000 && Pow128(3) == 0x20_0000 && Pow128(4) == 0x1000_0000;
    }
    assert Pow128(10) == 0x40_0000_0000_0000_0000 by {
      assert Pow128(6) == 0x400_0000_0000 && Pow128(7) == 0x2_0000_0000_0000;
      assert Pow128(8) == 0x100_0000_0000_0000 && Pow128(9) == 0x8000_0000_0000_0000;
    }
    VarintBound(v, w.MaxUnits());
  }

  /** Reads units until one without the top bit, or until `units` have been read; `scale` is
      the weight of the next unit, `acc` what has been read, and what does not fit is dropped. */
  function ReadUnits(b: seq<Byte>, units: nat, scale: nat, acc: nat, w: Width): Option<(nat, seq<Byte>)>
    decreases units
  {
    if units == 0 then Some((acc, b))
    else if b == [] then None
    else
      var next := (acc + scale * (b[0] as nat % 0x80)) % w.Size();
      if b[0] < 0x80 then Some((next, b[1..]))
      else ReadUnits(b[1..], units - 1, 0x80 * scale, next, w)
  }

  function ReadVarint(b: seq<Byte>, w: Width): Option<(nat, seq<Byte>)> {
    ReadUnits(b, w.MaxUnits(), 1, 0, w)
  }

  /** Splitting off the low unit of the value still to come. */
  lemma SplitProduct(scale: nat, low: nat, high: nat)
    ensures scale * (low + 0x80 * high) == scale * low + (0x80 * scale) * high
    ensures 0 <= scale * low && 0 <= (0x80 * scale) * high
  {
    assert scale * (low + 0x80 * high) == scale * low + scale * (0x80 * high);
    assert scale * (0x80 * high) == (0x80 * scale) * high;
  }

  lemma UnitStep(v: nat, scale: nat, acc: nat, w: Width)
    requires acc + scale * v < w.Size()
    ensures (acc + scale * (v % 0x80)) % w.Size() == acc + scale * (v % 0x80)
    ensures acc + scale * (v % 0x80) + (0x80 * scale) * (v / 0x80) == acc + scale * v
  {
    assert v == v % 0x80 + 0x80 * (v / 0x80);
    SplitProduct(scale, v % 0x80, v / 0x80);
  }

  lemma FirstUnit(v: nat, rest: seq<Byte>)
    ensures var b := EncodeVarint(v) + rest;
      && b[0] as nat % 0x80 == v % 0x80
      && (b[0] < 0x80 <==> v < 0x80)
      && b[1..] == if v < 0x80 then rest else EncodeVarint(v / 0x80) + rest
  {
    if v >= 0x80 {
      assert EncodeVarint(v) == [(v % 0x80 + 0x80) as Byte] + EncodeVarint(v / 0x80);
    }
  }

  lemma {:induction false} UnitsRoundTrip(v: nat, rest: seq<Byte>, units: nat, scale: nat, acc: nat, w: Width)
    requires |EncodeVarint(v)| <= units && acc + scale * v < w.Size()
    ensures ReadUnits(EncodeVarint(v) + rest, units, scale, acc, w) == Some((acc + scale * v, rest))
    decreases v
  {
    FirstUnit(v, rest);
    UnitStep(v, scale, acc, w);
    if v >= 0x80 {
      UnitsRoundTrip(v / 0x80, rest, units - 1, 0x80 * scale, acc + scale * (v % 0x80), w);
    }
  }

  /** Reading takes exactly the bytes written and gives back the value, for every value of the width. */
  lemma VarintRoundTrip(v: nat, rest: seq<Byte>, w: Width)
    requires Unsigned(v, w)
    ensures ReadVarint(EncodeVarint(v) + rest, w) == Some((v, rest))
  {
    VarintFits(v, w);
    UnitsRoundTrip(v, rest, w.MaxUnits(), 1, 0, w);
  }

  lemma {:induction false} UnitsTruncated(v: nat, k: nat, units: nat, scale: nat, acc: nat, w: Width)
    requires k < |EncodeVarint(v)| <= units
    ensures ReadUnits(EncodeVarint(v)[..k], units, scale, acc, w) == None
    decreases v
  {
    if k > 0 {
      FirstUnit(v, []);
      assert EncodeVarint(v) + [] == EncodeVarint(v);
      assert EncodeVarint(v)[..k][1..] == EncodeVarint(v / 0x80)[..k - 1];
      UnitsTruncated(v / 0x80, k - 1, units - 1, 0x80 * scale, (acc + scale * (v % 0x80)) % w.Size(), w);
    }
  }

  /** How many bytes a reader of so many units takes: up to the first without the top bit. */
  function Units(b: seq<Byte>, units: nat): nat {
    if units == 0 then 0 else if b == [] || b[0] < 0x80 then 1 else 1 + Units(b[1..], units - 1)
  }

  /** What has been read when `n` units have been taken. */
  function UnitsTaken(b: seq<Byte>, n: nat, scale: nat, acc: nat, w: Width): Option<(nat, seq<Byte>)> {
    if n <= |b| then Some(((acc + scale * Weighed(b[..n])) % w.Size(), b[n..])) else None
  }

  lemma OneUnitTaken(b: seq<Byte>, n: nat, scale: nat, acc: nat, w: Width)
    requires 0 < n && b != []
    ensures UnitsTaken(b, n, scale, acc, w) ==
            UnitsTaken(b[1..], n - 1, 0x80 * scale, (acc + scale * (b[0] as nat % 0x80)) % w.Size(), w)
  {
    if n <= |b| {
      WeighedFront(b, n);
      DropsWhole(acc, scale, b[0] as nat % 0x80, Weighed(b[1..][..n - 1]), w);
    }
  }

  lemma NoUnitTaken(b: seq<Byte>, scale: nat, acc: nat, w: Width)
    requires acc < w.Size()
    ensures UnitsTaken(b, 0, scale, acc, w) == Some((acc, b))
  {
    assert b[..0] == [] && b[0..] == b;
  }

  lemma {:induction false} UnitsRead(b: seq<Byte>, units: nat, scale: nat, acc: nat, w: Width)
    requires acc < w.Size()
    ensures ReadUnits(b, units, scale, acc, w) == UnitsTaken(b, Units(b, units), scale, acc, w)
    decreases units
  {
    if units == 0 {
      NoUnitTaken(b, scale, acc, w);
    } else if b != [] {
      var next := (acc + scale * (b[0] as nat % 0x80)) % w.Size();
      OneUnitTaken(b, Units(b, units), scale, acc, w);
      if b[0] < 0x80 {
        NoUnitTaken(b[1..], 0x80 * scale, next, w);
      } else {
        UnitsRead(b[1..], units - 1, 0x80 * scale, next, w);
      }
    }
  }

  lemma WeighedFront(b: seq<Byte>, n: nat)
    requires 0 < n <= |b|
    ensures Weighed(b[..n]) == b[0] as nat % 0x80 + 0x80 * Weighed(b[1..][..n - 1]) && b[n..] == b[1..][n - 1..]
  {
    assert b[..n][0] == b[0] && b[..n][1..] == b[1..][..n - 1];
  }

  /** Dropping what does not fit before adding more comes to the same. */
  lemma DropsWhole(acc: nat, scale: nat, low: nat, high: nat, w: Width)
    ensures ((acc + scale * low) % w.Size() + 0x80 * scale * high) % w.Size() ==
            (acc + scale * (low + 0x80 * high)) % w.Size()
  {
    SplitProduct(scale, low, high);
    var a, more := acc + scale * low, 0x80 * scale * high;
    SkipWords(a % w.Size() + more, a / w.Size(), w);
    assert a == a / w.Size() * w.Size() + a % w.Size();
  }

  lemma {:induction false} SkipWords(c: nat, q: nat, w: Width)
    ensures (q * w.Size() + c) % w.Size() == c % w.Size()
    decreases q
  {
    if q > 0 {
      SkipWords(c, q - 1, w);
      SkipWord((q - 1) * w.Size() + c, w);
    }
  }

  lemma SkipWord(c: nat, w: Width)
    ensures (c + w.Size()) % w.Size() == c % w.Size()
  {
    match w {
      case W32 => assert (c + 0x1_0000_0000) % 0x1_0000_0000 == c % 0x1_0000_0000;
      case W64 => assert (c + 0x1_0000_0000_0000_0000) % 0x1_0000_0000_0000_0000 == c % 0x1_0000_0000_0000_0000;
    }
  }

  /** What a reader makes of any bytes: it takes them up to the first without the top bit, but no more than a number of
      the width can have, and what their low seven bits add up to, modulo the width; it fails only when the
      bytes end before that. */
  lemma ReadsAnything(b: seq<Byte>, w: Width)
    ensures var n := Units(b, w.MaxUnits());
      ReadVarint(b, w) == if n <= |b| then Some((Weighed(b[..n]) % w.Size(), b[n..])) else None
  {
    UnitsRead(b, w.MaxUnits(), 1, 0, w);
  }

  /** The beginning of an encoding is not read as a number. */
  lemma VarintTruncated(v: nat, k: nat, w: Width)
    requires Unsigned(v, w) && k < |EncodeVarint(v)|
    ensures ReadVarint(EncodeVarint(v)[..k], w) == None
  {
    VarintFits(v, w);
    UnitsTruncated(v, k, w.MaxUnits(), 1, 0, w);
  }

  /** As written the readers do not stop at the last unit: they always take all the units a
      number of the width can have. */
  function ReadUnitsAsWritten(b: seq<Byte>, units: nat, scale: nat, acc: nat, w: Width): Option<(nat, seq<Byte>)>
    decreases units
  {
    if units == 0 then Some((acc, b))
    else if b == [] then None
    else
      ReadUnitsAsWritten(b[1..], units - 1, 0x80 * scale, (acc + scale * (b[0] as nat % 0x80)) % w.Size(), w)
  }

  lemma {:induction false} AsWrittenTakesAll(b: seq<Byte>, units: nat, scale: nat, acc: nat, w: Width)
    ensures var r := ReadUnitsAsWritten(b, units, scale, acc, w); r.Some? ==> |r.value.1| == |b| - units
    decreases units
  {
    if units > 0 && b != [] {
      AsWrittenTakesAll(b[1..], units - 1, 0x80 * scale, (acc + scale * (b[0] as nat % 0x80)) % w.Size(), w);
    }
  }

  lemma {:induction false} AsWrittenLongest(v: nat, rest: seq<Byte>, scale: nat, acc: nat, w: Width)
    requires acc + scale * v < w.Size()
    ensures ReadUnitsAsWritten(EncodeVarint(v) + rest, |EncodeVarint(v)|, scale, acc, w) ==
            Some((acc + scale * v, rest))
    decreases v
  {
    FirstUnit(v, rest);
    UnitStep(v, scale, acc, w);
    if v >= 0x80 {
      AsWrittenLongest(v / 0x80, rest, 0x80 * scale, acc + scale * (v % 0x80), w);
    }
  }

  /** So they read back a number, and stop at its end, only when its encoding has the greatest length. */
  lemma ReadAsWrittenIff(v: nat, rest: seq<Byte>, w: Width)
    requires Unsigned(v, w)
    ensures ReadUnitsAsWritten(EncodeVarint(v) + rest, w.MaxUnits(), 1, 0, w) == Some((v, rest)) <==>
            |EncodeVarint(v)| == w.MaxUnits()
  {
    AsWrittenTakesAll(EncodeVarint(v) + rest, w.MaxUnits(), 1, 0, w);
    if |EncodeVarint(v)| == w.MaxUnits() {
      AsWrittenLongest(v, rest, 1, 0, w);
    }
  }

  /** `writeVUint32` as written: the shifted value is thrown away, so the loop goes through all its
      units or ends in the first. */
  function LoopAsWritten(v: nat, units: nat): seq<Byte> {
    if units == 0 then []
    else if v < 0x80 then [v as Byte]
    else [(v % 0x80 + 0x80) as Byte] + LoopAsWritten(v, units - 1)
  }

  /** When it was not left early, one byte more is written than the array has, `beyond`. */
  function WrittenUnits(v: nat, beyond: Byte): seq<Byte> {
    LoopAsWritten(v, 5) + if v < 0x80 then [] else [beyond]
  }

  lemma {:induction false} LoopUnits(v: nat, units: nat)
    requires v >= 0x80
    ensures |LoopAsWritten(v, units)| == units
    ensures forall k :: 0 <= k < units ==> LoopAsWritten(v, units)[k] == (v % 0x80 + 0x80) as Byte
  {
    if units > 0 { LoopUnits(v, units - 1); }
  }

  /** The 32-bit numbers that are written as the format says are exactly those of one unit. */
  lemma WriteAsWrittenIff(v: nat, beyond: Byte)
    requires Unsigned(v, W32)
    ensures WrittenUnits(v, beyond) == EncodeVarint(v) <==> v < 0x80
  {
    VarintFits(v, W32);
    if v >= 0x80 {
      LoopUnits(v, 5);
    }
  }

  /** A reader never takes more units than it asks for. */
  lemma {:induction false} ReadTakesAtMost(b: seq<Byte>, units: nat, scale: nat, acc: nat, w: Width)
    ensures var r := ReadUnits(b, units, scale, acc, w); r.Some? ==> |b| - units <= |r.value.1|
    decreases units
  {
    if units > 0 && b != [] && b[0] >= 0x80 {
      ReadTakesAtMost(b[1..], units - 1, 0x80 * scale, (acc + scale * (b[0] as nat % 0x80)) % w.Size(), w);
    }
  }

  /** So they alone are read back with nothing left over: 0x80 is not. */
  lemma WriteAsWrittenRoundTripIff(v: nat, beyond: Byte, rest: seq<Byte>)
    requires Unsigned(v, W32)
    ensures ReadVarint(WrittenUnits(v, beyond) + rest, W32) == Some((v, rest)) <==> v < 0x80
  {
    if v >= 0x80 {
      LoopUnits(v, 5);
      ReadTakesAtMost(WrittenUnits(v, beyond) + rest, 5, 1, 0, W32);
    } else {
      VarintRoundTrip(v, rest, W32);
      WriteAsWrittenIff(v, beyond);
    }
  }

  // ----- the loop

  /** `writeVUint32` and `writeVUint64`: the units the loop collects. */
  method VarintUnits(value: nat, w: Width) returns (units: seq<Byte>)
    requires Unsigned(value, w)
    ensures units == EncodeVarint(value) && |units| <= w.MaxUnits()
  {
    VarintFits(value, w);
    units := [];
    var v := value;
    while v >= 0x80
      invariant v >= 0 && units + EncodeVarint(v) == EncodeVarint(value)
    {
      units := units + [(v % 0x80 + 0x80) as Byte];
      v := v / 0x80;
    }
    units := units + [v as Byte];
  }
}
