/** Where `ByteArray` as written departs from the flat sequence of bytes, and just when. */
module ByteDepartures {
  import opened Options
  import opened Varint
  import opened ByteFlat

  // ----- setPosition

  /** As written the search of `setPosition` only stops inside a node: with `count` nodes left it
      finds one, or follows the null pointer behind the last. */
  function SeekAsWritten(left: nat, count: nat, node: nat): Option<nat>
    requires node > 0
    decreases count
  {
    if count == 0 then None
    else if left >= node then
      match SeekAsWritten(left - node, count - 1, node)
      case None => None
      case Some(k) => Some(k + 1)
    else Some(0)
  }

  /** It fails at full capacity and nowhere else; elsewhere it finds the node of the position. */
  lemma {:induction false} SeekAsWrittenIff(p: nat, count: nat, node: nat)
    requires node > 0 && p <= Start(count, node)
    ensures SeekAsWritten(p, count, node) == None <==> p == Start(count, node)
    ensures var r := SeekAsWritten(p, count, node); r.Some? ==> Start(r.value, node) <= p < Start(r.value, node) + node
  {
    if count > 0 && p >= node {
      SeekAsWrittenIff(p - node, count - 1, node);
    }
  }

  // ----- addCapacity

  /** As written `addCapacity` takes the whole capacity for what is available, wherever the
      cursor is: the capacity it leaves behind. */
  function GrowAsWritten(f: Flat, count: nat, node: nat): nat
    requires node > 0
  {
    if |f.mem| > count then |f.mem| else |f.mem| + Start(Nodes(count - |f.mem|, node), node)
  }

  lemma {:induction false} NodesBeyond(k: nat, count: nat, node: nat)
    requires node > 0 && Start(k, node) <= count
    ensures Start(k, node) + Start(Nodes(count - Start(k, node), node), node) == Start(Nodes(count, node), node)
  {
    if k > 0 {
      var rest := count - Start(k - 1, node);
      NodesBeyond(k - 1, count, node);
      if rest == node {
        assert Nodes(0, node) == 0;
      }
    }
  }

  /** There is room for the write if and only if it fits the nodes there are, or those that the
      bytes alone would take. */
  lemma GrowAsWrittenIff(f: Flat, count: nat, node: nat, k: nat)
    requires f.Valid() && node > 0 && |f.mem| == Start(k, node) && count > 0
    ensures f.position + count <= GrowAsWritten(f, count, node) <==>
            f.position + count <= |f.mem| || f.position + count <= Start(Nodes(count, node), node)
  {
    RoundUp(count, node);
    if |f.mem| <= count {
      NodesBeyond(k, count, node);
    } else {
      NodesMonotone(count, k, node);
    }
  }

  lemma {:induction false} NodesMonotone(count: nat, k: nat, node: nat)
    requires node > 0 && count <= Start(k, node)
    ensures Start(Nodes(count, node), node) <= Start(k, node)
  {
    if count > node { NodesMonotone(count - node, k - 1, node); }
  }

  // ----- reading at a position

  /** Memory from `at` on. */
  function Bytes(mem: seq<Byte>, at: nat, count: nat): (b: seq<Byte>)
    ensures |b| == count
  {
    seq(count, i requires 0 <= i < count => if at + i < |mem| then mem[at + i] else 0)
  }

  /** As written `read(buf, size, position)` takes as many bytes from every node as there were
      left in the first: `pos` bytes into node `k` at first, then from the start of the next. */
  function ReadAsWritten(mem: seq<Byte>, k: nat, pos: nat, capacity: nat, count: nat, node: nat): (b: seq<Byte>)
    requires capacity > 0
    ensures |b| == count
    decreases count
  {
    if capacity >= count then Bytes(mem, Start(k, node) + pos, count)
    else Bytes(mem, Start(k, node) + pos, capacity) + ReadAsWritten(mem, k + 1, 0, capacity, count - capacity, node)
  }

  ghost predicate AlwaysRight(k: nat, pos: nat, count: nat, node: nat)
    requires pos < node
  {
    forall mem {:trigger ReadAsWritten(mem, k, pos, node - pos, count, node)} ::
      Start(k, node) + pos + count <= |mem| ==>
      ReadAsWritten(mem, k, pos, node - pos, count, node) == Bytes(mem, Start(k, node) + pos, count)
  }

  lemma BytesJoin(mem: seq<Byte>, at: nat, m: nat, n: nat)
    ensures Bytes(mem, at, m) + Bytes(mem, at + m, n) == Bytes(mem, at, m + n)
  {
  }

  lemma {:induction false} AlignedRight(mem: seq<Byte>, k: nat, count: nat, node: nat)
    requires node > 0
    ensures ReadAsWritten(mem, k, 0, node, count, node) == Bytes(mem, Start(k, node), count)
    decreases count
  {
    if count > node {
      AlignedRight(mem, k + 1, count - node, node);
      BytesJoin(mem, Start(k, node), node, count - node);
    }
  }

  lemma ShortRight(mem: seq<Byte>, k: nat, pos: nat, count: nat, node: nat)
    requires pos < node && count <= 2 * (node - pos)
    ensures ReadAsWritten(mem, k, pos, node - pos, count, node) == Bytes(mem, Start(k, node) + pos, count)
  {
    var capacity := node - pos;
    if count > capacity {
      assert Start(k + 1, node) == Start(k, node) + pos + capacity;
      BytesJoin(mem, Start(k, node) + pos, capacity, count - capacity);
    }
  }

  /** Memory that tells: all zeros but for one byte, the first that comes from the wrong place. */
  lemma LongWrong(k: nat, pos: nat, count: nat, node: nat) returns (mem: seq<Byte>)
    requires 0 < pos < node && count > 2 * (node - pos)
    ensures |mem| == Start(k, node) + pos + count
    ensures ReadAsWritten(mem, k, pos, node - pos, count, node) != Bytes(mem, Start(k, node) + pos, count)
  {
    var start, capacity := Start(k, node) + pos, node - pos;
    mem := Zeros(start + count)[start + 2 * capacity := 1];
    var second := ReadAsWritten(mem, k + 1, 0, capacity, count - capacity, node);
    var third := ReadAsWritten(mem, k + 2, 0, capacity, count - 2 * capacity, node);
    assert second == Bytes(mem, Start(k + 1, node), capacity) + third;
    assert Start(k + 2, node) == start + capacity + node;
    assert third[0] == Bytes(mem, Start(k + 2, node), 1)[0] == 0;
    assert ReadAsWritten(mem, k, pos, capacity, count, node)[2 * capacity] == 0;
    assert Bytes(mem, start, count)[2 * capacity] == 1;
  }

  /** It gives the right bytes, whatever they are, if and only if it starts at the beginning of a
      node or ends within twice what the first node had left. */
  lemma ReadAsWrittenIff(k: nat, pos: nat, count: nat, node: nat)
    requires pos < node
    ensures AlwaysRight(k, pos, count, node) <==> pos == 0 || count <= 2 * (node - pos)
  {
    if pos == 0 || count <= 2 * (node - pos) {
      forall mem: seq<Byte> | Start(k, node) + pos + count <= |mem|
        ensures ReadAsWritten(mem, k, pos, node - pos, count, node) == Bytes(mem, Start(k, node) + pos, count)
      {
        if pos == 0 {
          AlignedRight(mem, k, count, node);
        } else {
          ShortRight(mem, k, pos, count, node);
        }
      }
    } else {
      var mem := LongWrong(k, pos, count, node);
    }
  }
}
