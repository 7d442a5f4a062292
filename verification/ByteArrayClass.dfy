/** `ByteArray`: a linked list of nodes of one size, with a cursor, proved against the flat
    sequence of bytes it stands for. */
module ByteArrayClass {
  import opened Options
  import opened Varint
  import opened ByteFlat

  // ----- where nodes lie

  lemma {:induction false} NodeInside(k: nat, count: nat, node: nat)
    requires k < count
    ensures Start(k, node) + node <= Start(count, node)
  {
    if k + 1 < count { NodeInside(k, count - 1, node); }
  }

  lemma NodesApart(k: nat, count: nat, node: nat)
    ensures forall i :: 0 <= i < count && i != k ==>
              Start(i, node) + node <= Start(k, node) || Start(k, node) + node <= Start(i, node)
    ensures forall i :: 0 <= i < count ==> Start(i, node) + node <= Start(count, node)
  {
    forall i | 0 <= i < count
      ensures i != k ==> Start(i, node) + node <= Start(k, node) || Start(k, node) + node <= Start(i, node)
      ensures Start(i, node) + node <= Start(count, node)
    {
      NodeInside(i, count, node);
      if i < k { NodeInside(i, k, node); } else if k < i { NodeInside(k, i, node); }
    }
  }

  /** Division finds the node of a position. */
  lemma Spot(position: nat, node: nat, k: nat)
    requires node > 0 && Start(k, node) <= position < Start(k, node) + node
    ensures position / node == k && position % node == position - Start(k, node)
  {
    StartIsProduct(k, node);
    var q := position / node;
    assert position == q * node + position % node;
    StartIsProduct(q, node);
    if q > k {
      NodeInside(k, q, node);
    } else if q < k {
      NodeInside(q, k, node);
    }
  }

  function At(mem: seq<Byte>, k: nat): Byte {
    if k < |mem| then mem[k] else 0
  }

  // ----- the class

  class Node {
    const data: array<Byte>
    ghost const spot: nat
    var next: Node?

    constructor (size: nat, ghost spot: nat)
      ensures fresh(data) && data.Length == size && Blank()
      ensures next == null && this.spot == spot
    {
      data := new Byte[size](i => 0);
      next := null;
      this.spot := spot;
    }

    ghost predicate Blank()
      reads data
    {
      forall j :: 0 <= j < data.Length ==> data[j] == 0
    }

    /** `memcpy` to `ptr + pos`. */
    method CopyIn(pos: nat, piece: seq<Byte>)
      requires pos + |piece| <= data.Length
      modifies data
      ensures forall j :: 0 <= j < data.Length ==>
                data[j] == if pos <= j < pos + |piece| then piece[j - pos] else old(data[j])
    {
      forall i | 0 <= i < |piece| {
        data[pos + i] := piece[i];
      }
    }
  }

  class ByteArray {
    const nodeSize: nat
    var position: nat
    var capacity: nat
    var size: nat
    var head: Node
    var current: Node?
    ghost var nodes: seq<Node>
    ghost var buffers: seq<array<Byte>>
    ghost var mem: seq<Byte>
    ghost var at: nat
    ghost var Repr: set<object>

    /** The list that starts at `head`. */
    ghost predicate Linked()
      reads `nodes, `head, nodes
    {
      && |nodes| > 0 && head == nodes[0] && nodes[|nodes| - 1].next == null
      && (forall i :: 0 <= i < |nodes| ==> nodes[i].spot == i)
      && (forall i, k :: 0 <= i < k < |nodes| && k == i + 1 ==> nodes[i].next == nodes[k])
    }

    /** The buffers of the nodes, all of one size and apart. */
    ghost predicate Apart()
      reads `nodes, `buffers
    {
      && nodeSize > 0 && |buffers| == |nodes|
      && (forall i :: 0 <= i < |nodes| ==> nodes[i].data == buffers[i] && buffers[i].Length == nodeSize)
      && (forall i, j :: 0 <= i < j < |buffers| ==> buffers[i] != buffers[j])
    }

    /** `now` is what the buffers hold, one behind the other. */
    ghost predicate Mirrors(now: seq<Byte>)
      requires Apart()
      reads `nodes, `buffers, buffers
    {
      && |now| == Start(|nodes|, nodeSize)
      && forall i, j :: 0 <= i < |buffers| && 0 <= j < nodeSize ==> buffers[i][j] == At(now, Start(i, nodeSize) + j)
    }

    ghost predicate Holds()
      requires Apart()
      reads `nodes, `buffers, `mem, buffers
    {
      Mirrors(mem)
    }

    /** `current` is the node that holds the position, and null when none does. */
    ghost predicate CurrentHolds()
      reads `nodes, `at, `current, `position
    {
      && 0 <= at <= |nodes|
      && Start(at, nodeSize) <= position
      && if at < |nodes|
         then current == nodes[at] && position < Start(at, nodeSize) + nodeSize
         else current == null && position == Start(|nodes|, nodeSize)
    }

    ghost predicate Valid()
      reads this, nodes, buffers
    {
      && Linked() && Apart() && Holds() && CurrentHolds() && capacity == |mem|
      && position <= size <= capacity
    }

    /** The objects of the array, for whoever shares it. */
    ghost predicate Owns()
      reads `nodes, `buffers, `Repr
    {
      && (forall i :: 0 <= i < |nodes| ==> nodes[i] in Repr)
      && (forall i :: 0 <= i < |buffers| ==> buffers[i] in Repr)
    }

    /** `ns` is the old nodes and then new ones. */
    twostate predicate GrewTo(new ns: seq<Node>)
    {
      && |old(nodes)| <= |ns|
      && forall i :: 0 <= i < |ns| ==>
           if i < |old(nodes)| then ns[i] == old(nodes)[i] else fresh(ns[i]) && fresh(ns[i].data)
    }

    twostate predicate Grew()
      reads `nodes
    {
      GrewTo(nodes)
    }

    twostate lemma GrewMore(new ns: seq<Node>, new node: Node)
      requires GrewTo(ns) && fresh(node) && fresh(node.data)
      ensures GrewTo(ns + [node])
    {
    }

    /** So with the buffers. */
    twostate predicate BuffersGrew()
      reads `buffers
    {
      && |old(buffers)| <= |buffers|
      && forall i :: 0 <= i < |buffers| ==>
           if i < |old(buffers)| then buffers[i] == old(buffers)[i] else fresh(buffers[i])
    }

    /** What the array stands for. */
    ghost function Flat(): (f: Flat)
      reads `mem, `size, `position
    {
      ByteFlat.Flat(mem, size, position)
    }

    /** In the class's own terms: the cursor's node is number `position / nodeSize`, and missing
        exactly at full capacity. */
    lemma CurrentMissing()
      requires Linked() && Apart() && Holds() && CurrentHolds() && capacity == |mem|
      ensures current == null <==> position == capacity
      ensures at == |nodes| <==> position == capacity
      ensures current != null ==> position / nodeSize < |nodes| && current == nodes[position / nodeSize]
    {
      if at < |nodes| {
        Spot(position, nodeSize, at);
        NodeInside(at, |nodes|, nodeSize);
      }
    }

    constructor (size: nat)
      requires size > 0
      ensures Valid() && Owns() && fresh(Repr) && nodeSize == size
      ensures Flat() == ByteFlat.Flat(Zeros(size), 0, 0)
    {
      nodeSize := size;
      position, capacity, this.size := 0, size, 0;
      var node := new Node(size, 0);
      head, current := node, node;
      nodes, buffers, mem, at := [node], [node.data], Zeros(size), 0;
      Repr := {node, node.data};
    }

    // ----- capacity

    method LastNode() returns (tmp: Node)
      requires Linked()
      ensures tmp == nodes[|nodes| - 1]
    {
      tmp := head;
      ghost var i := 0;
      assert |nodes| > 1 ==> nodes[0].next == nodes[1];
      while tmp.next != null
        invariant i < |nodes| && tmp == nodes[i]
        invariant i + 1 < |nodes| ==> tmp.next == nodes[i + 1]
        decreases |nodes| - i
      {
        tmp := NextNode(tmp, i);
        i := i + 1;
        assert i + 1 < |nodes| ==> nodes[i].next == nodes[i + 1];
      }
    }

    method NextNode(cur: Node, ghost k: nat) returns (next: Node?)
      requires Linked() && k < |nodes| && cur == nodes[k]
      ensures next == if k + 1 < |nodes| then nodes[k + 1] else null
    {
      assert k + 1 < |nodes| ==> nodes[k].next == nodes[k + 1];
      next := cur.next;
    }

    method Append(tmp: Node, ghost base: seq<Byte>, ghost n: nat) returns (node: Node)
      requires Linked() && Apart() && Holds() && capacity == |mem| && tmp == nodes[|nodes| - 1]
      requires Padded(base, mem, n)
      modifies tmp, `nodes, `buffers, `mem, `capacity
      ensures fresh(node) && fresh(node.data) && Linked() && Apart() && Holds() && capacity == |mem|
      ensures nodes == old(nodes) + [node]
      ensures Padded(base, mem, nodeSize + n)
    {
      PadMore(base, mem, n, nodeSize);
      node := new Node(nodeSize, |nodes|);
      tmp.next := node;
      capacity := capacity + 1 * nodeSize;
      nodes, buffers, mem := nodes + [node], buffers + [node.data], mem + Zeros(nodeSize);
      LinkedMore(tmp, node);
      ApartMore(node);
      HoldsMore(node);
    }

    twostate lemma LinkedMore(tmp: Node, new node: Node)
      requires old(Linked()) && tmp == old(nodes)[|old(nodes)| - 1] && nodes == old(nodes) + [node] && head == old(head)
      requires node.spot == |old(nodes)| && node.next == null && tmp.next == node
      requires forall i :: 0 <= i < |old(nodes)| - 1 ==> nodes[i].next == old(nodes[i].next)
      ensures Linked()
    {
    }

    twostate lemma ApartMore(new node: Node)
      requires old(Apart()) && nodes == old(nodes) + [node] && buffers == old(buffers) + [node.data]
      requires fresh(node.data) && node.data.Length == nodeSize
      ensures Apart()
    {
    }

    twostate lemma HoldsMore(new node: Node)
      requires old(Apart()) && old(Holds()) && Apart() && unchanged(old(buffers))
      requires nodes == old(nodes) + [node] && buffers == old(buffers) + [node.data]
      requires mem == old(mem) + Zeros(nodeSize) && node.Blank()
      ensures Holds()
    {
      NodesApart(|old(nodes)|, |old(nodes)|, nodeSize);
    }

    /** The new nodes go behind the last one. */
    method AppendNodes(nodeNum: nat) returns (first: Node?)
      requires Linked() && Apart() && Holds() && capacity == |mem|
      modifies nodes, `nodes, `buffers, `mem, `capacity
      ensures Linked() && Apart() && Holds() && Grew() && capacity == |mem|
      ensures |nodes| == old(|nodes|) + nodeNum && Padded(old(mem), mem, Start(nodeNum, nodeSize))
      ensures first == if nodeNum > 0 then nodes[old(|nodes|)] else null
    {
      var tmp := LastNode();
      first := null;
      ghost var added: nat := 0;
      for j := 0 to nodeNum
        invariant Linked() && Apart() && Holds() && Grew() && capacity == |mem|
        invariant |nodes| == old(|nodes|) + j && added == Start(j, nodeSize) && Padded(old(mem), mem, added)
        invariant tmp == nodes[|nodes| - 1] && (tmp == nodes[old(|nodes|) - 1] || fresh(tmp))
        invariant first == if j > 0 then nodes[old(|nodes|)] else null
      {
        ghost var ns := nodes;
        tmp := Append(tmp, old(mem), added);
        GrewMore(ns, tmp);
        added := nodeSize + added;
        if first == null {
          first := tmp;
        }
      }
    }

    /** `m_current = first` if it was null; `n` nodes are old. */
    method EnterNew(first: Node?, full: bool, ghost n: nat)
      requires Linked() && Apart() && Holds() && at <= n <= |nodes| && (full <==> at == n)
      requires first == if n < |nodes| then nodes[n] else null
      requires if at < n then current == nodes[at] && Start(at, nodeSize) <= position < Start(at, nodeSize) + nodeSize
               else position == Start(n, nodeSize)
      requires capacity == |mem| && position <= size <= capacity
      modifies `current
      ensures Valid()
    {
      if full {
        current := first;
      }
    }

    /** `addCapacity`, measured from the cursor. */
    method AddCapacity(count: nat)
      requires Valid()
      modifies nodes, `nodes, `buffers, `mem, `capacity, `current
      ensures Valid() && Grew()
      ensures Flat() == old(Flat()).Grow(count, nodeSize)
    {
      var available := capacity - position;
      if available > count {
        return;
      }
      var newCap := count - available;
      ghost var f := Flat();
      RoundUp(newCap, nodeSize);
      AddNodes(Nodes(newCap, nodeSize), available == 0);
      GrownTo(f, count, nodeSize, mem);
    }

    /** Its second half, for a cursor with or without a node. */
    method AddNodes(nodeNum: nat, full: bool)
      requires Valid() && (full <==> position == capacity)
      modifies nodes, `nodes, `buffers, `mem, `capacity, `current
      ensures Valid() && Grew() && Padded(old(mem), mem, Start(nodeNum, nodeSize))
    {
      CurrentMissing();
      ghost var n := |nodes|;
      var first := AppendNodes(nodeNum);
      assert at < n ==> current == nodes[at];
      assert |mem| >= |old(mem)|;
      EnterNew(first, full, n);
    }

    // ----- the cursor

    /** Whether the cursor stands `nodePos` bytes into a node. */
    ghost predicate Ready(nodePos: nat)
      reads `current, `position, `at
    {
      current != null && position == Start(at, nodeSize) + nodePos && nodePos < nodeSize
    }

    method NodePosition() returns (nodePos: nat)
      requires nodeSize > 0 && CurrentHolds()
      ensures current != null ==> Ready(nodePos)
    {
      nodePos := position % nodeSize;
      if at < |nodes| {
        Spot(position, nodeSize, at);
      }
    }

    /** Moves the cursor by `step` within its node, or to the next node when this one is used up. */
    method Advance(step: nat, nodePos: nat)
      requires Linked() && Apart() && Holds() && CurrentHolds()
      requires Ready(nodePos) && nodePos + step <= nodeSize
      modifies `current, `position, `at
      ensures Linked() && Apart() && Holds() && CurrentHolds()
      ensures position == old(position) + step <= |mem|
      ensures nodePos + step == nodeSize && position < |mem| ==> Ready(0)
    {
      NodeInside(at, |nodes|, nodeSize);
      if nodePos + step == nodeSize {
        var next := NextNode(current, at);
        MoveTo(next, at + 1, position + step);
      } else {
        MoveTo(current, at, position + step);
      }
    }

    method MoveTo(cur: Node?, ghost k: nat, p: nat)
      requires Linked() && Apart() && Holds() && k <= |nodes|
      requires cur == if k < |nodes| then nodes[k] else null
      requires Start(k, nodeSize) <= p &&
               if k < |nodes| then p < Start(k, nodeSize) + nodeSize else p == Start(k, nodeSize)
      modifies `current, `position, `at
      ensures Linked() && Apart() && Holds() && CurrentHolds()
      ensures current == cur && position == p && at == k
    {
      current, at, position := cur, k, p;
    }

    // ----- writing

    /** Copies into the node of the cursor. */
    method CopyIn(pos: nat, piece: seq<Byte>)
      requires Linked() && Apart() && Holds() && CurrentHolds() && Ready(pos) && pos + |piece| <= nodeSize
      modifies current.data, `mem
      ensures Linked() && Apart() && Holds()
      ensures position + |piece| <= |mem| && mem == Overwrite(old(mem), position, piece)
    {
      NodeInside(at, |nodes|, nodeSize);
      ghost var now := Overwrite(mem, position, piece);
      CopyBytes(pos, piece);
      CopiedMirrors(pos, piece, now);
      Mirror(now);
    }

    method CopyBytes(pos: nat, piece: seq<Byte>)
      requires Linked() && Apart() && Holds() && CurrentHolds() && Ready(pos) && pos + |piece| <= nodeSize
      modifies current.data
      ensures Linked() && Apart() && Copied(mem, pos, piece)
    {
      assert current.data == buffers[at];
      current.CopyIn(pos, piece);
    }

    ghost method Mirror(now: seq<Byte>)
      requires Linked() && Apart() && Mirrors(now)
      modifies `mem
      ensures Linked() && Apart() && Holds() && mem == now
    {
      mem := now;
    }

    ghost predicate Copied(was: seq<Byte>, pos: nat, piece: seq<Byte>)
      requires Apart()
      reads `nodes, `buffers, `at, buffers
    {
      forall i, j :: 0 <= i < |buffers| && 0 <= j < nodeSize ==>
        buffers[i][j] == if i == at && pos <= j < pos + |piece| then piece[j - pos]
                         else At(was, Start(i, nodeSize) + j)
    }

    lemma CopiedMirrors(pos: nat, piece: seq<Byte>, now: seq<Byte>)
      requires Apart() && at < |nodes| && pos + |piece| <= nodeSize
      requires |mem| == Start(|nodes|, nodeSize) && Start(at, nodeSize) + nodeSize <= |mem|
      requires Copied(mem, pos, piece) && now == Overwrite(mem, Start(at, nodeSize) + pos, piece)
      ensures Mirrors(now)
    {
      NodesApart(at, |nodes|, nodeSize);
    }

    /** One `memcpy` of the write loop, with the move of the cursor: after `done` bytes of `buf`
        it writes `count` more. */
    method PutNext(buf: seq<Byte>, done: nat, count: nat, nodePos: nat, ghost was: seq<Byte>, ghost from: nat)
      returns (now: nat)
      requires Linked() && Apart() && Holds() && CurrentHolds() && Ready(nodePos)
      requires done + count <= |buf| && nodePos + count <= nodeSize
      requires Laid(mem, was, from, buf, done) && position == from + done
      modifies buffers, `mem, `current, `position, `at
      ensures Linked() && Apart() && Holds() && CurrentHolds()
      ensures now == done + count && position == from + now
      ensures nodePos + count == nodeSize && position < |mem| ==> Ready(0)
      ensures Laid(mem, was, from, buf, now)
    {
      assert current.data == buffers[at];
      CopyIn(nodePos, buf[done..done + count]);
      LaidNext(old(mem), mem, was, from, buf, done, count);
      Advance(count, nodePos);
      now := done + count;
    }

    /** The loop of `write`, once there is room. */
    method WriteInto(buf: seq<Byte>)
      requires Linked() && Apart() && Holds() && CurrentHolds() && capacity == |mem|
      requires |buf| > 0 && position + |buf| <= capacity
      modifies buffers, `mem, `current, `position, `at
      ensures Linked() && Apart() && Holds() && CurrentHolds() && capacity == |mem|
      ensures position == old(position) + |buf|
      ensures Laid(mem, old(mem), old(position), buf, |buf|)
    {
      CurrentMissing();
      var nodePos := NodePosition();
      var left := |buf|;
      var bufPos, nodeCap := 0, nodeSize - nodePos;
      LaidStart(mem, position, buf);
      while left > 0
        invariant Linked() && Apart() && Holds() && CurrentHolds()
        invariant 0 <= bufPos <= |buf| && bufPos + left == |buf| && position == old(position) + bufPos
        invariant left > 0 ==> 0 <= nodePos && Ready(nodePos) && nodePos + nodeCap == nodeSize
        invariant Laid(mem, old(mem), old(position), buf, bufPos)
      {
        if nodeCap >= left {
          bufPos := PutNext(buf, bufPos, left, nodePos, old(mem), old(position));
          left := 0;
        } else {
          bufPos := PutNext(buf, bufPos, nodeCap, nodePos, old(mem), old(position));
          left := left - nodeCap;
          nodePos, nodeCap := 0, nodeSize;
        }
      }
    }

    method RaiseSize()
      requires Linked() && Apart() && Holds() && CurrentHolds() && capacity == |mem|
      modifies `size
      ensures Linked() && Apart() && Holds() && CurrentHolds()
      ensures size == if position > old(size) then position else old(size)
    {
      if position > size {
        size := position;
      }
    }

    method Write(buf: seq<Byte>)
      requires Valid() && Owns()
      modifies this, Repr
      ensures Valid() && Owns() && fresh(Repr - old(Repr))
      ensures Flat() == old(Flat()).Write(buf, nodeSize)
    {
      if |buf| == 0 {
        return;
      }
      Reserve(|buf|);
      Deposit(buf);
    }

    method Deposit(buf: seq<Byte>)
      requires Valid() && |buf| > 0 && position + |buf| <= capacity
      modifies buffers, `mem, `current, `position, `at, `size
      ensures Valid() && position == old(position) + |buf|
      ensures size == if position > old(size) then position else old(size)
      ensures old(position) + |buf| <= |old(mem)| && mem == Overwrite(old(mem), old(position), buf)
    {
      WriteInto(buf);
      assert buf[..|buf|] == buf;
      RaiseSize();
    }

    /** `addCapacity`, with what is new among the array's objects. */
    method Reserve(count: nat)
      requires Valid() && Owns()
      modifies this, Repr
      ensures Valid() && Owns() && fresh(Repr - old(Repr))
      ensures Flat() == old(Flat()).Grow(count, nodeSize)
    {
      AddCapacity(count);
      BuffersFollow();
      Own();
      assert forall o :: o in nodes ==> o in old(Repr) || fresh(o);
      assert forall o :: o in buffers ==> o in old(Repr) || fresh(o);
    }

    twostate lemma BuffersFollow()
      requires old(Apart()) && Apart() && Grew()
      ensures BuffersGrew()
    {
      forall i | 0 <= i < |nodes|
        ensures if i < |old(buffers)| then buffers[i] == old(buffers)[i] else fresh(buffers[i])
      {
        assert nodes[i].data == buffers[i];
      }
    }

    ghost method Own()
      requires Valid()
      modifies `Repr
      ensures Valid() && Owns()
      ensures forall o :: o in Repr ==> o in old(Repr) || o in nodes || o in buffers
    {
      Repr := Repr + (set i | 0 <= i < |nodes| :: nodes[i] as object)
                   + (set i | 0 <= i < |buffers| :: buffers[i] as object);
    }

    // ----- reading

    /** Copies out of a node. */
    method CopyOut(cur: Node, ghost k: nat, pos: nat, count: nat) returns (piece: seq<Byte>)
      requires Linked() && Apart() && Holds() && k < |nodes| && cur == nodes[k] && pos + count <= nodeSize
      ensures Start(k, nodeSize) + pos + count <= |mem|
      ensures piece == mem[Start(k, nodeSize) + pos..Start(k, nodeSize) + pos + count]
    {
      NodeInside(k, |nodes|, nodeSize);
      assert cur.data == buffers[k];
      piece := cur.data[pos..pos + count];
    }

    /** One `memcpy` of a read loop. */
    method TakeMore(buf: seq<Byte>, cur: Node, ghost k: nat, pos: nat, count: nat, ghost from: nat)
      returns (more: seq<Byte>)
      requires Linked() && Apart() && Holds() && k < |nodes| && cur == nodes[k] && pos + count <= nodeSize
      requires Taken(buf, mem, from, |buf|) && Start(k, nodeSize) + pos == from + |buf|
      ensures |more| == |buf| + count && Taken(more, mem, from, |more|)
    {
      var piece := CopyOut(cur, k, pos, count);
      TakenNext(buf, piece, mem, from);
      more := buf + piece;
    }

    /** The same with the move of the cursor. */
    method TakeNext(buf: seq<Byte>, count: nat, nodePos: nat, ghost from: nat) returns (more: seq<Byte>)
      requires Linked() && Apart() && Holds() && CurrentHolds() && Ready(nodePos) && nodePos + count <= nodeSize
      requires Taken(buf, mem, from, |buf|) && position == from + |buf|
      modifies `current, `position, `at
      ensures Linked() && Apart() && Holds() && CurrentHolds()
      ensures position == from + |more|
      ensures nodePos + count == nodeSize && position < |mem| ==> Ready(0)
      ensures |more| == |buf| + count && Taken(more, mem, from, |more|)
    {
      more := TakeMore(buf, current, at, nodePos, count, from);
      Advance(count, nodePos);
    }

    /** The loop of `read`, once there is enough. */
    method ReadFrom(count: nat) returns (buf: seq<Byte>)
      requires Linked() && Apart() && Holds() && CurrentHolds() && capacity == |mem|
      requires position + count <= capacity
      modifies `current, `position, `at
      ensures Linked() && Apart() && Holds() && CurrentHolds()
      ensures position == old(position) + count && Taken(buf, mem, old(position), count)
    {
      CurrentMissing();
      var nodePos := NodePosition();
      var left := count;
      var nodeCap := nodeSize - nodePos;
      buf := [];
      while left > 0
        invariant Linked() && Apart() && Holds() && CurrentHolds()
        invariant 0 <= left <= count && |buf| + left == count && position == old(position) + |buf|
        invariant left > 0 ==> 0 <= nodePos && Ready(nodePos) && nodePos + nodeCap == nodeSize
        invariant Taken(buf, mem, old(position), |buf|)
      {
        if nodeCap >= left {
          buf := TakeNext(buf, left, nodePos, old(position));
          left := 0;
        } else {
          buf := TakeNext(buf, nodeCap, nodePos, old(position));
          left := left - nodeCap;
          nodePos, nodeCap := 0, nodeSize;
        }
      }
    }

    /** Reads from the cursor on and moves it; with too little to read nothing changes. */
    method Read(count: nat) returns (r: Option<seq<Byte>>)
      requires Valid()
      modifies `current, `position, `at
      ensures Valid()
      ensures old(Flat()).Read(count) == if r == None then None else Some((r.value, Flat()))
      ensures r == None ==> Flat() == old(Flat())
    {
      var readable := ReadableSize();
      if readable < count {
        return None;
      }
      ghost var f := Flat();
      var buf := ReadFrom(count);
      TakenIsRead(f, count, buf);
      r := Some(buf);
    }

    /** `toString`: everything from the cursor on, which stays where it is. */
    method ToString() returns (str: seq<Byte>)
      requires Valid()
      ensures str == Flat().Readable()
    {
      var count := ReadableSize();
      var r := ReadAt(count, position);
      str := r.value;
    }

    method ReadableSize() returns (n: nat)
      requires Valid()
      ensures n == size - position
    {
      n := size - position;
    }

    /** The node `num` steps from the head. */
    method NodeAt(num: nat) returns (cur: Node?)
      requires Linked() && num <= |nodes|
      ensures cur == if num < |nodes| then nodes[num] else null
    {
      cur := head;
      var left := num;
      ghost var k := 0;
      while left > 0
        invariant 0 <= left && k + left == num
        invariant cur == if k < |nodes| then nodes[k] else null
      {
        cur := NextNode(cur, k);
        k := k + 1;
        left := left - 1;
      }
    }

    /** Reads `count` bytes from `start` on without moving the cursor. */
    method ReadAt(count: nat, start: nat) returns (r: Option<seq<Byte>>)
      requires Valid()
      ensures r == Flat().ReadAt(count, start)
    {
      if size < start + count {
        return None;
      }
      var buf := ReadThere(count, start);
      r := Some(buf);
    }

    /** The node in which `start` lies, and where in it. */
    method Find(start: nat) returns (cur: Node?, nodePos: nat, ghost k: nat)
      requires Linked() && Apart() && Holds() && start <= |mem|
      ensures k <= |nodes| && cur == if k < |nodes| then nodes[k] else null
      ensures nodePos < nodeSize && Start(k, nodeSize) + nodePos == start
    {
      k := SpotOf(start);
      cur := NodeAt(start / nodeSize);
      nodePos := start % nodeSize;
    }

    method ReadThere(count: nat, start: nat) returns (buf: seq<Byte>)
      requires Linked() && Apart() && Holds() && start + count <= |mem|
      ensures Taken(buf, mem, start, count)
    {
      var cur, nodePos, k := Find(start);
      var left := count;
      var nodeCap := nodeSize - nodePos;
      buf := [];
      while left > 0
        invariant 0 <= left <= count && |buf| + left == count
        invariant 0 <= k && LiesIn(cur, k, nodePos, start + |buf|)
        invariant left > 0 ==> nodePos + nodeCap == nodeSize
        invariant Taken(buf, mem, start, |buf|)
      {
        InRange(cur, k, nodePos, start + |buf|);
        if nodeCap >= left {
          buf := TakeMore(buf, cur, k, nodePos, left, start);
          return;
        } else {
          buf := TakeMore(buf, cur, k, nodePos, nodeCap, start);
          left := left - nodeCap;
          NextLies(cur, k, nodePos, nodeCap, start + |buf| - nodeCap);
          cur := NextNode(cur, k);
          k := k + 1;
          nodePos, nodeCap := 0, nodeSize;
        }
      }
    }

    lemma NextLies(cur: Node?, k: nat, nodePos: int, nodeCap: int, p: nat)
      requires LiesIn(cur, k, nodePos, p) && k < |nodes| && nodePos + nodeCap == nodeSize
      ensures LiesIn(if k + 1 < |nodes| then nodes[k + 1] else null, k + 1, 0, p + nodeCap)
    {
    }

    /** Byte `p` lies `nodePos` bytes into node `k`, which is `cur`. */
    ghost predicate LiesIn(cur: Node?, k: nat, nodePos: int, p: nat)
      reads `nodes
    {
      && k <= |nodes| && cur == (if k < |nodes| then nodes[k] else null)
      && 0 <= nodePos < nodeSize && Start(k, nodeSize) + nodePos == p
    }

    lemma InRange(cur: Node?, k: nat, nodePos: int, p: nat)
      requires Apart() && Holds() && LiesIn(cur, k, nodePos, p) && p < |mem|
      ensures k < |nodes|
    {
    }

    /** The number of the node in which `start` lies. */
    lemma SpotOf(start: nat) returns (k: nat)
      requires Apart() && Holds() && start <= |mem|
      ensures k == start / nodeSize <= |nodes| && Start(k, nodeSize) + start % nodeSize == start
      ensures k == |nodes| <==> start == |mem|
    {
      k := start / nodeSize;
      StartIsProduct(k, nodeSize);
      if k < |nodes| {
        NodeInside(k, |nodes|, nodeSize);
      } else if |nodes| < k {
        NodeInside(|nodes|, k, nodeSize);
      }
    }

    /** Puts the cursor anywhere up to the capacity; past the contents that makes them longer.
        Its node is searched from the head; there is none at full capacity. */
    method SetPosition(p: nat) returns (ok: bool)
      requires Valid()
      modifies `current, `position, `at, `size
      ensures Valid()
      ensures old(Flat()).SetPosition(p) == if ok then Some(Flat()) else None
      ensures !ok ==> Flat() == old(Flat())
    {
      if p > capacity {
        return false;
      }
      Seek(p);
      ok := true;
    }

    method Seek(p: nat)
      requires Valid() && p <= capacity
      modifies `current, `position, `at, `size
      ensures Valid()
      ensures Flat() == ByteFlat.Flat(old(mem), if p > old(size) then p else old(size), p)
    {
      var cur, k := Walk(p);
      MoveTo(cur, k, p);
      if p > size {
        size := p;
      }
    }

    method Walk(p: nat) returns (cur: Node?, ghost k: nat)
      requires Linked() && Apart() && Holds() && p <= |mem|
      ensures k <= |nodes| && cur == if k < |nodes| then nodes[k] else null
      ensures Start(k, nodeSize) <= p && (k < |nodes| ==> p < Start(k, nodeSize) + nodeSize)
    {
      cur := head;
      k := 0;
      var left := p;
      while cur != null && left >= cur.data.Length
        invariant 0 <= left && k <= |nodes| && Start(k, nodeSize) + left == p
        invariant cur == if k < |nodes| then nodes[k] else null
        decreases |nodes| - k
      {
        assert nodes[k].data == buffers[k];
        left := left - cur.data.Length;
        cur := NextNode(cur, k);
        k := k + 1;
      }
      if k < |nodes| {
        assert nodes[k].data == buffers[k];
      }
    }

    /** Takes the nodes behind the head off the list. */
    method Unlink()
      requires Linked()
      modifies head
      ensures head.next == null
    {
      ghost var k := 1;
      assert |nodes| > 1 ==> nodes[0].next == nodes[1];
      while head.next != null
        invariant |nodes| > 0 && head == nodes[0] && head.spot == 0 && 1 <= k <= |nodes|
        invariant head.next == if k < |nodes| then nodes[k] else null
        invariant forall i :: 1 <= i < |nodes| ==> nodes[i].spot == i
        invariant |nodes| > 1 ==> nodes[|nodes| - 1].next == null
        invariant forall i, j :: 1 <= i < j < |nodes| && j == i + 1 ==> nodes[i].next == nodes[j]
        decreases |nodes| - k
      {
        var tmp := head.next;
        assert k + 1 < |nodes| ==> nodes[k].next == nodes[k + 1];
        head.next := tmp.next;
        k := k + 1;
      }
    }

    /** What there is when only the head is left. */
    ghost predicate OnlyHead(first: seq<Byte>)
      reads `head, head, head.data
    {
      head.spot == 0 && head.next == null && head.data.Length == nodeSize && head.data[..] == first
    }

    /** Gives up all nodes but the first. */
    method Clear()
      requires Valid()
      modifies this, head
      ensures Valid() && nodes == [head] && head == old(head)
      ensures 0 < nodeSize <= |old(mem)| && Flat() == old(Flat()).Clear(nodeSize)
    {
      HeadHolds();
      ghost var first := mem[..nodeSize];
      Unlink();
      position, size, capacity := 0, 0, nodeSize;
      KeepHead(first);
    }

    lemma HeadHolds()
      requires Linked() && Apart() && Holds()
      ensures head.spot == 0 && head.data.Length == nodeSize <= |mem| && head.data[..] == mem[..nodeSize]
    {
      assert head == nodes[0] && head.data == buffers[0];
      NodeInside(0, |nodes|, nodeSize);
    }

    method KeepHead(ghost first: seq<Byte>)
      requires OnlyHead(first) && 0 < nodeSize == |first|
      modifies `current, `nodes, `buffers, `mem, `at
      ensures Linked() && Apart() && Holds() && mem == first && nodes == [head]
      ensures current == head && at == 0
    {
      current := head;
      nodes, buffers, mem, at := [head], [head.data], first, 0;
    }
  }

  /** `now` is `was` after `done` bytes of `buf` have been written. */
  ghost predicate Laid(now: seq<Byte>, was: seq<Byte>, from: nat, buf: seq<Byte>, done: nat) {
    from + |buf| <= |was| && done <= |buf| && now == Overwrite(was, from, buf[..done])
  }

  lemma LaidStart(was: seq<Byte>, from: nat, buf: seq<Byte>)
    requires from + |buf| <= |was|
    ensures Laid(was, was, from, buf, 0)
  {
  }

  lemma LaidNext(now: seq<Byte>, next: seq<Byte>, was: seq<Byte>, from: nat, buf: seq<Byte>, done: nat, n: nat)
    requires Laid(now, was, from, buf, done) && done + n <= |buf|
    requires next == Overwrite(now, from + done, buf[done..done + n])
    ensures Laid(next, was, from, buf, done + n)
  {
    assert buf[..done] + buf[done..done + n] == buf[..done + n];
    OverwriteInTwo(was, from, buf[..done], buf[done..done + n]);
  }

  /** `buf` is what `done` bytes from `from` on are. */
  ghost predicate Taken(buf: seq<Byte>, mem: seq<Byte>, from: nat, done: nat) {
    from + done <= |mem| && buf == mem[from..from + done]
  }

  lemma TakenIsRead(f: Flat, count: nat, buf: seq<Byte>)
    requires f.Valid() && f.position + count <= f.size && Taken(buf, f.mem, f.position, count)
    ensures f.Read(count) == Some((buf, f.(position := f.position + count)))
  {
  }

  lemma TakenNext(buf: seq<Byte>, piece: seq<Byte>, mem: seq<Byte>, from: nat)
    requires Taken(buf, mem, from, |buf|) && Taken(piece, mem, from + |buf|, |piece|)
    ensures Taken(buf + piece, mem, from, |buf + piece|)
  {
  }

  ghost predicate Padded(mem: seq<Byte>, padded: seq<Byte>, n: nat) {
    padded == mem + Zeros(n)
  }

  lemma GrownTo(f: Flat, count: nat, node: nat, padded: seq<Byte>)
    requires f.Valid() && node > 0 && |f.mem| - f.position <= count
    requires Padded(f.mem, padded, Start(Nodes(count - (|f.mem| - f.position), node), node))
    ensures f.Grow(count, node) == ByteFlat.Flat(padded, f.size, f.position)
  {
  }

  lemma PadMore(mem: seq<Byte>, padded: seq<Byte>, m: nat, n: nat)
    requires Padded(mem, padded, m)
    ensures Padded(mem, padded + Zeros(n), n + m)
  {
    assert mem + Zeros(m) + Zeros(n) == mem + Zeros(n + m);
  }
}
