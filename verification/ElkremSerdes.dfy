/** Receivers as bytes (elkrem/serdes.go): one byte with the number of nodes, then 41
    bytes a node: height, index in 8 bytes with the high byte first, and hash. */
module ElkremSerdes {
  import opened Wrappers
  import opened Numbers
  import opened ElkremRange
  import opened Elkrem

  const NODE_BYTES: nat := 41

  // ------------------------------------------------------------ specification

  function NodeBytes(n: Node): (r: seq<byte>)
    ensures |r| == NODE_BYTES
  {
    [(n.h % 256) as byte] + BigEndian(n.i, 8) + n.sha
  }

  function NodesBytes(nodes: seq<Node>): (r: seq<byte>)
    ensures |r| == NODE_BYTES * |nodes|
  {
    if nodes == [] then [] else NodesBytes(nodes[..|nodes| - 1]) + NodeBytes(nodes[|nodes| - 1])
  }

  function NodeFrom(b: seq<byte>): (n: Node)
    requires |b| == NODE_BYTES
  {
    Node(b[0] as nat, FromBigEndian(b[1..9]), b[9..])
  }

  /** The heights and indices a receiver may be restored with. */
  predicate Sane(nodes: seq<Node>) {
    && (forall n <- nodes :: n.h <= MAX_HEIGHT && n.i <= MAX_INDEX)
    && forall k :: 0 < k < |nodes| ==> nodes[k - 1].h >= nodes[k].h
  }

  /** Is b the bytes of the nodes, with their number in front? */
  predicate Represents(b: seq<byte>, nodes: seq<Node>) {
    if nodes == [] then b == []
    else |nodes| <= MAX_HEIGHT + 1 && b == [|nodes| as byte] + NodesBytes(nodes)
  }

  // ------------------------------------------------------------------ methods

  /** The number of nodes is written as one byte, and taken from their count modulo 256. */
  method ToBytes(nodes: seq<Node>) returns (r: Option<seq<byte>>)
    ensures r.Some? ==> Represents(r.value, nodes) || (r.value == [] && |nodes| % 256 == 0)
    ensures r.Some? <==> |nodes| <= MAX_HEIGHT + 1 || |nodes| % 256 == 0
  {
    var numOfNodes := |nodes| % 256;
    if numOfNodes == 0 {
      return Some([]);
    }
    if numOfNodes > MAX_HEIGHT + 1 {
      return None;
    }
    var buf := [numOfNodes as byte];
    for k := 0 to |nodes|
      invariant buf == [numOfNodes as byte] + NodesBytes(nodes[..k])
    {
      assert nodes[..k + 1][..k] == nodes[..k];
      buf := buf + [(nodes[k].h % 256) as byte];
      buf := buf + BigEndian(nodes[k].i, 8);
      buf := buf + nodes[k].sha;
    }
    assert nodes[..|nodes|] == nodes;
    if |buf| != numOfNodes * NODE_BYTES + 1 {
      return None;
    }
    r := Some(buf);
  }

  method FromBytes(b: seq<byte>) returns (r: Option<seq<Node>>)
    ensures r.Some? ==> Sane(r.value) && Represents(b, r.value)
    ensures r.None? ==> forall nodes :: Sane(nodes) ==> !Represents(b, nodes)
  {
    hide NodesBytes, NodeBytes, NodeFrom;
    if |b| == 0 {
      return Some([]);
    }
    var numOfNodes := b[0] as nat;
    if numOfNodes < 1 || numOfNodes > MAX_HEIGHT + 1 {
      return None;
    }
    if |b| - 1 != numOfNodes * NODE_BYTES {
      return None;
    }
    var nodes: seq<Node> := [];
    NoBytes();
    for j := 0 to numOfNodes
      invariant |nodes| == j && Sane(nodes)
      invariant NodesBytes(nodes) == b[1..1 + NODE_BYTES * j]
    {
      var at := 1 + NODE_BYTES * j;
      var n := NodeFrom(b[at..at + NODE_BYTES]);
      NodeBack(b[at..at + NODE_BYTES]);
      assert b[1..at + NODE_BYTES] == b[1..at] + b[at..at + NODE_BYTES];
      if n.h > MAX_HEIGHT || n.i > MAX_INDEX || (j > 0 && nodes[j - 1].h < n.h) {
        NotSane(nodes, n);
        forall other { CannotRepresent(b, nodes, n, other); }
        return None;
      }
      AppendRead(nodes, n);
      AppendSane(nodes, n);
      nodes := nodes + [n];
    }
    assert b[1..] == b[1..1 + NODE_BYTES * numOfNodes];
    AllRead(b, nodes);
    r := Some(nodes);
  }

  // ------------------------------------------------------------------ lemmas

  lemma NoBytes()
    ensures NodesBytes([]) == []
  {}

  lemma AppendRead(nodes: seq<Node>, n: Node)
    ensures NodesBytes(nodes + [n]) == NodesBytes(nodes) + NodeBytes(n)
  {}

  lemma AppendSane(nodes: seq<Node>, n: Node)
    requires Sane(nodes) && n.h <= MAX_HEIGHT && n.i <= MAX_INDEX && (nodes != [] ==> nodes[|nodes| - 1].h >= n.h)
    ensures Sane(nodes + [n])
  {}

  lemma AllRead(b: seq<byte>, nodes: seq<Node>)
    requires 0 < |nodes| <= MAX_HEIGHT + 1 && |b| > 0 && |nodes| == b[0] as nat
    requires NodesBytes(nodes) == b[1..]
    ensures Represents(b, nodes)
  {
    assert b == [b[0]] + b[1..];
  }

  lemma NotSane(nodes: seq<Node>, n: Node)
    requires n.h > MAX_HEIGHT || n.i > MAX_INDEX || (nodes != [] && nodes[|nodes| - 1].h < n.h)
    ensures !Sane(nodes + [n])
  {
    var all := nodes + [n];
    assert all[|nodes|] == n && n in all;
    assert |nodes| > 0 ==> all[|nodes| - 1] == nodes[|nodes| - 1];
  }

  lemma NodeBack(b: seq<byte>)
    requires |b| == NODE_BYTES
    ensures NodeBytes(NodeFrom(b)) == b
  {
    BytesBack(b[1..9]);
    assert b == [b[0]] + b[1..9] + b[9..];
  }

  lemma NodeForth(n: Node)
    requires n.h <= MAX_HEIGHT && n.i <= MAX_INDEX
    ensures NodeFrom(NodeBytes(n)) == n
  {
    BigEndianBack(n.i, 8);
    assert Pow256(2) == 65536;
    assert Pow256(8) == TWO_64;
    assert NodeBytes(n)[1..9] == BigEndian(n.i, 8) && NodeBytes(n)[9..] == n.sha;
  }

  /** Bytes stand for at most one list of sane nodes. */
  lemma {:induction false} OneReading(a: seq<Node>, b: seq<Node>)
    requires Sane(a) && Sane(b) && NodesBytes(a) == NodesBytes(b)
    ensures a == b
    decreases |a|
  {
    hide NodesBytes, NodeBytes, NodeFrom;
    assert |a| == |b|;
    if a != [] {
      var m := |a| - 1;
      NodeForth(a[m]);
      NodeForth(b[m]);
      PrefixBytes(a, m);
      PrefixBytes(b, m);
      OneReading(a[..m], b[..m]);
      assert a == a[..m] + [a[m]] && b == b[..m] + [b[m]];
    }
  }

  lemma {:induction false} PrefixBytes(nodes: seq<Node>, k: nat)
    requires k <= |nodes|
    ensures NodesBytes(nodes)[..NODE_BYTES * k] == NodesBytes(nodes[..k])
    ensures k < |nodes| ==> NodesBytes(nodes)[NODE_BYTES * k..NODE_BYTES * (k + 1)] == NodeBytes(nodes[k])
    decreases |nodes|
  {
    hide NodeBytes;
    if k < |nodes| {
      var m := |nodes| - 1;
      PrefixBytes(nodes[..m], k);
      assert nodes[..m][..k] == nodes[..k];
    } else {
      assert nodes[..k] == nodes;
    }
  }

  /** The nodes read so far and the next one are the first nodes of any sane
      receiver with these bytes. */
  lemma ReadsPrefix(nodes: seq<Node>, n: Node, other: seq<Node>)
    requires Sane(nodes) && Sane(other) && |nodes| < |other|
    requires NodesBytes(other)[..NODE_BYTES * |nodes|] == NodesBytes(nodes)
    requires n == NodeFrom(NodesBytes(other)[NODE_BYTES * |nodes|..NODE_BYTES * (|nodes| + 1)])
    ensures Sane(nodes + [n])
  {
    hide NodesBytes, NodeBytes, NodeFrom;
    var j := |nodes|;
    PrefixBytes(other, j);
    PrefixSane(other, j);
    OneReading(other[..j], nodes);
    NodeForth(other[j]);
    PrefixSane(other, j + 1);
    assert other[..j + 1] == nodes + [n];
  }

  lemma PrefixSane(nodes: seq<Node>, j: nat)
    requires Sane(nodes) && j <= |nodes|
    ensures Sane(nodes[..j])
    ensures j < |nodes| ==> nodes[j].h <= MAX_HEIGHT && nodes[j].i <= MAX_INDEX
  {}

  lemma Body(b: seq<byte>, nodes: seq<Node>)
    requires Represents(b, nodes) && b != []
    ensures |nodes| == b[0] as nat && NodesBytes(nodes) == b[1..]
  {}

  /** When a node fails a check, no sane receiver has these bytes. */
  lemma CannotRepresent(b: seq<byte>, nodes: seq<Node>, n: Node, other: seq<Node>)
    requires Sane(nodes) && !Sane(nodes + [n])
    requires |b| > 0 && |nodes| < b[0] as nat
    requires 1 + NODE_BYTES * (|nodes| + 1) <= |b|
    requires NodesBytes(nodes) == b[1..1 + NODE_BYTES * |nodes|]
    requires n == NodeFrom(b[1 + NODE_BYTES * |nodes|..1 + NODE_BYTES * (|nodes| + 1)])
    ensures !(Sane(other) && Represents(b, other))
  {
    hide NodesBytes, NodeFrom, Represents, Sane;
    if Sane(other) && Represents(b, other) {
      var j := |nodes|;
      Body(b, other);
      assert b[1..][..NODE_BYTES * j] == b[1..1 + NODE_BYTES * j];
      assert b[1..][NODE_BYTES * j..NODE_BYTES * (j + 1)] == b[1 + NODE_BYTES * j..1 + NODE_BYTES * (j + 1)];
      ReadsPrefix(nodes, n, other);
    }
  }

  /** A receiver that has accepted at most 2^48 - 1 hashes passes every check on loading. */
  lemma Storable(hs: Hasher, nodes: seq<Node>)
    requires WellFormed(hs, nodes) && |Flatten(hs, nodes)| <= MAX_INDEX + 1
    ensures |nodes| <= MAX_HEIGHT + 1 && Sane(nodes)
    ensures |nodes| % 256 == 0 ==> Represents([], nodes)
  {
    hide NodesBytes, WellFormed, Flatten;
    StackBounds(hs, nodes);
  }

  /** Bytes represent at most one sane receiver. */
  lemma OneReceiver(b: seq<byte>, nodes: seq<Node>, back: seq<Node>)
    requires Sane(nodes) && Represents(b, nodes) && Sane(back) && Represents(b, back)
    ensures back == nodes
  {
    hide NodesBytes;
    if b != [] {
      Body(b, nodes);
      Body(b, back);
      OneReading(nodes, back);
    }
  }

  /** Saving a receiver and loading it again never fails and changes nothing. */
  method SaveAndRestore(receiver: ElkremReceiver) returns (restored: Option<seq<Node>>)
    requires receiver.Valid() && |receiver.Hashes()| <= MAX_INDEX + 1
    ensures restored == Some(receiver.nodes)
  {
    hide NodesBytes, WellFormed, Flatten, Sane, Represents;
    Storable(receiver.hs, receiver.nodes);
    var b := ToBytes(receiver.nodes);
    restored := FromBytes(b.value);
    OneReceiver(b.value, receiver.nodes, restored.value);
  }
}
