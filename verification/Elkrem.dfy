/** The indices of elkrem hashes, shared with the channels that use them. */
module ElkremRange {
  /** Largest index an elkrem sender can derive, 2^48 - 2. */
  const MAX_INDEX: nat := 0xFFFF_FFFF_FFFE
}

/** The elkrem tree (elkrem/elkrem.go): a sender that derives 2^48 - 1 hashes from
    one root, and a receiver that keeps all it was given in a stack of at most 48.

    The hashes are numbered in post-order, so a node of height h and index i stands
    for the 2^(h+1) - 1 hashes that end at i. */
module Elkrem {
  import opened Wrappers
  import opened Numbers
  import opened ElkremRange

  type Hash = s: seq<byte> | |s| == 32 witness seq(32, _ => 0 as byte)

  /** The two one-way functions that take a node to its children. */
  datatype Hasher = Hasher(left: Hash -> Hash, right: Hash -> Hash)

  datatype Node = Node(h: nat, i: nat, sha: Hash)

  const MAX_HEIGHT: nat := 47
  const TWO_64: nat := 0x1_0000_0000_0000_0000

  /** How many nodes a tree of height h has. */
  function Size(h: nat): (r: nat)
    ensures r > 0
  {
    if h == 0 then 1 else 2 * Size(h - 1) + 1
  }

  /** 1 << h in 64 bits. */
  function Shift(h: nat): (r: nat)
    ensures r < TWO_64
  {
    if h >= 64 then 0 else ShiftBelow64(h)
  }

  function ShiftBelow64(h: nat): (r: nat)
    requires h < 64
    ensures h == 0 ==> r == 1
    ensures h > 0 ==> r == Size(h - 1) + 1
    ensures r < TWO_64
  {
    SizeBound(h);
    if h == 0 then 1 else Size(h - 1) + 1
  }

  /** Subtraction of unsigned 64-bit numbers, which wraps. */
  function Minus64(a: nat, b: nat): (r: nat)
    requires b < TWO_64
    ensures a >= b ==> r == a - b
  {
    if a >= b then a - b else a - b + TWO_64
  }

  /** Tree sizes, plus one, multiply. */
  lemma {:induction false} SizeSum(a: nat, b: nat)
    ensures Size(a + b + 1) + 1 == (Size(a) + 1) * (Size(b) + 1)
    decreases b
  {
    if b == 0 {
      assert Size(a + 1) == 2 * Size(a) + 1;
    } else {
      SizeSum(a, b - 1);
      assert Size(a + b + 1) == 2 * Size(a + b) + 1;
      TwiceProduct(Size(a) + 1, Size(b - 1) + 1);
    }
  }

  lemma TwiceProduct(x: nat, y: nat)
    ensures x * (2 * y) == 2 * (x * y)
  {}

  lemma BigSizes()
    ensures Size(47) == MAX_INDEX + 1
    ensures Size(46) == 0x7FFF_FFFF_FFFF
    ensures Size(62) == 0x7FFF_FFFF_FFFF_FFFF
    ensures Size(64) == 2 * TWO_64 - 1
  {
    hide Size;
    SmallSizes();
    SizeSum(2, 2);
    SizeSum(5, 5);
    SizeSum(11, 11);
    SizeSum(23, 23);
    SizeSum(2, 11);
    SizeSum(47, 14);
    SizeStep(46);
    SizeStep(62);
    SizeStep(63);
  }

  lemma SmallSizes()
    ensures Size(2) == 7
  {}

  lemma SizeStep(h: nat)
    ensures Size(h + 1) == 2 * Size(h) + 1
  {}

  lemma SizeBound(h: nat)
    requires h < 64
    ensures h > 0 ==> Size(h - 1) + 1 < TWO_64
  {
    BigSizes();
    if h > 0 { SizeGrows(h - 1, 62); }
  }

  lemma {:induction false} SizeGrows(a: nat, b: nat)
    requires a <= b
    ensures Size(a) <= Size(b)
    ensures a < b ==> Size(a) < Size(b)
    decreases b
  {
    if a < b { SizeGrows(a, b - 1); }
  }

  /** All the hashes of a tree, in post-order. */
  function PostOrder(hs: Hasher, h: nat, sha: Hash): (r: seq<Hash>)
    ensures |r| == Size(h)
    ensures r[|r| - 1] == sha
  {
    if h == 0 then [sha]
    else PostOrder(hs, h - 1, hs.left(sha)) + PostOrder(hs, h - 1, hs.right(sha)) + [sha]
  }

  // ---------------------------------------------------------------- descent

  /** The hash with index w, sought below the node of index i and height h. */
  function Descent(hs: Hasher, w: nat, i: nat, h: nat, sha: Hash): Option<Hash>
    decreases h
  {
    if w >= i then (if w == i then Some(sha) else None)
    else
      var left := w <= Minus64(i, Shift(h));
      var child := if left then hs.left(sha) else hs.right(sha);
      var at := if left then Minus64(i, Shift(h)) else i - 1;
      if h == 0 then (if w == at then Some(child) else None)
      else Descent(hs, w, at, h - 1, child)
  }

  method Descend(hs: Hasher, want: nat, index: nat, height: nat, hash: Hash) returns (r: Option<Hash>)
    ensures r == Descent(hs, want, index, height, hash)
  {
    var i, h, sha := index, height, hash;
    while want < i
      invariant Descent(hs, want, i, h, sha) == Descent(hs, want, index, height, hash)
      decreases h
    {
      if want <= Minus64(i, Shift(h)) {
        sha := hs.left(sha);
        i := Minus64(i, Shift(h));
      } else {
        sha := hs.right(sha);
        i := i - 1;
      }
      if h == 0 {
        break;
      }
      h := h - 1;
    }
    if want != i {
      return None;
    }
    r := Some(sha);
  }

  lemma ShiftIs(h: nat)
    requires h < 64
    ensures Shift(h) == if h == 0 then 1 else Size(h - 1) + 1
  {}

  /** Descent from a node finds exactly the hashes of its tree.  It also returns a
      hash for the index just before the tree, and fails for every other index. */
  lemma {:induction false} DescentExact(hs: Hasher, w: nat, i: nat, h: nat, sha: Hash)
    requires h < 64 && Size(h) <= i + 1
    ensures var first := i + 1 - Size(h);
      && (first <= w <= i ==> Descent(hs, w, i, h, sha) == Some(PostOrder(hs, h, sha)[w - first]))
      && (Descent(hs, w, i, h, sha).Some? <==> first - 1 <= w <= i)
    decreases h
  {
    hide Shift, Minus64, PostOrder;
    ShiftIs(h);
    if w < i && h > 0 {
      var leftEnd, first := i - 1 - Size(h - 1), i + 1 - Size(h);
      if first <= w { PostOrderParts(hs, h, sha, w - first); }
      if w <= leftEnd {
        DescentExact(hs, w, leftEnd, h - 1, hs.left(sha));
      } else {
        DescentExact(hs, w, i - 1, h - 1, hs.right(sha));
      }
    }
  }

  // ----------------------------------------------------------------- sender

  /** Every hash a sender can give out, in order. */
  function Sequence(hs: Hasher, root: Hash): (r: seq<Hash>)
    ensures |r| == MAX_INDEX + 1
  {
    BigSizes();
    PostOrder(hs, MAX_HEIGHT, root)
  }

  class ElkremSender {
    const hs: Hasher
    const root: Hash

    constructor (hs: Hasher, root: Hash)
      ensures this.hs == hs && this.root == root
    {
      this.hs, this.root := hs, root;
    }

    method AtIndex(w: nat) returns (r: Option<Hash>)
      ensures r == if w <= MAX_INDEX then Some(Sequence(hs, root)[w]) else None
    {
      BigSizes();
      DescentExact(hs, w, MAX_INDEX, MAX_HEIGHT, root);
      r := Descend(hs, w, MAX_INDEX, MAX_HEIGHT, root);
    }
  }

  // --------------------------------------------------------------- receiver

  /** Every hash a stack stands for, oldest first. */
  function Flatten(hs: Hasher, nodes: seq<Node>): seq<Hash> {
    if nodes == [] then []
    else
      var last := nodes[|nodes| - 1];
      Flatten(hs, nodes[..|nodes| - 1]) + PostOrder(hs, last.h, last.sha)
  }

  /** Each node carries the index of the last hash it stands for. */
  ghost predicate Numbered(hs: Hasher, nodes: seq<Node>) {
    forall k :: 0 <= k < |nodes| ==> nodes[k].i + 1 == |Flatten(hs, nodes[..k + 1])|
  }

  /** Heights go down; only the two on top may be equal. */
  predicate Descending(nodes: seq<Node>) {
    && (forall k :: 0 <= k < |nodes| - 2 ==> nodes[k].h > nodes[k + 1].h)
    && (|nodes| >= 2 ==> nodes[|nodes| - 2].h >= nodes[|nodes| - 1].h)
  }

  ghost predicate WellFormed(hs: Hasher, nodes: seq<Node>) {
    Numbered(hs, nodes) && Descending(nodes)
  }

  /** Are the top two nodes the children of the hash that comes next? */
  predicate Pair(nodes: seq<Node>) {
    |nodes| >= 2 && nodes[|nodes| - 2].h == nodes[|nodes| - 1].h
  }

  function NextIndex(nodes: seq<Node>): nat {
    if nodes == [] then 0 else nodes[|nodes| - 1].i + 1
  }

  /** The stack after one more hash, unless the hash is not the parent it has to be. */
  function Added(hs: Hasher, nodes: seq<Node>, sha: Hash): Option<seq<Node>> {
    var t := |nodes| - 1;
    if Pair(nodes)
    then
      if nodes[t - 1].sha != hs.left(sha) || nodes[t].sha != hs.right(sha) then None
      else Some(nodes[..t - 1] + [Node(nodes[t].h + 1, NextIndex(nodes), sha)])
    else Some(nodes + [Node(0, NextIndex(nodes), sha)])
  }

  /** The hash at index w, by way of the first node that reaches it. */
  function Lookup(hs: Hasher, nodes: seq<Node>, w: nat): Option<Hash> {
    if nodes == [] then None
    else if w <= nodes[0].i then Descent(hs, w, nodes[0].i, nodes[0].h, nodes[0].sha)
    else Lookup(hs, nodes[1..], w)
  }

  class ElkremReceiver {
    const hs: Hasher
    var nodes: seq<Node>

    ghost predicate Valid()
      reads this
    {
      WellFormed(hs, nodes) && |Hashes()| <= TWO_64
    }

    /** The abstract value: the list of every hash accepted so far. */
    ghost function Hashes(): seq<Hash>
      reads this
    {
      Flatten(hs, nodes)
    }

    constructor (hs: Hasher)
      ensures this.hs == hs && Valid() && Hashes() == []
    {
      this.hs, nodes := hs, [];
    }

    /** Take in the next hash.  The index is 64 bits wide. */
    method AddNext(sha: Hash) returns (ok: bool)
      requires Valid() && |Hashes()| < TWO_64
      modifies this
      ensures Valid()
      ensures ok == Added(hs, old(nodes), sha).Some?
      ensures nodes == if ok then Added(hs, old(nodes), sha).value else old(nodes)
      ensures Hashes() == old(Hashes()) + if ok then [sha] else []
    {
      hide Flatten, WellFormed;
      AddedKeeps(hs, nodes, sha);
      var height, index := 0, 0;
      var t := |nodes| - 1;
      if t >= 0 {
        index := nodes[t].i + 1;
      }
      if t > 0 && nodes[t - 1].h == nodes[t].h {
        height := nodes[t].h + 1;
        var l := hs.left(sha);
        var r := hs.right(sha);
        if nodes[t - 1].sha != l {
          return false;
        }
        if nodes[t].sha != r {
          return false;
        }
        nodes := nodes[..|nodes| - 2];
      }
      nodes := nodes + [Node(height, index, sha)];
      ok := true;
    }

    method AtIndex(w: nat) returns (r: Option<Hash>)
      ensures r == Lookup(hs, nodes, w)
      ensures Valid() ==> r == if w < |Hashes()| then Some(Hashes()[w]) else None
    {
      if Valid() { LookupRefines(hs, nodes, w); }
      for k := 0 to |nodes|
        invariant Lookup(hs, nodes, w) == Lookup(hs, nodes[k..], w)
      {
        if w <= nodes[k].i {
          r := Descend(hs, w, nodes[k].i, nodes[k].h, nodes[k].sha);
          return;
        }
        assert nodes[k..][1..] == nodes[k + 1..];
      }
      r := None;
    }

    method UpTo() returns (r: nat)
      ensures nodes == [] ==> r == 0
      ensures Valid() && nodes != [] ==> r + 1 == |Hashes()|
    {
      if |nodes| < 1 {
        return 0;
      }
      assert nodes[..|nodes|] == nodes;
      r := nodes[|nodes| - 1].i;
    }
  }

  // ------------------------------------------- the stack refines the list

  lemma FlattenPush(hs: Hasher, nodes: seq<Node>, n: Node)
    ensures Flatten(hs, nodes + [n]) == Flatten(hs, nodes) + PostOrder(hs, n.h, n.sha)
  {
    assert (nodes + [n])[..|nodes|] == nodes;
  }

  lemma NumberedPush(hs: Hasher, nodes: seq<Node>, n: Node)
    requires Numbered(hs, nodes) && n.i + 1 == |Flatten(hs, nodes + [n])|
    ensures Numbered(hs, nodes + [n])
  {
    forall k | 0 <= k < |nodes| + 1 ensures (nodes + [n])[k].i + 1 == |Flatten(hs, (nodes + [n])[..k + 1])| {
      assert (nodes + [n])[..k + 1] == if k < |nodes| then nodes[..k + 1] else nodes + [n];
    }
  }

  lemma NumberedPrefix(hs: Hasher, nodes: seq<Node>, k: nat)
    requires k <= |nodes| && Numbered(hs, nodes)
    ensures Numbered(hs, nodes[..k])
  {
    forall j | 0 <= j < k ensures nodes[..k][j].i + 1 == |Flatten(hs, nodes[..k][..j + 1])| {
      assert nodes[..k][..j + 1] == nodes[..j + 1];
    }
  }

  lemma NextIsLength(hs: Hasher, nodes: seq<Node>)
    requires Numbered(hs, nodes)
    ensures NextIndex(nodes) == |Flatten(hs, nodes)|
  {
    if nodes != [] { assert nodes[..|nodes|] == nodes; }
  }

  /** A hash that is accepted is appended to the list, and the stack stays well formed. */
  lemma AddedKeeps(hs: Hasher, nodes: seq<Node>, sha: Hash)
    requires WellFormed(hs, nodes)
    ensures var r := Added(hs, nodes, sha);
      r.Some? ==> WellFormed(hs, r.value) && Flatten(hs, r.value) == Flatten(hs, nodes) + [sha]
  {
    NextIsLength(hs, nodes);
    if !Pair(nodes) {
      var n := Node(0, NextIndex(nodes), sha);
      FlattenPush(hs, nodes, n);
      NumberedPush(hs, nodes, n);
    } else if Added(hs, nodes, sha).Some? {
      MergeKeeps(hs, nodes, sha);
    }
  }

  lemma MergeKeeps(hs: Hasher, nodes: seq<Node>, sha: Hash)
    requires WellFormed(hs, nodes) && Pair(nodes) && Added(hs, nodes, sha).Some?
    requires NextIndex(nodes) == |Flatten(hs, nodes)|
    ensures var r := Added(hs, nodes, sha).value;
      WellFormed(hs, r) && Flatten(hs, r) == Flatten(hs, nodes) + [sha]
  {
    hide Flatten, Numbered;
    var t := |nodes| - 1;
    var rest := nodes[..t - 1];
    var n := Node(nodes[t].h + 1, NextIndex(nodes), sha);
    MergeFlattens(hs, rest, nodes[t - 1], nodes[t], n);
    assert nodes == rest + [nodes[t - 1], nodes[t]];
    NumberedPrefix(hs, nodes, t - 1);
    NumberedPush(hs, rest, n);
  }

  /** Replacing two children by their parent adds the parent to the list. */
  lemma MergeFlattens(hs: Hasher, rest: seq<Node>, l: Node, r: Node, n: Node)
    requires l.h == r.h && n.h == l.h + 1 && l.sha == hs.left(n.sha) && r.sha == hs.right(n.sha)
    ensures Flatten(hs, rest + [n]) == Flatten(hs, rest + [l, r]) + [n.sha]
  {
    hide Flatten;
    assert rest + [l, r] == (rest + [l]) + [r];
    FlattenPush(hs, rest + [l], r);
    FlattenPush(hs, rest, l);
    FlattenPush(hs, rest, n);
  }

  /** The hashes of a prefix of the stack are a prefix of the hashes. */
  lemma {:induction false} FlattenSplit(hs: Hasher, nodes: seq<Node>, k: nat)
    requires k <= |nodes|
    ensures Flatten(hs, nodes) == Flatten(hs, nodes[..k]) + Flatten(hs, nodes[k..])
    decreases |nodes| - k
  {
    hide PostOrder, Flatten;
    if k < |nodes| {
      var m := |nodes| - 1;
      FlattenSplit(hs, nodes[..m], k);
      assert nodes[..m][..k] == nodes[..k];
      assert nodes == nodes[..m] + [nodes[m]];
      assert nodes[k..] == nodes[..m][k..] + [nodes[m]];
      FlattenPush(hs, nodes[..m], nodes[m]);
      FlattenPush(hs, nodes[..m][k..], nodes[m]);
    } else {
      assert nodes[..k] == nodes;
      FlattenNone(hs, nodes[k..]);
    }
  }

  lemma FlattenNone(hs: Hasher, nodes: seq<Node>)
    requires nodes == []
    ensures Flatten(hs, nodes) == []
  {}

  lemma LookupAt(hs: Hasher, nodes: seq<Node>, k: nat, w: nat)
    requires k < |nodes| && w <= nodes[k].i
    requires forall j :: 0 <= j < k ==> w > nodes[j].i
    ensures Lookup(hs, nodes, w) == Descent(hs, w, nodes[k].i, nodes[k].h, nodes[k].sha)
  {
    if k > 0 { LookupAt(hs, nodes[1..], k - 1, w); }
  }

  lemma LookupBeyond(hs: Hasher, nodes: seq<Node>, w: nat)
    requires forall j :: 0 <= j < |nodes| ==> w > nodes[j].i
    ensures Lookup(hs, nodes, w).None?
  {}

  lemma {:induction false} FirstReaching(nodes: seq<Node>, w: nat, n: nat) returns (k: nat)
    requires n < |nodes| && w <= nodes[n].i
    ensures k <= n && w <= nodes[k].i && forall j :: 0 <= j < k ==> w > nodes[j].i
    decreases n
  {
    if j :| 0 <= j < n && w <= nodes[j].i { k := FirstReaching(nodes, w, j); } else { k := n; }
  }

  /** The k-th node of the stack and the hashes it stands for. */
  lemma NodeHashes(hs: Hasher, nodes: seq<Node>, k: nat)
    requires Numbered(hs, nodes) && k < |nodes|
    ensures var n := nodes[k]; var all := Flatten(hs, nodes);
      && Size(n.h) <= n.i + 1 <= |all|
      && all[n.i + 1 - Size(n.h)..n.i + 1] == PostOrder(hs, n.h, n.sha)
      && (n.i + 1 - Size(n.h) == if k == 0 then 0 else nodes[k - 1].i + 1)
  {
    hide PostOrder, Flatten, Size;
    NodeSplit(hs, nodes, k);
    Between(Flatten(hs, nodes[..k]), PostOrder(hs, nodes[k].h, nodes[k].sha), Flatten(hs, nodes[k + 1..]));
    if k == 0 { FlattenNone(hs, nodes[..0]); } else { assert nodes[..k] == nodes[..k - 1 + 1]; }
  }

  lemma NodeSplit(hs: Hasher, nodes: seq<Node>, k: nat)
    requires k < |nodes|
    ensures Flatten(hs, nodes[..k + 1]) == Flatten(hs, nodes[..k]) + PostOrder(hs, nodes[k].h, nodes[k].sha)
    ensures Flatten(hs, nodes)
         == Flatten(hs, nodes[..k]) + PostOrder(hs, nodes[k].h, nodes[k].sha) + Flatten(hs, nodes[k + 1..])
  {
    hide PostOrder, Flatten, Size;
    FlattenPush(hs, nodes[..k], nodes[k]);
    assert nodes[..k + 1] == nodes[..k] + [nodes[k]];
    FlattenSplit(hs, nodes, k + 1);
  }

  lemma Between(a: seq<Hash>, b: seq<Hash>, c: seq<Hash>)
    ensures (a + b + c)[|a|..|a| + |b|] == b
  {}

  /** AtIndex gives back exactly the w-th hash accepted, for every w. */
  lemma LookupRefines(hs: Hasher, nodes: seq<Node>, w: nat)
    requires WellFormed(hs, nodes) && |Flatten(hs, nodes)| <= TWO_64
    ensures var all := Flatten(hs, nodes);
      Lookup(hs, nodes, w) == if w < |all| then Some(all[w]) else None
  {
    hide PostOrder, Flatten, Descent, Lookup;
    var all := Flatten(hs, nodes);
    NextIsLength(hs, nodes);
    if w < |all| {
      var k := FirstReaching(nodes, w, |nodes| - 1);
      LookupAt(hs, nodes, k, w);
      NodeHashes(hs, nodes, k);
      var n := nodes[k];
      var first := n.i + 1 - Size(n.h);
      HeightBelow64(n.h, n.i);
      DescentExact(hs, w, n.i, n.h, n.sha);
      assert all[w] == all[first..n.i + 1][w - first];
    } else {
      forall k | 0 <= k < |nodes| ensures w > nodes[k].i {
        NodeHashes(hs, nodes, k);
      }
      LookupBeyond(hs, nodes, w);
    }
  }

  lemma HeightBelow64(h: nat, i: nat)
    requires Size(h) <= i + 1 <= TWO_64
    ensures h < 64
  {
    BigSizes();
    if h >= 64 { SizeGrows(64, h); }
  }

  // ----------------------------------------------------- how big the stack gets

  /** With at most 2^48 - 1 hashes the stack never holds more than 48 nodes, and
      none is higher than 47. */
  lemma StackBounds(hs: Hasher, nodes: seq<Node>)
    requires WellFormed(hs, nodes) && |Flatten(hs, nodes)| <= MAX_INDEX + 1
    ensures |nodes| <= MAX_HEIGHT + 1
    ensures forall n <- nodes :: n.h <= MAX_HEIGHT && n.i <= MAX_INDEX
    ensures forall k :: 0 < k < |nodes| ==> nodes[k - 1].h >= nodes[k].h
  {
    hide Flatten, Size;
    BigSizes();
    forall k | 0 <= k < |nodes| ensures nodes[k].h <= MAX_HEIGHT && nodes[k].i <= MAX_INDEX {
      NodeHashes(hs, nodes, k);
      if nodes[k].h > MAX_HEIGHT { SizeGrows(MAX_HEIGHT, nodes[k].h); }
    }
    if |nodes| > MAX_HEIGHT + 1 {
      HeightsDrop(nodes, 0);
      NodeHashes(hs, nodes, 0);
      SizeGrows(MAX_HEIGHT, nodes[0].h);
      NodeHashes(hs, nodes, 1);
      SizePositive(nodes[1].h);
    }
  }

  lemma SizePositive(h: nat)
    ensures Size(h) > 0
  {}

  lemma {:induction false} HeightsDrop(nodes: seq<Node>, k: nat)
    requires Descending(nodes) && k + 2 <= |nodes|
    ensures nodes[k].h >= |nodes| - 2 - k
    decreases |nodes| - k
  {
    if k + 2 < |nodes| { HeightsDrop(nodes, k + 1); }
  }

  // ------------------------------------------------------- an honest sender

  /** The stack after the first n hashes of a tree whose first index is base. */
  function StackFor(hs: Hasher, base: nat, h: nat, sha: Hash, n: nat): seq<Node>
    requires n <= Size(h)
    decreases h
  {
    if n == 0 then []
    else if n == Size(h) then [Node(h, base + n - 1, sha)]
    else
      var half := Size(h - 1);
      if n <= half then StackFor(hs, base, h - 1, hs.left(sha), n)
      else [Node(h - 1, base + half - 1, hs.left(sha))] + StackFor(hs, base + half, h - 1, hs.right(sha), n - half)
  }

  /** All nodes of the stack are at least this high, and no two are equally high. */
  predicate Above(nodes: seq<Node>, h: nat) {
    && (forall k :: 0 <= k < |nodes| ==> nodes[k].h >= h)
    && !Pair(nodes)
  }

  /** Inside a tree, on top of higher ones, the sender's next hash is accepted. */
  lemma {:induction false} NextFits(hs: Hasher, below: seq<Node>, base: nat, h: nat, sha: Hash, n: nat)
    requires Above(below, h) && NextIndex(below) == base && n < Size(h)
    ensures Added(hs, below + StackFor(hs, base, h, sha, n), PostOrder(hs, h, sha)[n])
         == Some(below + StackFor(hs, base, h, sha, n + 1))
    decreases h
  {
    hide Added, PostOrder, StackFor, Above;
    Unpaired(below, h);
    if h == 0 {
      LeafFits(hs, below, base, sha);
    } else {
      var half := Size(h - 1);
      var l, r := hs.left(sha), hs.right(sha);
      if n < 2 * half { PostOrderParts(hs, h, sha, n); }
      if n < half {
        LowerAbove(below, h);
        NextFits(hs, below, base, h - 1, l, n);
        LeftStack(hs, base, h, sha, n);
        LeftStack(hs, base, h, sha, n + 1);
      } else if n < 2 * half {
        var first := Node(h - 1, base + half - 1, l);
        AboveWith(below, h, first);
        NextFits(hs, below + [first], base + half, h - 1, r, n - half);
        RightStack(hs, below, base, h, sha, n);
        RightStack(hs, below, base, h, sha, n + 1);
      } else {
        ParentFits(hs, below, base, h, sha);
      }
    }
  }

  lemma Unpaired(below: seq<Node>, h: nat)
    requires Above(below, h)
    ensures !Pair(below)
  {}

  lemma LowerAbove(below: seq<Node>, h: nat)
    requires h > 0 && Above(below, h)
    ensures Above(below, h - 1)
  {}

  lemma PostOrderParts(hs: Hasher, h: nat, sha: Hash, n: nat)
    requires h > 0 && n < 2 * Size(h - 1)
    ensures n < Size(h)
    ensures n < Size(h - 1) ==> PostOrder(hs, h, sha)[n] == PostOrder(hs, h - 1, hs.left(sha))[n]
    ensures n >= Size(h - 1) ==> PostOrder(hs, h, sha)[n] == PostOrder(hs, h - 1, hs.right(sha))[n - Size(h - 1)]
  {}

  lemma LeftStack(hs: Hasher, base: nat, h: nat, sha: Hash, n: nat)
    requires h > 0 && n <= Size(h - 1)
    ensures n < Size(h)
    ensures StackFor(hs, base, h, sha, n) == StackFor(hs, base, h - 1, hs.left(sha), n)
  {}

  lemma LeafFits(hs: Hasher, below: seq<Node>, base: nat, sha: Hash)
    requires !Pair(below) && NextIndex(below) == base
    ensures Added(hs, below + StackFor(hs, base, 0, sha, 0), PostOrder(hs, 0, sha)[0])
         == Some(below + StackFor(hs, base, 0, sha, 1))
  {
    assert below + [] == below;
  }

  lemma AboveWith(below: seq<Node>, h: nat, n: Node)
    requires Above(below, h) && h == n.h + 1
    ensures Above(below + [n], n.h)
  {}

  lemma RightStack(hs: Hasher, below: seq<Node>, base: nat, h: nat, sha: Hash, n: nat)
    requires h > 0 && Size(h - 1) <= n < Size(h)
    ensures var first := Node(h - 1, base + Size(h - 1) - 1, hs.left(sha));
      below + StackFor(hs, base, h, sha, n)
        == (below + [first]) + StackFor(hs, base + Size(h - 1), h - 1, hs.right(sha), n - Size(h - 1))
  {}

  lemma ParentFits(hs: Hasher, below: seq<Node>, base: nat, h: nat, sha: Hash)
    requires h > 0
    ensures Added(hs, below + StackFor(hs, base, h, sha, Size(h) - 1), PostOrder(hs, h, sha)[Size(h) - 1])
         == Some(below + StackFor(hs, base, h, sha, Size(h)))
  {
    var half := Size(h - 1);
    var first := Node(h - 1, base + half - 1, hs.left(sha));
    var second := Node(h - 1, base + 2 * half - 1, hs.right(sha));
    RightStack(hs, below, base, h, sha, 2 * half);
    var nodes := (below + [first]) + [second];
    assert nodes[..|nodes| - 2] == below;
  }

  /** The stack after receiving a list of hashes, or None once one is rejected. */
  function ReceiveAll(hs: Hasher, hashes: seq<Hash>): Option<seq<Node>> {
    if hashes == [] then Some([])
    else
      var before := ReceiveAll(hs, hashes[..|hashes| - 1]);
      if before.None? then None else Added(hs, before.value, hashes[|hashes| - 1])
  }

  /** For any list of hashes a receiver accepts, from an honest sender or not, it can
      give back each of them by index and nothing else. */
  lemma {:induction false} ReceivedIsKept(hs: Hasher, hashes: seq<Hash>, w: nat)
    requires ReceiveAll(hs, hashes).Some? && |hashes| <= TWO_64
    ensures var nodes := ReceiveAll(hs, hashes).value;
      Lookup(hs, nodes, w) == if w < |hashes| then Some(hashes[w]) else None
  {
    ReceivedFlattens(hs, hashes);
    LookupRefines(hs, ReceiveAll(hs, hashes).value, w);
  }

  lemma {:induction false} ReceivedFlattens(hs: Hasher, hashes: seq<Hash>)
    requires ReceiveAll(hs, hashes).Some?
    ensures var nodes := ReceiveAll(hs, hashes).value;
      WellFormed(hs, nodes) && Flatten(hs, nodes) == hashes
    decreases |hashes|
  {
    hide Added, WellFormed, Flatten;
    if hashes == [] {
      NothingReceived(hs);
    } else {
      ReceivedFlattens(hs, hashes[..|hashes| - 1]);
      AddedKeeps(hs, ReceiveAll(hs, hashes[..|hashes| - 1]).value, hashes[|hashes| - 1]);
    }
  }

  lemma NothingReceived(hs: Hasher)
    ensures WellFormed(hs, []) && Flatten(hs, []) == []
  {}

  /** No hash of an honest sender is ever rejected, over the whole index range, and
      the receiver then holds at most 48 nodes. */
  lemma {:induction false} HonestAccepted(hs: Hasher, root: Hash, n: nat)
    requires n <= MAX_INDEX + 1
    ensures ReceiveAll(hs, Sequence(hs, root)[..n]).Some?
    ensures |ReceiveAll(hs, Sequence(hs, root)[..n]).value| <= MAX_HEIGHT + 1
  {
    BigSizes();
    HonestStack(hs, root, n);
    ReceivedFlattens(hs, Sequence(hs, root)[..n]);
    StackBounds(hs, ReceiveAll(hs, Sequence(hs, root)[..n]).value);
  }

  lemma {:induction false} HonestStack(hs: Hasher, root: Hash, n: nat)
    requires n <= Size(MAX_HEIGHT)
    ensures var all := PostOrder(hs, MAX_HEIGHT, root);
      ReceiveAll(hs, all[..n]) == Some(StackFor(hs, 0, MAX_HEIGHT, root, n))
    decreases n
  {
    hide PostOrder, StackFor, Size, Added;
    var all := PostOrder(hs, MAX_HEIGHT, root);
    if n == 0 {
      NoStack(hs, root);
    } else {
      HonestStack(hs, root, n - 1);
      assert all[..n][..n - 1] == all[..n - 1];
      NextFits(hs, [], 0, MAX_HEIGHT, root, n - 1);
      assert [] + StackFor(hs, 0, MAX_HEIGHT, root, n - 1) == StackFor(hs, 0, MAX_HEIGHT, root, n - 1);
      assert [] + StackFor(hs, 0, MAX_HEIGHT, root, n) == StackFor(hs, 0, MAX_HEIGHT, root, n);
    }
  }

  lemma NoStack(hs: Hasher, root: Hash)
    ensures StackFor(hs, 0, MAX_HEIGHT, root, 0) == []
  {}
}
