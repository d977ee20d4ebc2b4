/**
 Sorted-pair Merkle trees over an arbitrary 32-byte hash function: the root
 generator and the path generator, proved complete, sound and binding.
 */
module Merkle {
  import opened Prelude

  newtype byte = x: int | 0 <= x < 256

  type Bytes = seq<byte>
  type Digest = d: Bytes | |d| == 32 witness seq(32, _ => 0 as byte)

  /** The hash is a parameter: nothing about it is assumed. */
  type Hash = Bytes -> Digest

  datatype TreeError = ErrorGeneratingRoot | EmptyLeaves

  // ---------------------------------------------------------------- sorted pairs

  /** Lexicographic byte order, the order the digests are compared in. */
  predicate LexLe(a: Bytes, b: Bytes) {
    a == [] || (b != [] && (a[0] < b[0] || (a[0] == b[0] && LexLe(a[1..], b[1..]))))
  }

  function SortAndConcatenatePair(left: Digest, right: Digest): (r: Bytes)
    ensures |r| == 64
  {
    if LexLe(left, right) then left + right else right + left
  }

  lemma {:induction false} LexLeTotal(a: Bytes, b: Bytes)
    ensures LexLe(a, b) || LexLe(b, a)
  {
    if a != [] && b != [] {
      LexLeTotal(a[1..], b[1..]);
    }
  }

  lemma {:induction false} LexLeAntisymmetric(a: Bytes, b: Bytes)
    requires LexLe(a, b) && LexLe(b, a)
    ensures a == b
  {
    if a != [] {
      LexLeAntisymmetric(a[1..], b[1..]);
      assert a == [a[0]] + a[1..] && b == [b[0]] + b[1..];
    }
  }

  /** The first byte in which two strings of one length differ decides. */
  ghost predicate FirstDifference(a: Bytes, b: Bytes, k: nat) {
    k < |a| && k < |b| && a[..k] == b[..k] && a[k] < b[k]
  }

  lemma {:induction false} LexLeIsByteOrder(a: Bytes, b: Bytes)
    requires |a| == |b|
    ensures LexLe(a, b) <==> a == b || exists k: nat :: FirstDifference(a, b, k)
    decreases |a|
  {
    if a != [] {
      var a', b' := a[1..], b[1..];
      LexLeIsByteOrder(a', b');
      assert a == [a[0]] + a' && b == [b[0]] + b';
      if a[0] == b[0] {
        forall k: nat ensures FirstDifference(a', b', k) <==> FirstDifference(a, b, k + 1) {
          if k < |a'| {
            assert a[..k + 1] == [a[0]] + a'[..k] && b[..k + 1] == [b[0]] + b'[..k];
            assert a[..k + 1][1..] == a'[..k] && b[..k + 1][1..] == b'[..k];
          }
        }
        SameFirstByte(a, b);
      } else if a[0] < b[0] {
        assert FirstDifference(a, b, 0);
      } else {
        forall k: nat ensures !FirstDifference(a, b, k) {
          assert 0 < k <= |a| && k <= |b| ==> a[..k][0] != b[..k][0];
        }
      }
    }
  }

  lemma SameFirstByte(a: Bytes, b: Bytes)
    requires |a| == |b| > 0 && a[0] == b[0]
    requires forall k: nat :: FirstDifference(a[1..], b[1..], k) <==> FirstDifference(a, b, k + 1)
    ensures (exists k: nat :: FirstDifference(a[1..], b[1..], k)) <==> exists k: nat :: FirstDifference(a, b, k)
  {
    if k: nat :| FirstDifference(a[1..], b[1..], k) {
      assert FirstDifference(a, b, k + 1);
    }
    if k: nat :| FirstDifference(a, b, k) {
      var m: nat := k - 1;
      assert FirstDifference(a, b, m + 1);
      assert FirstDifference(a[1..], b[1..], m);
    }
  }

  /** A pair is the lesser digest, then the greater. */
  lemma PairIsSorted(a: Digest, b: Digest)
    ensures var r := SortAndConcatenatePair(a, b);
            && LexLe(r[..32], r[32..]) && multiset{r[..32], r[32..]} == multiset{a, b}
  {
    LexLeTotal(a, b);
    var r := SortAndConcatenatePair(a, b);
    assert (r[..32] == a && r[32..] == b) || (r[..32] == b && r[32..] == a);
  }

  /** The order of the two children is forgotten... */
  lemma PairSymmetric(a: Digest, b: Digest)
    ensures SortAndConcatenatePair(a, b) == SortAndConcatenatePair(b, a)
  {
    LexLeTotal(a, b);
    if LexLe(a, b) && LexLe(b, a) {
      LexLeAntisymmetric(a, b);
    }
  }

  /** ...and nothing else is. */
  lemma PairInjective(a: Digest, b: Digest, c: Digest, d: Digest)
    requires SortAndConcatenatePair(a, b) == SortAndConcatenatePair(c, d)
    ensures (a == c && b == d) || (a == d && b == c)
  {
    var s, t := SortAndConcatenatePair(a, b), SortAndConcatenatePair(c, d);
    assert s[..32] == t[..32] && s[32..] == t[32..];
    assert (s[..32] == a && s[32..] == b) || (s[..32] == b && s[32..] == a);
    assert (t[..32] == c && t[32..] == d) || (t[..32] == d && t[32..] == c);
  }

  // ---------------------------------------------------------------- the root

  function LeafHashes(h: Hash, leaves: seq<Bytes>): (r: seq<Digest>)
    ensures |r| == |leaves|
    ensures forall i :: 0 <= i < |leaves| ==> r[i] == h(leaves[i])
  {
    seq(|leaves|, i requires 0 <= i < |leaves| => h(leaves[i]))
  }

  /** One level up: adjacent nodes are hashed in pairs, an odd last node moves up as it is. */
  ghost function PairUp(h: Hash, nodes: seq<Digest>): (r: seq<Digest>)
    ensures |r| == (|nodes| + 1) / 2
  {
    if |nodes| < 2 then nodes
    else [h(SortAndConcatenatePair(nodes[0], nodes[1]))] + PairUp(h, nodes[2..])
  }

  /** Node by node: the hash of the pair below, or the node that has no partner. */
  lemma {:induction false} PairUpAt(h: Hash, nodes: seq<Digest>, i: nat)
    requires 2 * i < |nodes|
    ensures PairUp(h, nodes)[i]
         == if 2 * i + 1 < |nodes| then h(SortAndConcatenatePair(nodes[2 * i], nodes[2 * i + 1])) else nodes[2 * i]
    decreases |nodes|
  {
    if i > 0 {
      PairUpAt(h, nodes[2..], i - 1);
    }
  }

  /** Levels are built until at most one node is left. */
  ghost function Reduce(h: Hash, nodes: seq<Digest>): (r: seq<Digest>)
    ensures |r| == if nodes == [] then 0 else 1
    decreases |nodes|
  {
    var up := PairUp(h, nodes);
    if |up| > 1 then Reduce(h, up) else up
  }

  ghost function Root(h: Hash, leaves: seq<Bytes>): Digest
    requires leaves != []
  {
    Reduce(h, LeafHashes(h, leaves))[0]
  }

  lemma PairUpStep(h: Hash, nodes: seq<Digest>, index: nat)
    requires 2 * index + 1 < |nodes|
    ensures PairUp(h, nodes[2 * index..])
         == [h(SortAndConcatenatePair(nodes[2 * index], nodes[2 * index + 1]))]
            + PairUp(h, nodes[2 * (index + 1)..])
  {
    assert nodes[2 * index..][2..] == nodes[2 * (index + 1)..];
  }

  lemma PairUpEnd(h: Hash, nodes: seq<Digest>)
    ensures PairUp(h, nodes[2 * (|nodes| / 2)..])
         == if |nodes| % 2 == 1 then [nodes[|nodes| - 1]] else []
  {
  }

  method ProcessNodesInPairs(h: Hash, nodes: seq<Digest>) returns (processed: seq<Digest>)
    ensures processed == PairUp(h, nodes)
  {
    processed := [];
    for index := 0 to |nodes| / 2
      invariant processed + PairUp(h, nodes[2 * index..]) == PairUp(h, nodes)
    {
      PairUpStep(h, nodes, index);
      var node := SortAndConcatenatePair(nodes[2 * index], nodes[2 * index + 1]);
      processed := processed + [h(node)];
    }
    PairUpEnd(h, nodes);
    if |nodes| % 2 == 1 {
      processed := processed + [nodes[|nodes| - 1]];
    }
  }

  method ProcessLevel(h: Hash, nodes: seq<Digest>) returns (processed: seq<Digest>)
    ensures processed == Reduce(h, nodes)
    decreases |nodes|
  {
    processed := ProcessNodesInPairs(h, nodes);
    if |processed| > 1 {
      processed := ProcessLevel(h, processed);
    }
  }

  method GenerateTreeRoot(h: Hash, leaves: seq<Bytes>) returns (r: Result<Digest, TreeError>)
    ensures leaves == [] ==> r == Err(ErrorGeneratingRoot)
    ensures leaves != [] ==> r == Ok(Root(h, leaves))
  {
    var rootNodes := ProcessLevel(h, LeafHashes(h, leaves));
    if |rootNodes| == 1 {
      return Ok(rootNodes[0]);
    }
    return Err(ErrorGeneratingRoot);
  }

  // ---------------------------------------------------------------- the path

  /** Where the branch of a leaf stands, and the siblings met on the way. */
  datatype Branch = Branch(node: Digest, siblings: seq<Digest>)

  /** A pair that holds the branch's node lifts the branch and adds the other node to the path. */
  function JoinPair(h: Hash, b: Branch, left: Digest, right: Digest): Branch {
    var up := h(SortAndConcatenatePair(left, right));
    if b.node == left then Branch(up, b.siblings + [right])
    else if b.node == right then Branch(up, b.siblings + [left])
    else b
  }

  ghost function ClimbLevel(h: Hash, b: Branch, nodes: seq<Digest>): Branch
    decreases |nodes|
  {
    if |nodes| < 2 then b
    else ClimbLevel(h, JoinPair(h, b, nodes[0], nodes[1]), nodes[2..])
  }

  ghost function Climb(h: Hash, b: Branch, nodes: seq<Digest>): Branch
    decreases |nodes|
  {
    var b' := ClimbLevel(h, b, nodes);
    var up := PairUp(h, nodes);
    if |up| > 1 then Climb(h, b', up) else b'
  }

  ghost function MerklePath(h: Hash, leaf: Bytes, leaves: seq<Bytes>): seq<Digest> {
    Climb(h, Branch(h(leaf), []), LeafHashes(h, leaves)).siblings
  }

  lemma ClimbLevelStep(h: Hash, b: Branch, nodes: seq<Digest>, index: nat)
    requires 2 * index + 1 < |nodes|
    ensures ClimbLevel(h, b, nodes[2 * index..])
         == ClimbLevel(h, JoinPair(h, b, nodes[2 * index], nodes[2 * index + 1]), nodes[2 * (index + 1)..])
  {
    assert nodes[2 * index..][2..] == nodes[2 * (index + 1)..];
  }

  method ProcessNodesInPairsForPath(h: Hash, branch: Branch, nodes: seq<Digest>)
    returns (branch': Branch, processed: seq<Digest>)
    ensures branch' == ClimbLevel(h, branch, nodes)
    ensures processed == PairUp(h, nodes)
  {
    branch', processed := branch, [];
    for index := 0 to |nodes| / 2
      invariant processed + PairUp(h, nodes[2 * index..]) == PairUp(h, nodes)
      invariant ClimbLevel(h, branch', nodes[2 * index..]) == ClimbLevel(h, branch, nodes)
    {
      var left, right := nodes[2 * index], nodes[2 * index + 1];
      PairUpStep(h, nodes, index);
      ClimbLevelStep(h, branch', nodes, index);
      branch' := JoinPair(h, branch', left, right);
      processed := processed + [h(SortAndConcatenatePair(left, right))];
    }
    PairUpEnd(h, nodes);
    if |nodes| % 2 == 1 {
      processed := processed + [nodes[|nodes| - 1]];
    }
  }

  method ProcessLevelForPath(h: Hash, branch: Branch, nodes: seq<Digest>)
    returns (branch': Branch, processed: seq<Digest>)
    ensures branch' == Climb(h, branch, nodes)
    ensures processed == Reduce(h, nodes)
    decreases |nodes|
  {
    branch', processed := ProcessNodesInPairsForPath(h, branch, nodes);
    if |processed| > 1 {
      branch', processed := ProcessLevelForPath(h, branch', processed);
    }
  }

  method GenerateMerklePath(h: Hash, leaf: Bytes, leaves: seq<Bytes>)
    returns (r: Result<seq<Digest>, TreeError>)
    ensures r == if leaf == [] || leaves == [] then Err(EmptyLeaves) else Ok(MerklePath(h, leaf, leaves))
    ensures r.Ok? && leaf in leaves ==> Fold(h, h(leaf), r.value) == Root(h, leaves)
  {
    if leaf == [] {
      return Err(EmptyLeaves);
    }
    if leaves == [] {
      return Err(EmptyLeaves);
    }
    var branch, _ := ProcessLevelForPath(h, Branch(h(leaf), []), LeafHashes(h, leaves));
    if leaf in leaves {
      Completeness(h, leaf, leaves);
    }
    return Ok(branch.siblings);
  }

  // ---------------------------------------------------------------- completeness

  /** How a verifier replays a path: hash the running node with each sibling in turn. */
  ghost function Fold(h: Hash, node: Digest, path: seq<Digest>): Digest {
    if path == [] then node
    else h(SortAndConcatenatePair(Fold(h, node, path[..|path| - 1]), path[|path| - 1]))
  }

  lemma JoinPairFolds(h: Hash, leaf: Digest, b: Branch, left: Digest, right: Digest)
    requires Fold(h, leaf, b.siblings) == b.node
    ensures var b' := JoinPair(h, b, left, right); Fold(h, leaf, b'.siblings) == b'.node
  {
    PairSymmetric(left, right);
    var b' := JoinPair(h, b, left, right);
    if b' != b {
      assert b'.siblings[..|b'.siblings| - 1] == b.siblings;
    }
  }

  /** A level keeps the branch folded, and keeps it on a node of the next level. */
  lemma {:induction false} ClimbLevelFolds(h: Hash, leaf: Digest, b: Branch, nodes: seq<Digest>)
    requires Fold(h, leaf, b.siblings) == b.node
    ensures var b' := ClimbLevel(h, b, nodes);
            && Fold(h, leaf, b'.siblings) == b'.node
            && (b'.node == b.node || b'.node in PairUp(h, nodes))
            && (b.node in nodes ==> b'.node in PairUp(h, nodes))
    decreases |nodes|
  {
    if |nodes| >= 2 {
      JoinPairFolds(h, leaf, b, nodes[0], nodes[1]);
      ClimbLevelFolds(h, leaf, JoinPair(h, b, nodes[0], nodes[1]), nodes[2..]);
      assert nodes == [nodes[0], nodes[1]] + nodes[2..];
    }
  }

  lemma {:induction false} ClimbFolds(h: Hash, leaf: Digest, b: Branch, nodes: seq<Digest>)
    requires Fold(h, leaf, b.siblings) == b.node
    requires b.node in nodes
    ensures Fold(h, leaf, Climb(h, b, nodes).siblings) == Reduce(h, nodes)[0]
    decreases |nodes|
  {
    ClimbLevelFolds(h, leaf, b, nodes);
    var up := PairUp(h, nodes);
    if |up| > 1 {
      ClimbFolds(h, leaf, ClimbLevel(h, b, nodes), up);
    }
  }

  /**
   For every hash function, the path generated for any leaf of the tree folds to
   the generated root: duplicates, odd levels and hash collisions included.
   */
  lemma Completeness(h: Hash, leaf: Bytes, leaves: seq<Bytes>)
    requires leaf in leaves
    ensures Fold(h, h(leaf), MerklePath(h, leaf, leaves)) == Root(h, leaves)
  {
    var hashes := LeafHashes(h, leaves);
    var i :| 0 <= i < |leaves| && leaves[i] == leaf;
    assert hashes[i] == h(leaf);
    ClimbFolds(h, h(leaf), Branch(h(leaf), []), hashes);
  }

  // ---------------------------------------------------------------- trees behind the levels

  datatype Tree = Leaf(data: Bytes) | Node(left: Tree, right: Tree)

  ghost function DigestOf(h: Hash, t: Tree): Digest {
    match t
    case Leaf(data) => h(data)
    case Node(l, r) => h(SortAndConcatenatePair(DigestOf(h, l), DigestOf(h, r)))
  }

  ghost function DataOf(t: Tree): multiset<Bytes> {
    match t
    case Leaf(data) => multiset{data}
    case Node(l, r) => DataOf(l) + DataOf(r)
  }

  /** Every byte string hashed while computing a tree's digest. */
  ghost function InputsOf(h: Hash, t: Tree): set<Bytes> {
    match t
    case Leaf(data) => {data}
    case Node(l, r) =>
      InputsOf(h, l) + InputsOf(h, r) + {SortAndConcatenatePair(DigestOf(h, l), DigestOf(h, r))}
  }

  ghost function Digests(h: Hash, ts: seq<Tree>): (r: seq<Digest>)
    ensures |r| == |ts|
    ensures forall i :: 0 <= i < |ts| ==> r[i] == DigestOf(h, ts[i])
  {
    seq(|ts|, i requires 0 <= i < |ts| => DigestOf(h, ts[i]))
  }

  ghost function ForestData(ts: seq<Tree>): multiset<Bytes> {
    if ts == [] then multiset{} else DataOf(ts[0]) + ForestData(ts[1..])
  }

  ghost predicate HashedWithin(h: Hash, ts: seq<Tree>, inputs: set<Bytes>) {
    forall t :: t in ts ==> InputsOf(h, t) <= inputs
  }

  ghost function PairTrees(ts: seq<Tree>): (r: seq<Tree>)
    ensures |r| == (|ts| + 1) / 2
  {
    if |ts| < 2 then ts else [Node(ts[0], ts[1])] + PairTrees(ts[2..])
  }

  /** The strings hashed on one level of the root generator. */
  ghost function PairInputs(nodes: seq<Digest>): set<Bytes> {
    if |nodes| < 2 then {}
    else {SortAndConcatenatePair(nodes[0], nodes[1])} + PairInputs(nodes[2..])
  }

  /** The strings hashed on all levels of the root generator. */
  ghost function LevelInputs(h: Hash, nodes: seq<Digest>): set<Bytes>
    decreases |nodes|
  {
    var up := PairUp(h, nodes);
    PairInputs(nodes) + if |up| > 1 then LevelInputs(h, up) else {}
  }

  /** Every byte string that generating the root of `leaves` hashes. */
  ghost function RunInputs(h: Hash, leaves: seq<Bytes>): set<Bytes> {
    Elements(leaves) + LevelInputs(h, LeafHashes(h, leaves))
  }

  lemma {:induction false} PairTreesMatchesLevel(h: Hash, ts: seq<Tree>, inputs: set<Bytes>)
    requires HashedWithin(h, ts, inputs)
    requires PairInputs(Digests(h, ts)) <= inputs
    ensures Digests(h, PairTrees(ts)) == PairUp(h, Digests(h, ts))
    ensures ForestData(PairTrees(ts)) == ForestData(ts)
    ensures HashedWithin(h, PairTrees(ts), inputs)
    decreases |ts|
  {
    if |ts| >= 2 {
      var ds, rest := Digests(h, ts), ts[2..];
      assert Digests(h, rest) == ds[2..];
      PairTreesMatchesLevel(h, rest, inputs);
      assert ts[1..][1..] == rest && ts[0] in ts && ts[1] in ts;
      var top := Node(ts[0], ts[1]);
      assert InputsOf(h, top) <= inputs;
      assert Digests(h, PairTrees(ts)) == [DigestOf(h, top)] + Digests(h, PairTrees(rest));
      assert PairTrees(ts)[1..] == PairTrees(rest);
    }
  }

  /** The tree whose digest the root generator computes. */
  ghost function Grow(ts: seq<Tree>): Tree
    requires ts != []
    decreases |ts|
  {
    var up := PairTrees(ts);
    if |up| > 1 then Grow(up) else up[0]
  }

  lemma {:induction false} GrowMatchesReduce(h: Hash, ts: seq<Tree>, inputs: set<Bytes>)
    requires ts != []
    requires HashedWithin(h, ts, inputs)
    requires LevelInputs(h, Digests(h, ts)) <= inputs
    ensures DigestOf(h, Grow(ts)) == Reduce(h, Digests(h, ts))[0]
    ensures DataOf(Grow(ts)) == ForestData(ts)
    ensures InputsOf(h, Grow(ts)) <= inputs
    decreases |ts|
  {
    PairTreesMatchesLevel(h, ts, inputs);
    var up := PairTrees(ts);
    if |up| > 1 {
      GrowMatchesReduce(h, up, inputs);
    } else {
      assert up == [up[0]] && ForestData(up) == DataOf(up[0]);
    }
  }

  ghost function LeafTrees(leaves: seq<Bytes>): (r: seq<Tree>)
    ensures |r| == |leaves|
    ensures forall i :: 0 <= i < |leaves| ==> r[i] == Leaf(leaves[i])
  {
    seq(|leaves|, i requires 0 <= i < |leaves| => Leaf(leaves[i]))
  }

  lemma {:induction false} LeafForestData(leaves: seq<Bytes>)
    ensures ForestData(LeafTrees(leaves)) == multiset(leaves)
  {
    if leaves != [] {
      LeafForestData(leaves[1..]);
      assert LeafTrees(leaves)[1..] == LeafTrees(leaves[1..]);
      assert multiset(leaves) == multiset{leaves[0]} + multiset(leaves[1..]) by {
        assert leaves == [leaves[0]] + leaves[1..];
      }
    }
  }

  ghost function TreeOf(leaves: seq<Bytes>): Tree
    requires leaves != []
  {
    Grow(LeafTrees(leaves))
  }

  /** The generated root is the digest of a tree holding exactly the given leaves. */
  lemma RootIsTreeDigest(h: Hash, leaves: seq<Bytes>)
    requires leaves != []
    ensures DigestOf(h, TreeOf(leaves)) == Root(h, leaves)
    ensures DataOf(TreeOf(leaves)) == multiset(leaves)
    ensures InputsOf(h, TreeOf(leaves)) <= RunInputs(h, leaves)
  {
    var ts := LeafTrees(leaves);
    assert Digests(h, ts) == LeafHashes(h, leaves);
    GrowMatchesReduce(h, ts, RunInputs(h, leaves));
    LeafForestData(leaves);
  }

  // ---------------------------------------------------------------- binding

  /** Two different strings, one from each set, with one digest. */
  ghost predicate Collide(h: Hash, xs: set<Bytes>, ys: set<Bytes>) {
    exists x, y :: x in xs && y in ys && x != y && h(x) == h(y)
  }

  ghost predicate NoPairSized(data: multiset<Bytes>) {
    forall d :: d in data ==> |d| != 64
  }

  lemma CollideMonotone(h: Hash, xs: set<Bytes>, ys: set<Bytes>, xs': set<Bytes>, ys': set<Bytes>)
    requires Collide(h, xs, ys) && xs <= xs' && ys <= ys'
    ensures Collide(h, xs', ys')
  {
    var x, y :| x in xs && y in ys && x != y && h(x) == h(y);
    assert x in xs' && y in ys';
  }

  lemma SameDigest(h: Hash, x: Bytes, y: Bytes, xs: set<Bytes>, ys: set<Bytes>)
    requires x in xs && y in ys && h(x) == h(y)
    ensures x == y || Collide(h, xs, ys)
  {
  }

  lemma {:induction false} TreeBinding(h: Hash, t: Tree, u: Tree)
    requires DigestOf(h, t) == DigestOf(h, u)
    requires NoPairSized(DataOf(t)) && NoPairSized(DataOf(u))
    ensures DataOf(t) == DataOf(u) || Collide(h, InputsOf(h, t), InputsOf(h, u))
    decreases t, 1
  {
    match (t, u)
    case (Leaf(x), Leaf(y)) =>
      SameDigest(h, x, y, InputsOf(h, t), InputsOf(h, u));
    case (Leaf(x), Node(l, r)) =>
      assert x in DataOf(t);
      SameDigest(h, x, SortAndConcatenatePair(DigestOf(h, l), DigestOf(h, r)), InputsOf(h, t), InputsOf(h, u));
    case (Node(l, r), Leaf(y)) =>
      assert y in DataOf(u);
      SameDigest(h, SortAndConcatenatePair(DigestOf(h, l), DigestOf(h, r)), y, InputsOf(h, t), InputsOf(h, u));
    case (Node(l, r), Node(l', r')) =>
      NodeBinding(h, l, r, l', r');
  }

  lemma {:induction false} NodeBinding(h: Hash, l: Tree, r: Tree, l': Tree, r': Tree)
    requires DigestOf(h, Node(l, r)) == DigestOf(h, Node(l', r'))
    requires NoPairSized(DataOf(Node(l, r))) && NoPairSized(DataOf(Node(l', r')))
    ensures DataOf(Node(l, r)) == DataOf(Node(l', r'))
         || Collide(h, InputsOf(h, Node(l, r)), InputsOf(h, Node(l', r')))
    decreases Node(l, r), 0
  {
    var xs, ys := InputsOf(h, Node(l, r)), InputsOf(h, Node(l', r'));
    var a, b, c, d := DigestOf(h, l), DigestOf(h, r), DigestOf(h, l'), DigestOf(h, r');
    SameDigest(h, SortAndConcatenatePair(a, b), SortAndConcatenatePair(c, d), xs, ys);
    if !Collide(h, xs, ys) {
      PairInjective(a, b, c, d);
      if a == c && b == d {
        ChildBinding(h, l, l', xs, ys);
        ChildBinding(h, r, r', xs, ys);
      } else {
        ChildBinding(h, l, r', xs, ys);
        ChildBinding(h, r, l', xs, ys);
      }
    }
  }

  lemma {:induction false} ChildBinding(h: Hash, t: Tree, u: Tree, xs: set<Bytes>, ys: set<Bytes>)
    requires DigestOf(h, t) == DigestOf(h, u)
    requires NoPairSized(DataOf(t)) && NoPairSized(DataOf(u))
    requires InputsOf(h, t) <= xs && InputsOf(h, u) <= ys
    ensures DataOf(t) == DataOf(u) || Collide(h, xs, ys)
    decreases t, 2
  {
    TreeBinding(h, t, u);
    if DataOf(t) != DataOf(u) {
      CollideMonotone(h, InputsOf(h, t), InputsOf(h, u), xs, ys);
    }
  }

  /**
   The root commits to the leaves: two leaf lists without a 64-byte leaf and with
   one root hold the same data, or their two runs exhibit a hash collision.
   */
  lemma Binding(h: Hash, xs: seq<Bytes>, ys: seq<Bytes>)
    requires xs != [] && ys != []
    requires NoPairSized(multiset(xs)) && NoPairSized(multiset(ys))
    requires Root(h, xs) == Root(h, ys)
    ensures multiset(xs) == multiset(ys) || Collide(h, RunInputs(h, xs), RunInputs(h, ys))
  {
    RootIsTreeDigest(h, xs);
    RootIsTreeDigest(h, ys);
    ChildBinding(h, TreeOf(xs), TreeOf(ys), RunInputs(h, xs), RunInputs(h, ys));
  }

  // ---------------------------------------------------------------- soundness of proofs

  /** The strings a verifier hashes when it folds a path. */
  ghost function FoldInputs(h: Hash, leaf: Bytes, path: seq<Digest>): set<Bytes> {
    if path == [] then {leaf}
    else
      var init, last := path[..|path| - 1], path[|path| - 1];
      FoldInputs(h, leaf, init) + {SortAndConcatenatePair(Fold(h, h(leaf), init), last)}
  }

  lemma {:induction false} TreeSoundness(h: Hash, leaf: Bytes, path: seq<Digest>, t: Tree)
    requires |leaf| != 64 && NoPairSized(DataOf(t))
    requires Fold(h, h(leaf), path) == DigestOf(h, t)
    ensures leaf in DataOf(t) || Collide(h, FoldInputs(h, leaf, path), InputsOf(h, t))
    decreases |path|
  {
    var xs, ys := FoldInputs(h, leaf, path), InputsOf(h, t);
    if path == [] {
      match t
      case Leaf(y) => SameDigest(h, leaf, y, xs, ys);
      case Node(l, r) => SameDigest(h, leaf, SortAndConcatenatePair(DigestOf(h, l), DigestOf(h, r)), xs, ys);
    } else {
      var init, last := path[..|path| - 1], path[|path| - 1];
      var below := Fold(h, h(leaf), init);
      var top := SortAndConcatenatePair(below, last);
      match t
      case Leaf(y) =>
        assert y in DataOf(t);
        SameDigest(h, top, y, xs, ys);
      case Node(l, r) =>
        SameDigest(h, top, SortAndConcatenatePair(DigestOf(h, l), DigestOf(h, r)), xs, ys);
        if !Collide(h, xs, ys) {
          PairInjective(below, last, DigestOf(h, l), DigestOf(h, r));
          var child := if below == DigestOf(h, l) then l else r;
          TreeSoundness(h, leaf, init, child);
          if leaf !in DataOf(child) {
            CollideMonotone(h, FoldInputs(h, leaf, init), InputsOf(h, child), xs, ys);
          }
        }
    }
  }

  /**
   The converse of completeness: any path that folds a leaf to the root, however
   it was made, proves the leaf is in the tree, or exhibits a hash collision.
   */
  lemma Soundness(h: Hash, leaf: Bytes, path: seq<Digest>, leaves: seq<Bytes>)
    requires leaves != [] && |leaf| != 64 && NoPairSized(multiset(leaves))
    requires Fold(h, h(leaf), path) == Root(h, leaves)
    ensures leaf in leaves || Collide(h, FoldInputs(h, leaf, path), RunInputs(h, leaves))
  {
    RootIsTreeDigest(h, leaves);
    TreeSoundness(h, leaf, path, TreeOf(leaves));
    if leaf !in leaves {
      assert leaf !in multiset(leaves);
      CollideMonotone(h, FoldInputs(h, leaf, path), InputsOf(h, TreeOf(leaves)),
                      FoldInputs(h, leaf, path), RunInputs(h, leaves));
    }
  }
}
