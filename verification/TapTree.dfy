/** The tree of a peg output's leaves (sidestr-core/src/pegtweak.rs): leaves paired
    left to right, an odd one carried up, each leaf given its path of siblings.
    The tagged hash of two sorted children is a parameter over their order. */
module TapTree {
  import opened Prelude

  type Digest = seq<byte>

  /** The order branches sort their children by: the first differing byte. */
  predicate Below(a: Digest, b: Digest)
  {
    if |a| == 0 then true
    else if |b| == 0 then false
    else if a[0] != b[0] then a[0] < b[0]
    else Below(a[1..], b[1..])
  }

  /** A branch hashes its children in order, so their own order is forgotten. */
  function Branch(tagged: seq<byte> -> Digest, a: Digest, b: Digest): Digest
  {
    tagged(if Below(a, b) then a + b else b + a)
  }

  lemma {:induction false} OneOrder(a: Digest, b: Digest)
    ensures Below(a, b) || Below(b, a)
    ensures Below(a, b) && Below(b, a) ==> a == b
  {
    if |a| > 0 && |b| > 0 && a[0] == b[0] {
      OneOrder(a[1..], b[1..]);
      assert a == [a[0]] + a[1..] && b == [b[0]] + b[1..];
    }
  }

  lemma BranchForgetsOrder(tagged: seq<byte> -> Digest, a: Digest, b: Digest)
    ensures Branch(tagged, a, b) == Branch(tagged, b, a)
  {
    OneOrder(a, b);
  }

  /** Two digests that agree up to byte `k`, where the first is the smaller. */
  predicate FirstBelowAt(a: Digest, b: Digest, k: nat)
  {
    k < |a| && k < |b| && a[..k] == b[..k] && a[k] < b[k]
  }

  /** The child with the smaller first differing byte is hashed first, wherever it stands. */
  lemma BranchSorts(tagged: seq<byte> -> Digest, a: Digest, b: Digest, k: nat)
    requires FirstBelowAt(a, b, k)
    ensures Branch(tagged, a, b) == Branch(tagged, b, a) == tagged(a + b)
  {
    BelowAt(a, b, k);
    OneOrder(a, b);
  }

  lemma {:induction false} BelowAt(a: Digest, b: Digest, k: nat)
    requires FirstBelowAt(a, b, k)
    ensures Below(a, b) && a != b
  {
    if k > 0 {
      assert a[0] == a[..k][0] == b[..k][0] == b[0];
      assert a[1..][..k - 1] == a[..k][1..] && b[1..][..k - 1] == b[..k][1..];
      BelowAt(a[1..], b[1..], k - 1);
    }
  }

  /** Any two different digests of one length differ first somewhere. */
  lemma {:induction false} SomewhereFirst(a: Digest, b: Digest) returns (k: nat)
    requires |a| == |b| && a != b
    ensures FirstBelowAt(a, b, k) || FirstBelowAt(b, a, k)
  {
    if a[0] != b[0] {
      k := 0;
    } else {
      assert a == [a[0]] + a[1..] && b == [b[0]] + b[1..];
      k := SomewhereFirst(a[1..], b[1..]);
      k := k + 1;
      assert a[..k] == [a[0]] + a[1..][..k - 1] && b[..k] == [b[0]] + b[1..][..k - 1];
    }
  }

  /** A leaf hashed through its path of siblings, from the leaf up. */
  function Fold(tagged: seq<byte> -> Digest, leaf: Digest, path: seq<Digest>): Digest
  {
    if |path| == 0 then leaf
    else Branch(tagged, Fold(tagged, leaf, path[..|path| - 1]), path[|path| - 1])
  }

  datatype Node = Node(hash: Digest, leaves: seq<nat>)

  /** The level above: neighbours paired from the left, an odd one carried up. */
  function Above(tagged: seq<byte> -> Digest, level: seq<Digest>): (r: seq<Digest>)
    ensures |r| == (|level| + 1) / 2
  {
    if |level| < 2 then level
    else [Branch(tagged, level[0], level[1])] + Above(tagged, level[2..])
  }

  /** The root by levels, as the tree is defined. */
  function Root(tagged: seq<byte> -> Digest, level: seq<Digest>): Digest
    requires |level| > 0
    decreases |level|
  {
    if |level| == 1 then level[0] else Root(tagged, Above(tagged, level))
  }

  /** Three leaves: the first two are paired, and the third waits for their branch. */
  lemma ThreeLeaves(tagged: seq<byte> -> Digest, a: Digest, b: Digest, c: Digest)
    ensures Root(tagged, [a, b, c]) == Branch(tagged, Branch(tagged, a, b), c)
  {
    assert [a, b, c][2..] == [c];
    var two := [Branch(tagged, a, b)] + [c];
    assert Above(tagged, [a, b, c]) == two;
    assert two[2..] == [];
    var one := [Branch(tagged, Branch(tagged, a, b), c)];
    assert Above(tagged, two) == one;
    assert Root(tagged, [a, b, c]) == Root(tagged, two) == Root(tagged, one);
  }

  function Hashes(level: seq<Node>): seq<Digest>
  {
    seq<Digest>(|level|, i requires 0 <= i < |level| => level[i].hash)
  }

  /** All the leaves under a level, left to right. */
  function Under(level: seq<Node>): seq<nat>
  {
    if |level| == 0 then [] else level[0].leaves + Under(level[1..])
  }

  /** Every leaf under a node folds, through the path it has so far, to the node. */
  ghost predicate NodeFolds(tagged: seq<byte> -> Digest, leaves: seq<Digest>, paths: seq<seq<Digest>>, node: Node)
    requires |paths| == |leaves|
  {
    forall i: nat :: i in node.leaves ==> i < |leaves| && Fold(tagged, leaves[i], paths[i]) == node.hash
  }

  ghost predicate Folded(tagged: seq<byte> -> Digest, leaves: seq<Digest>, paths: seq<seq<Digest>>, level: seq<Node>)
    requires |paths| == |leaves|
  {
    forall p: nat :: p < |level| ==> NodeFolds(tagged, leaves, paths, level[p])
  }

  function Range(n: nat): seq<nat> { seq(n, i => i) }

  lemma {:induction false} UnderHas(level: seq<Node>, p: nat, i: nat)
    requires p < |level| && i in level[p].leaves
    ensures i in Under(level)
  {
    if p > 0 {
      UnderHas(level[1..], p - 1, i);
    }
  }

  lemma {:induction false} UnderConcat(a: seq<Node>, b: seq<Node>)
    ensures Under(a + b) == Under(a) + Under(b)
  {
    if |a| == 0 {
      assert a + b == b;
    } else {
      assert (a + b)[1..] == a[1..] + b;
      UnderConcat(a[1..], b);
    }
  }

  predicate NoRepeats(s: seq<nat>)
  {
    forall i, j :: 0 <= i < j < |s| ==> s[i] != s[j]
  }

  lemma SplitNoRepeats(a: seq<nat>, b: seq<nat>, x: nat)
    requires NoRepeats(a + b)
    ensures NoRepeats(a) && NoRepeats(b)
    ensures x in a ==> x !in b
  {
    assert forall i :: 0 <= i < |b| ==> (a + b)[|a| + i] == b[i];
    assert forall i :: 0 <= i < |a| ==> (a + b)[i] == a[i];
  }

  /** Give every leaf of one node one more sibling. */
  method PushSibling(paths: seq<seq<Digest>>, leaves: seq<nat>, sibling: Digest) returns (next: seq<seq<Digest>>)
    requires NoRepeats(leaves) && forall i :: i in leaves ==> i < |paths|
    ensures |next| == |paths|
    ensures forall i :: 0 <= i < |paths| ==> next[i] == if i in leaves then paths[i] + [sibling] else paths[i]
  {
    next := paths;
    for k := 0 to |leaves|
      invariant |next| == |paths|
      invariant forall i :: 0 <= i < |paths| ==> next[i] == if i in leaves[..k] then paths[i] + [sibling] else paths[i]
    {
      var i := leaves[k];
      assert i in leaves && i !in leaves[..k];
      next := next[i := next[i] + [sibling]];
      assert leaves[..k + 1] == leaves[..k] + [i];
    }
    assert leaves[..|leaves|] == leaves;
  }

  /** No leaf is under two nodes. */
  lemma {:induction false} Apart(level: seq<Node>, p: nat, q: nat, i: nat)
    requires p < q < |level| && NoRepeats(Under(level)) && i in level[p].leaves
    ensures i !in level[q].leaves
  {
    SplitNoRepeats(level[0].leaves, Under(level[1..]), i);
    if p > 0 {
      Apart(level[1..], p - 1, q - 1, i);
    } else if i in level[q].leaves {
      UnderHas(level[1..], q - 1, i);
    }
  }

  lemma {:induction false} NodeNoRepeats(level: seq<Node>, p: nat)
    requires p < |level| && NoRepeats(Under(level))
    ensures NoRepeats(level[p].leaves)
  {
    SplitNoRepeats(level[0].leaves, Under(level[1..]), 0);
    if p > 0 {
      NodeNoRepeats(level[1..], p - 1);
    }
  }

  /** The nodes of a level being paired: those done, two neighbours, the rest. */
  function Around(done: seq<Node>, middle: seq<Node>, rest: seq<Node>): seq<Node> { done + middle + rest }

  function Pair(tagged: seq<byte> -> Digest, a: Node, b: Node): Node
  {
    Node(Branch(tagged, a.hash, b.hash), a.leaves + b.leaves)
  }

  lemma UnderFew(a: Node, b: Node)
    ensures Under([a]) == a.leaves && Under([a, b]) == a.leaves + b.leaves
  {
    assert [a][1..] == [] && [a, b][1..] == [b] && [b][1..] == [];
    assert a.leaves + [] == a.leaves && b.leaves + [] == b.leaves;
  }

  lemma PairUnder(tagged: seq<byte> -> Digest, done: seq<Node>, a: Node, b: Node, rest: seq<Node>)
    ensures Under(Around(done, [Pair(tagged, a, b)], rest)) == Under(Around(done, [a, b], rest))
  {
    hide Under, Branch;
    UnderConcat(done + [Pair(tagged, a, b)], rest);
    UnderConcat(done + [a, b], rest);
    UnderConcat(done, [Pair(tagged, a, b)]);
    UnderConcat(done, [a, b]);
    UnderFew(a, b);
    UnderFew(Pair(tagged, a, b), b);
  }

  /** What pairing does to the paths: each leaf gains the other node's hash. */
  predicate Paired(paths: seq<seq<Digest>>, a: Node, b: Node, next: seq<seq<Digest>>)
  {
    && |next| == |paths|
    && forall i :: 0 <= i < |paths| ==>
         next[i] == if i in a.leaves then paths[i] + [b.hash] else if i in b.leaves then paths[i] + [a.hash] else paths[i]
  }

  lemma FoldOneMore(tagged: seq<byte> -> Digest, leaf: Digest, path: seq<Digest>, sibling: Digest)
    ensures Fold(tagged, leaf, path + [sibling]) == Branch(tagged, Fold(tagged, leaf, path), sibling)
  {
    assert (path + [sibling])[..|path|] == path;
  }

  lemma PairNodeFolds(tagged: seq<byte> -> Digest, leaves: seq<Digest>, paths: seq<seq<Digest>>, a: Node, b: Node,
                      next: seq<seq<Digest>>)
    requires |paths| == |leaves| && Paired(paths, a, b, next)
    requires NodeFolds(tagged, leaves, paths, a) && NodeFolds(tagged, leaves, paths, b)
    ensures NodeFolds(tagged, leaves, next, Pair(tagged, a, b))
  {
    hide Fold, Branch;
    BranchForgetsOrder(tagged, a.hash, b.hash);
    forall i: nat | i in a.leaves + b.leaves
      ensures i < |leaves| && Fold(tagged, leaves[i], next[i]) == Branch(tagged, a.hash, b.hash)
    {
      FoldOneMore(tagged, leaves[i], paths[i], if i in a.leaves then b.hash else a.hash);
    }
  }

  lemma OtherNodeFolds(tagged: seq<byte> -> Digest, leaves: seq<Digest>, paths: seq<seq<Digest>>, a: Node, b: Node,
                       next: seq<seq<Digest>>, other: Node)
    requires |paths| == |leaves| && Paired(paths, a, b, next) && NodeFolds(tagged, leaves, paths, other)
    requires forall i: nat :: i in other.leaves ==> i !in a.leaves && i !in b.leaves
    ensures NodeFolds(tagged, leaves, next, other)
  {
    hide Fold;
  }

  /** Pairing two neighbours keeps every leaf folding to its node. */
  lemma PairFolds(tagged: seq<byte> -> Digest, leaves: seq<Digest>, paths: seq<seq<Digest>>, done: seq<Node>, a: Node, b: Node,
                  rest: seq<Node>, next: seq<seq<Digest>>)
    requires |paths| == |leaves| && Paired(paths, a, b, next)
    requires Folded(tagged, leaves, paths, Around(done, [a, b], rest))
    requires NoRepeats(Under(Around(done, [a, b], rest)))
    ensures Folded(tagged, leaves, next, Around(done, [Pair(tagged, a, b)], rest))
  {
    hide Fold, Branch, Under, NoRepeats, Pair, NodeFolds;
    var was, now := Around(done, [a, b], rest), Around(done, [Pair(tagged, a, b)], rest);
    var d := |done|;
    assert was[d] == a && was[d + 1] == b;
    forall p: nat | p < |now|
      ensures NodeFolds(tagged, leaves, next, now[p])
    {
      if p == d {
        PairNodeFolds(tagged, leaves, paths, a, b, next);
      } else {
        var q := if p < d then p else p + 1;
        assert was[q] == now[p];
        forall i: nat | i in was[q].leaves
          ensures i !in a.leaves && i !in b.leaves
        {
          ApartBoth(was, q, d, i);
          ApartBoth(was, q, d + 1, i);
        }
        OtherNodeFolds(tagged, leaves, paths, a, b, next, was[q]);
      }
    }
  }

  lemma ApartBoth(level: seq<Node>, p: nat, q: nat, i: nat)
    requires p != q && p < |level| && q < |level| && NoRepeats(Under(level)) && i in level[p].leaves
    ensures i !in level[q].leaves
  {
    hide NoRepeats, Under;
    if p < q {
      Apart(level, p, q, i);
    } else if i in level[q].leaves {
      Apart(level, q, p, i);
    }
  }

  /** The state between two pairings of one level. */
  ghost predicate Standing(tagged: seq<byte> -> Digest, leaves: seq<Digest>, paths: seq<seq<Digest>>, level: seq<Node>)
  {
    && |paths| == |leaves|
    && Under(level) == Range(|leaves|)
    && Folded(tagged, leaves, paths, level)
  }

  lemma StandingLeaves(tagged: seq<byte> -> Digest, leaves: seq<Digest>, paths: seq<seq<Digest>>, level: seq<Node>)
    requires Standing(tagged, leaves, paths, level)
    ensures NoRepeats(Under(level))
    ensures forall i: nat :: i in Under(level) <==> i < |leaves|
  {
    hide Under, Folded;
    forall i: nat | i < |leaves|
      ensures i in Under(level)
    {
      assert Range(|leaves|)[i] == i;
    }
  }

  /** Pair two neighbours: push each one's hash on the other's leaves' paths. */
  method PairNodes(tagged: seq<byte> -> Digest, ghost leaves: seq<Digest>, paths: seq<seq<Digest>>,
                   ghost done: seq<Node>, a: Node, b: Node, ghost rest: seq<Node>)
    returns (next: seq<seq<Digest>>, node: Node)
    requires Standing(tagged, leaves, paths, Around(done, [a, b], rest))
    ensures node == Pair(tagged, a, b)
    ensures Standing(tagged, leaves, next, Around(done, [node], rest))
  {
    hide Folded, Under, NoRepeats, Range;
    ghost var was := Around(done, [a, b], rest);
    StandingLeaves(tagged, leaves, paths, was);
    ghost var d := |done|;
    assert was[d] == a && was[d + 1] == b;
    NodeNoRepeats(was, d);
    NodeNoRepeats(was, d + 1);
    forall i | i in a.leaves || i in b.leaves
      ensures i < |paths|
    {
      UnderHas(was, if i in a.leaves then d else d + 1, i);
    }
    forall i | i in a.leaves
      ensures i !in b.leaves
    {
      Apart(was, d, d + 1, i);
    }
    next := PushSibling(paths, a.leaves, b.hash);
    next := PushSibling(next, b.leaves, a.hash);
    node := Node(Branch(tagged, a.hash, b.hash), a.leaves + b.leaves);
    PairUnder(tagged, done, a, b, rest);
    PairFolds(tagged, leaves, paths, done, a, b, rest, next);
  }

  /** One round: the level above, each pair hashed, an odd one carried up. */
  method RaiseLevel(tagged: seq<byte> -> Digest, ghost leaves: seq<Digest>, paths: seq<seq<Digest>>, level: seq<Node>)
    returns (raised: seq<seq<Digest>>, next: seq<Node>)
    requires Standing(tagged, leaves, paths, level)
    ensures Standing(tagged, leaves, raised, next)
    ensures Hashes(next) == Above(tagged, Hashes(level)) && |next| == (|level| + 1) / 2
  {
    hide Standing, Branch, Hashes, Above;
    raised, next := paths, [];
    var at := 0;
    LevelStart(level);
    while at < |level|
      invariant 0 <= at <= |level|
      invariant Standing(tagged, leaves, raised, next + level[at..])
      invariant Hashes(next) + Above(tagged, Hashes(level[at..])) == Above(tagged, Hashes(level))
    {
      var a := level[at];
      if at + 1 == |level| {
        CarryStep(tagged, level, next);
        HashesGrow(next, a);
        next := next + [a];
        at := at + 1;
      } else {
        var b := level[at + 1];
        assert next + level[at..] == Around(next, [a, b], level[at + 2..]);
        var node;
        raised, node := PairNodes(tagged, leaves, raised, next, a, b, level[at + 2..]);
        AboveStep(tagged, level, at);
        HashesGrow(next, node);
        next := next + [node];
        at := at + 2;
      }
    }
    LevelEnd(tagged, level, next);
    LevelWidth(tagged, next, level);
  }

  lemma LevelStart(level: seq<Node>)
    ensures [] + level[0..] == level && Hashes([]) == []
  {
  }

  lemma LevelEnd(tagged: seq<byte> -> Digest, level: seq<Node>, next: seq<Node>)
    ensures next + level[|level|..] == next
    ensures Hashes(next) + Above(tagged, Hashes(level[|level|..])) == Hashes(next)
  {
  }

  lemma LevelWidth(tagged: seq<byte> -> Digest, next: seq<Node>, level: seq<Node>)
    requires Hashes(next) == Above(tagged, Hashes(level))
    ensures |next| == (|level| + 1) / 2
  {
    assert |Hashes(next)| == |next| && |Hashes(level)| == |level|;
  }

  lemma HashesGrow(next: seq<Node>, node: Node)
    ensures Hashes(next + [node]) == Hashes(next) + [node.hash]
  {
  }

  lemma CarryStep(tagged: seq<byte> -> Digest, level: seq<Node>, next: seq<Node>)
    requires |level| > 0
    ensures var at := |level| - 1;
            && next + level[at..] == (next + [level[at]]) + level[at + 1..]
            && Above(tagged, Hashes(level[at..])) == [level[at].hash] + Above(tagged, Hashes(level[at + 1..]))
  {
    var at := |level| - 1;
    assert Hashes(level[at..]) == [level[at].hash] && Hashes(level[at + 1..]) == [];
  }

  lemma AboveStep(tagged: seq<byte> -> Digest, level: seq<Node>, at: nat)
    requires at + 1 < |level|
    ensures Above(tagged, Hashes(level[at..]))
            == [Branch(tagged, level[at].hash, level[at + 1].hash)] + Above(tagged, Hashes(level[at + 2..]))
  {
    hide Branch;
    assert Hashes(level[at..])[2..] == Hashes(level[at + 2..]);
  }

  /** The starting level: one node per leaf, no path yet. */
  method StartLevel(tagged: seq<byte> -> Digest, leaves: seq<Digest>) returns (paths: seq<seq<Digest>>, level: seq<Node>)
    ensures Standing(tagged, leaves, paths, level)
    ensures Hashes(level) == leaves && |level| == |leaves|
  {
    paths := seq<seq<Digest>>(|leaves|, i => []);
    level := [];
    for n := 0 to |leaves|
      invariant |level| == n
      invariant forall i :: 0 <= i < n ==> level[i] == Node(leaves[i], [i])
      invariant Under(level) == Range(n)
    {
      UnderConcat(level, [Node(leaves[n], [n])]);
      assert [Node(leaves[n], [n])][1..] == [];
      assert Range(n + 1) == Range(n) + [n];
      level := level + [Node(leaves[n], [n])];
    }
  }

  /** Build the tree of some leaf hashes. For any non-empty list, odd levels
      included, the root is the tree's by its definition and every leaf, hashed
      through its own path, gives it. */
  method Build(tagged: seq<byte> -> Digest, leaves: seq<Digest>) returns (r: Option<(Digest, seq<seq<Digest>>)>)
    ensures r.None? <==> |leaves| == 0
    ensures r.Some? ==>
              && r.value.0 == Root(tagged, leaves)
              && |r.value.1| == |leaves|
              && forall i :: 0 <= i < |leaves| ==> Fold(tagged, leaves[i], r.value.1[i]) == Root(tagged, leaves)
  {
    hide Standing, Fold, Above;
    if |leaves| == 0 { return None; }
    var paths, level := StartLevel(tagged, leaves);
    while |level| > 1
      invariant |level| >= 1
      invariant Standing(tagged, leaves, paths, level)
      invariant Root(tagged, Hashes(level)) == Root(tagged, leaves)
      decreases |level|
    {
      paths, level := RaiseLevel(tagged, leaves, paths, level);
    }
    AllFold(tagged, leaves, paths, level);
    return Some((level[0].hash, paths));
  }

  lemma AllFold(tagged: seq<byte> -> Digest, leaves: seq<Digest>, paths: seq<seq<Digest>>, level: seq<Node>)
    requires |level| == 1 && Standing(tagged, leaves, paths, level)
    ensures |paths| == |leaves|
    ensures forall i :: 0 <= i < |leaves| ==> Fold(tagged, leaves[i], paths[i]) == level[0].hash
  {
    assert Under(level[1..]) == [];
    assert Under(level) == level[0].leaves;
    forall i | 0 <= i < |leaves|
      ensures i in level[0].leaves
    {
      assert Range(|leaves|)[i] == i;
    }
  }
}
