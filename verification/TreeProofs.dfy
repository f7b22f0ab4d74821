/** Binary trees over any kind of digest: proofs listed from the root, checked from the leaf. */
module TreeProofs {
  import opened Powers

  type Branch<!D> = (D, D) -> D

  /** The root over a list of nodes; the left part takes the odd one. */
  function Node<D>(branch: Branch<D>, zero: D, nodes: seq<D>): D {
    if nodes == [] then zero
    else if |nodes| == 1 then nodes[0]
    else
      var limit := (|nodes| + 1) / 2;
      branch(Node(branch, zero, nodes[..limit]), Node(branch, zero, nodes[limit..]))
  }

  /** The siblings on the way from the root to a leaf. */
  function TraceOf<D>(branch: Branch<D>, zero: D, nodes: seq<D>, index: nat): (proof: seq<D>)
    requires index < |nodes|
  {
    if |nodes| <= 1 then []
    else
      var split := |nodes| / 2;
      if index < split then [Node(branch, zero, nodes[split..])] + TraceOf(branch, zero, nodes[..split], index)
      else [Node(branch, zero, nodes[..split])] + TraceOf(branch, zero, nodes[split..], index - split)
  }

  /** One step down, after the siblings listed before it. */
  lemma TraceUnfolds<D>(branch: Branch<D>, zero: D, before: seq<D>, nodes: seq<D>, index: nat)
    requires index < |nodes|
    ensures |nodes| <= 1 ==> before + TraceOf(branch, zero, nodes, index) == before
    ensures var split := |nodes| / 2;
            |nodes| > 1 ==>
              before + TraceOf(branch, zero, nodes, index) ==
              if index < split then
                before + [Node(branch, zero, nodes[split..])] + TraceOf(branch, zero, nodes[..split], index)
              else
                before + [Node(branch, zero, nodes[..split])] + TraceOf(branch, zero, nodes[split..], index - split)
  {
    hide Node;
  }

  /** From a leaf up: the last sibling first, on the side that the last digit of the index tells. */
  function Climb<D>(branch: Branch<D>, value: D, index: nat, proof: seq<D>): D
    decreases |proof|
  {
    if proof == [] then value
    else
      var sibling := proof[|proof| - 1];
      var joined := if index % 2 == 1 then branch(sibling, value) else branch(value, sibling);
      Climb(branch, joined, index / 2, proof[..|proof| - 1])
  }

  // ---------------------------------------------------------------- the way up is the way down

  /** The first sibling comes last, on the side that the first digit of the index tells. */
  lemma {:induction false} ClimbTop<D>(branch: Branch<D>, value: D, index: nat, first: D, rest: seq<D>)
    requires index < 2 * Pow2(|rest|)
    ensures Climb(branch, value, index, [first] + rest) ==
            if index < Pow2(|rest|) then branch(Climb(branch, value, index, rest), first)
            else branch(first, Climb(branch, value, index - Pow2(|rest|), rest))
    decreases |rest|
  {
    var proof := [first] + rest;
    if rest == [] {
      assert proof[..0] == [] && proof[0] == first;
      assert index / 2 == 0;
    } else {
      var front, last := rest[..|rest| - 1], rest[|rest| - 1];
      assert proof[|proof| - 1] == last && proof[..|proof| - 1] == [first] + front;
      var up := if index % 2 == 1 then branch(last, value) else branch(value, last);
      ClimbTop(branch, up, index / 2, first, front);
      var half := Pow2(|front|);
      assert Pow2(|rest|) == 2 * half;
      if index >= 2 * half {
        assert (index - 2 * half) % 2 == index % 2 && (index - 2 * half) / 2 == index / 2 - half;
      }
    }
  }

  /** An even number of nodes divides into equal halves. */
  lemma NodeHalves<D>(branch: Branch<D>, zero: D, nodes: seq<D>, split: nat)
    requires split >= 1 && |nodes| == 2 * split
    ensures Node(branch, zero, nodes) == branch(Node(branch, zero, nodes[..split]), Node(branch, zero, nodes[split..]))
  {
    assert (|nodes| + 1) / 2 == split;
  }

  /** The half of the nodes that `skipped` leads to, and the node of the other half. */
  function Half<D>(nodes: seq<D>, split: nat, skipped: nat): (half: seq<D>)
    requires skipped + split <= |nodes|
    ensures |half| == split
  {
    nodes[skipped..skipped + split]
  }

  function Sibling<D>(branch: Branch<D>, zero: D, nodes: seq<D>, split: nat, skipped: nat): D
    requires split <= |nodes|
  {
    Node(branch, zero, if skipped == 0 then nodes[split..] else nodes[..split])
  }

  lemma HalfIs<D>(nodes: seq<D>, split: nat, skipped: nat, at: nat)
    requires |nodes| == 2 * split && (skipped == 0 || skipped == split) && at < split
    ensures Half(nodes, split, skipped)[at] == nodes[skipped + at]
    ensures Half(nodes, split, skipped) == if skipped == 0 then nodes[..split] else nodes[split..]
  {
  }

  lemma TraceInHalf<D>(branch: Branch<D>, zero: D, nodes: seq<D>, split: nat, skipped: nat, index: nat)
    requires split >= 1 && |nodes| == 2 * split && (skipped == 0 || skipped == split)
    requires skipped <= index < skipped + split
    ensures TraceOf(branch, zero, nodes, index) ==
            [Sibling(branch, zero, nodes, split, skipped)]
            + TraceOf(branch, zero, Half(nodes, split, skipped), index - skipped)
  {
    hide Node;
    assert |nodes| / 2 == split;
    assert skipped == 0 ==> nodes[..split] == nodes[skipped..skipped + split];
    assert skipped == split ==> nodes[split..] == nodes[skipped..skipped + split];
  }

  /** The proof for a leaf climbs to the root. */
  lemma {:induction false} TraceClimbs<D>(branch: Branch<D>, zero: D, nodes: seq<D>, index: nat, d: nat)
    requires |nodes| == Pow2(d) && index < |nodes|
    ensures |TraceOf(branch, zero, nodes, index)| == d
    ensures Climb(branch, nodes[index], index, TraceOf(branch, zero, nodes, index)) == Node(branch, zero, nodes)
    decreases d
  {
    hide Node, TraceOf, Climb;
    if d == 0 {
      OnlyLeafClimbs(branch, zero, nodes);
    } else {
      var split := Pow2(d - 1);
      var skipped := if index < split then 0 else split;
      var half := Half(nodes, split, skipped);
      NodeHalves(branch, zero, nodes, split);
      TraceInHalf(branch, zero, nodes, split, skipped, index);
      assert half == if skipped == 0 then nodes[..split] else nodes[split..];
      TraceClimbs(branch, zero, half, index - skipped, d - 1);
      hide Pow2;
      ClimbTop(branch, nodes[index], index, Sibling(branch, zero, nodes, split, skipped),
        TraceOf(branch, zero, half, index - skipped));
    }
  }

  lemma OnlyLeafClimbs<D>(branch: Branch<D>, zero: D, nodes: seq<D>)
    requires |nodes| == 1
    ensures TraceOf(branch, zero, nodes, 0) == []
    ensures Climb(branch, nodes[0], 0, []) == Node(branch, zero, nodes)
  {
  }

  // ---------------------------------------------------------------- soundness

  /** The pairs that the climb joins, the one at the root first. */
  function ClimbPairs<D>(branch: Branch<D>, value: D, index: nat, proof: seq<D>): (pairs: seq<(D, D)>)
    ensures |pairs| == |proof|
    decreases |proof|
  {
    if proof == [] then []
    else
      var sibling := proof[|proof| - 1];
      var pair := if index % 2 == 1 then (sibling, value) else (value, sibling);
      ClimbPairs(branch, branch(pair.0, pair.1), index / 2, proof[..|proof| - 1]) + [pair]
  }

  /** One step up, by the `n`-th sibling. */
  lemma ClimbUnfolds<D>(branch: Branch<D>, value: D, index: nat, proof: seq<D>, n: nat)
    requires n < |proof|
    ensures var (left, right) := if index % 2 == 1 then (proof[n], value) else (value, proof[n]);
            && Climb(branch, value, index, proof[..n + 1]) == Climb(branch, branch(left, right), index / 2, proof[..n])
            && ClimbPairs(branch, value, index, proof[..n + 1]) ==
               ClimbPairs(branch, branch(left, right), index / 2, proof[..n]) + [(left, right)]
  {
    assert proof[..n + 1][..n] == proof[..n];
  }

  lemma ClimbEnds<D>(branch: Branch<D>, value: D, index: nat, proof: seq<D>)
    ensures Climb(branch, value, index, proof[..0]) == value && ClimbPairs(branch, value, index, proof[..0]) == []
  {
  }

  /** The pairs that the tree joins on the way to a leaf, the one at the root first. */
  function PathPairs<D>(branch: Branch<D>, zero: D, nodes: seq<D>, index: nat): seq<(D, D)>
    requires index < |nodes|
  {
    if |nodes| <= 1 then []
    else
      var split := |nodes| / 2;
      var left, right := nodes[..split], nodes[split..];
      [(Node(branch, zero, left), Node(branch, zero, right))] +
      if index < split then PathPairs(branch, zero, left, index) else PathPairs(branch, zero, right, index - split)
  }

  lemma {:induction false} ClimbPairsTop<D>(branch: Branch<D>, value: D, index: nat, first: D, rest: seq<D>)
    requires index < 2 * Pow2(|rest|)
    ensures ClimbPairs(branch, value, index, [first] + rest) ==
            if index < Pow2(|rest|) then
              [(Climb(branch, value, index, rest), first)] + ClimbPairs(branch, value, index, rest)
            else
              var at := index - Pow2(|rest|);
              [(first, Climb(branch, value, at, rest))] + ClimbPairs(branch, value, at, rest)
    decreases |rest|
  {
    hide Climb, ClimbPairs, Pow2;
    if rest == [] {
      assert [first] + rest == [first];
      OnlyPairTop(branch, value, index, first);
    } else {
      var n := |rest| - 1;
      var front, half := rest[..n], Pow2(n);
      PowDoubles(n);
      ClimbPairsTop(branch, if index % 2 == 1 then branch(rest[n], value)
        else branch(value, rest[n]), index / 2, first, front);
      var proof := [first] + rest;
      assert rest[..n + 1] == rest && proof[..n + 2] == proof && proof[..n + 1] == [first] + front;
      ClimbUnfolds(branch, value, index, proof, n + 1);
      ClimbUnfolds(branch, value, index, rest, n);
      if index >= 2 * half {
        assert (index - 2 * half) % 2 == index % 2 && (index - 2 * half) / 2 == index / 2 - half;
        ClimbUnfolds(branch, value, index - 2 * half, rest, n);
      }
    }
  }

  lemma OnlyPairTop<D>(branch: Branch<D>, value: D, index: nat, first: D)
    requires index < 2 * Pow2(0)
    ensures Pow2(0) == 1 && Climb(branch, value, 0, []) == value && ClimbPairs(branch, value, 0, []) == []
    ensures ClimbPairs(branch, value, index, [first]) == [if index == 0 then (value, first) else (first, value)]
  {
    assert [first][..0] == [];
  }

  /** The pairs really are what is joined on the way: each holds the branch of the next, the first gives the root. */
  lemma {:induction false} ClimbPairsAreJoined<D>(branch: Branch<D>, value: D, index: nat, proof: seq<D>)
    ensures var pairs := ClimbPairs(branch, value, index, proof);
            && (proof != [] ==> Climb(branch, value, index, proof) == branch(pairs[0].0, pairs[0].1))
            && (proof != [] ==> value == pairs[|pairs| - 1].0 || value == pairs[|pairs| - 1].1)
            && forall k :: 0 <= k < |pairs| - 1 ==>
                 var up := branch(pairs[k + 1].0, pairs[k + 1].1);
                 up == pairs[k].0 || up == pairs[k].1
    decreases |proof|
  {
    if proof != [] {
      var sibling, front := proof[|proof| - 1], proof[..|proof| - 1];
      var up := if index % 2 == 1 then branch(sibling, value) else branch(value, sibling);
      ClimbPairsAreJoined(branch, up, index / 2, front);
    }
  }

  /** The first place where two lists differ, or the length of the shorter. */
  function FirstDifference<T(==)>(a: seq<T>, b: seq<T>): (k: nat)
    ensures k <= |a| && k <= |b| && a[..k] == b[..k]
    ensures k < |a| && k < |b| ==> a[k] != b[k]
    ensures k == |a| || k == |b| || a[k] != b[k]
  {
    if a == [] || b == [] || a[0] != b[0] then 0
    else
      var k := FirstDifference(a[1..], b[1..]);
      assert a[..k + 1] == [a[0]] + a[1..][..k] && b[..k + 1] == [b[0]] + b[1..][..k];
      k + 1
  }

  /** Two lists of pairs are the same, and then `same` holds; or the first that differ have one branch. */
  ghost predicate SameOrClash<D>(branch: Branch<D>, mine: seq<(D, D)>, tree: seq<(D, D)>, same: bool) {
    && |mine| == |tree|
    && var k := FirstDifference(mine, tree);
       && (k == |mine| ==> same)
       && (k < |mine| ==> mine[k] != tree[k] && branch(mine[k].0, mine[k].1) == branch(tree[k].0, tree[k].1))
  }

  lemma OneMorePair<D>(branch: Branch<D>, x: (D, D), y: (D, D), mine: seq<(D, D)>, tree: seq<(D, D)>, same: bool)
    requires branch(x.0, x.1) == branch(y.0, y.1) && |mine| == |tree|
    requires x == y ==> SameOrClash(branch, mine, tree, same)
    ensures SameOrClash(branch, [x] + mine, [y] + tree, same)
  {
    if x == y {
      assert ([x] + mine)[1..] == mine && ([x] + tree)[1..] == tree;
      assert FirstDifference([x] + mine, [x] + tree) == FirstDifference(mine, tree) + 1;
    }
  }

  lemma {:induction false} PathLength<D>(branch: Branch<D>, zero: D, nodes: seq<D>, index: nat, d: nat)
    requires |nodes| == Pow2(d) && index < |nodes|
    ensures |PathPairs(branch, zero, nodes, index)| == d
    decreases d
  {
    hide Node;
    if d > 0 {
      var split := Pow2(d - 1);
      var skipped := if index < split then 0 else split;
      PathInHalf(branch, zero, nodes, split, skipped, index);
      PathLength(branch, zero, Half(nodes, split, skipped), index - skipped, d - 1);
    }
  }

  /**
   A value that climbs to the root of the tree joins the very pairs of the tree, and then is
   the leaf at that place; or the first pair that differs has the branch of the tree's pair.
   */
  lemma {:induction false} ClimbIsSound<D>(branch: Branch<D>, zero: D, nodes: seq<D>, value: D, index: nat,
      proof: seq<D>)
    requires |nodes| == Pow2(|proof|) && index < |nodes|
    requires Climb(branch, value, index, proof) == Node(branch, zero, nodes)
    ensures SameOrClash(branch, ClimbPairs(branch, value, index, proof), PathPairs(branch, zero, nodes, index),
                        value == nodes[index])
    decreases |proof|, 1
  {
    hide SameOrClash;
    if proof == [] {
      assert nodes == [nodes[index]];
      NoPairs(branch, value == nodes[index]);
    } else {
      var split := Pow2(|proof| - 1);
      assert |nodes| == 2 * split;
      SoundInHalf(branch, zero, nodes, value, index, proof, split, if index < split then 0 else split);
    }
  }

  lemma NoPairs<D>(branch: Branch<D>, same: bool)
    requires same
    ensures SameOrClash(branch, [], [], same)
  {
  }

  lemma SoundInHalf<D>(branch: Branch<D>, zero: D, nodes: seq<D>, value: D, index: nat, proof: seq<D>, split: nat,
      skipped: nat)
    requires proof != [] && split == Pow2(|proof| - 1) && |nodes| == 2 * split
    requires skipped == (if index < split then 0 else split) && index < |nodes|
    requires Climb(branch, value, index, proof) == Node(branch, zero, nodes)
    ensures SameOrClash(branch, ClimbPairs(branch, value, index, proof), PathPairs(branch, zero, nodes, index),
                        value == nodes[index])
    decreases |proof|, 0
  {
    hide *;
    var half, at, tree := Half(nodes, split, skipped), index - skipped, TopPair(branch, zero, nodes, split);
    var pair := TopOfClimb(branch, value, proof, at, skipped == 0);
    ClimbInHalf(branch, value, index, proof, split, skipped);
    PathInHalf(branch, zero, nodes, split, skipped, index);
    if pair == tree {
      SubtreeIsMet(branch, zero, nodes, value, proof, split, skipped, at);
      ClimbIsSound(branch, zero, half, value, at, proof[1..]);
      HalfIs(nodes, split, skipped, at);
    }
    PathLength(branch, zero, half, at, |proof| - 1);
    OneMorePair(branch, pair, tree, ClimbPairs(branch, value, at, proof[1..]), PathPairs(branch, zero, half, at),
                value == nodes[index]);
  }

  /** What a climb reaches below the root, and the pair it joins there. */
  function Upper<D>(branch: Branch<D>, value: D, proof: seq<D>, at: nat): D
    requires proof != []
  {
    Climb(branch, value, at, proof[1..])
  }

  function TopOfClimb<D>(branch: Branch<D>, value: D, proof: seq<D>, at: nat, left: bool): (D, D)
    requires proof != []
  {
    if left then (Upper(branch, value, proof, at), proof[0]) else (proof[0], Upper(branch, value, proof, at))
  }

  /** The pair that the tree joins at its root. */
  function TopPair<D>(branch: Branch<D>, zero: D, nodes: seq<D>, split: nat): (D, D)
    requires split <= |nodes|
  {
    (Node(branch, zero, nodes[..split]), Node(branch, zero, nodes[split..]))
  }

  lemma SubtreeIsMet<D>(branch: Branch<D>, zero: D, nodes: seq<D>, value: D, proof: seq<D>, split: nat, skipped: nat,
      at: nat)
    requires proof != [] && |nodes| == 2 * split && (skipped == 0 || skipped == split) && at < split
    requires TopOfClimb(branch, value, proof, at, skipped == 0) == TopPair(branch, zero, nodes, split)
    ensures Climb(branch, value, at, proof[1..]) == Node(branch, zero, Half(nodes, split, skipped))
  {
    hide Climb, Node;
    HalfIs(nodes, split, skipped, at);
  }

  lemma ClimbInHalf<D>(branch: Branch<D>, value: D, index: nat, proof: seq<D>, split: nat, skipped: nat)
    requires proof != [] && split == Pow2(|proof| - 1)
    requires skipped == (if index < split then 0 else split) && index < 2 * split
    ensures var pair := TopOfClimb(branch, value, proof, index - skipped, skipped == 0);
            && Climb(branch, value, index, proof) == branch(pair.0, pair.1)
            && ClimbPairs(branch, value, index, proof) ==
               [pair] + ClimbPairs(branch, value, index - skipped, proof[1..])
  {
    hide Climb, ClimbPairs;
    var first, rest := proof[0], proof[1..];
    assert proof == [first] + rest;
    ClimbTop(branch, value, index, first, rest);
    ClimbPairsTop(branch, value, index, first, rest);
  }

  lemma PathInHalf<D>(branch: Branch<D>, zero: D, nodes: seq<D>, split: nat, skipped: nat, index: nat)
    requires split >= 1 && |nodes| == 2 * split && (skipped == 0 || skipped == split)
    requires skipped <= index < skipped + split
    ensures var pair := TopPair(branch, zero, nodes, split);
            && Node(branch, zero, nodes) == branch(pair.0, pair.1)
            && PathPairs(branch, zero, nodes, index) ==
               [pair] + PathPairs(branch, zero, Half(nodes, split, skipped), index - skipped)
  {
    NodeHalves(branch, zero, nodes, split);
    HalfIs(nodes, split, skipped, index - skipped);
    hide Node, Half;
    assert |nodes| / 2 == split;
  }

  // ---------------------------------------------------------------- proofs split at any level

  /** Whether `start` begins one of the equal blocks that `k` halvings lead to. */
  predicate Aligned(start: int, k: nat, m: nat) {
    if k == 0 then start == 0
    else
      var half := Pow2(k - 1 + m);
      if start < half then Aligned(start, k - 1, m) else Aligned(start - half, k - 1, m)
  }

  lemma {:induction false} AlignedFits(start: int, k: nat, m: nat)
    requires Aligned(start, k, m)
    ensures 0 <= start && start + Pow2(m) <= Pow2(k + m)
    ensures k > 0 && start < Pow2(k - 1 + m) ==> start + Pow2(m) <= Pow2(k - 1 + m)
  {
    if k > 0 {
      var half := Pow2(k - 1 + m);
      AlignedFits(if start < half then start else start - half, k - 1, m);
    }
  }

  /** Where block `q` begins. */
  function Block(q: nat, m: nat): nat {
    q * Pow2(m)
  }

  lemma BlockHalves(q: nat, k: nat, m: nat)
    requires k > 0
    ensures q < Pow2(k - 1) ==> Block(q, m) < Pow2(k - 1 + m)
    ensures q >= Pow2(k - 1) ==> Block(q, m) == Pow2(k - 1 + m) + Block(q - Pow2(k - 1), m)
  {
    Pow2Adds(k - 1, m);
    HalvesOfBlocks(q, Pow2(k - 1), Pow2(m));
  }

  /** The block `q` of `b` lies in the first `half` blocks, or that much further in the others. */
  lemma HalvesOfBlocks(q: nat, half: nat, b: nat)
    requires b >= 1
    ensures q < half ==> q * b + b <= half * b
    ensures q >= half ==> q * b == half * b + (q - half) * b
  {
    if q < half {
      assert half * b == q * b + (half - q) * b;
      assert (half - q) * b >= b by {
        Grows(b, half - q);
      }
    } else {
      assert (q - half) * b == q * b - half * b;
    }
  }

  lemma {:induction false} BlocksAreAligned(q: nat, k: nat, m: nat)
    requires q < Pow2(k)
    ensures Aligned(Block(q, m), k, m)
  {
    if k > 0 {
      var within := if q < Pow2(k - 1) then q else q - Pow2(k - 1);
      BlocksAreAligned(within, k - 1, m);
      BlockHalves(q, k, m);
      hide Aligned, Pow2, Block;
      AlignedHalves(Block(q, m), Block(within, m), Pow2(k - 1 + m), k, m, q < Pow2(k - 1));
    } else {
      assert Block(0, m) == 0;
    }
  }

  lemma AlignedHalves(start: int, within: int, split: int, k: nat, m: nat, low: bool)
    requires k > 0 && split == Pow2(k - 1 + m) && Aligned(within, k - 1, m)
    requires start == (if low then within else split + within) && (low <==> start < split)
    ensures Aligned(start, k, m)
  {
  }

  /** `whole` is the first `k` of `path`, then `rest`. */
  ghost predicate Splits<D>(whole: seq<D>, path: seq<D>, rest: seq<D>, k: nat) {
    |path| >= k && whole == path[..k] + rest
  }

  /** The proof for an index is the path to its block, then the proof inside the block. */
  lemma {:induction false} TraceSplits<D>(branch: Branch<D>, zero: D, nodes: seq<D>, k: nat, m: nat, start: nat,
      index: nat)
    requires |nodes| == Pow2(k + m) && Aligned(start, k, m)
    requires start <= index < start + Pow2(m)
    ensures start + Pow2(m) <= |nodes|
    ensures Splits(TraceOf(branch, zero, nodes, index), TraceOf(branch, zero, nodes, start),
                   TraceOf(branch, zero, Half(nodes, Pow2(m), start), index - start), k)
    decreases k
  {
    hide *;
    AlignedFits(start, k, m);
    if k == 0 {
      AlignedIn(start, k, m);
      WholeBlock(branch, zero, nodes, index);
    } else {
      var split := Pow2(k - 1 + m);
      var skipped := if start < split then 0 else split;
      AlignedIn(start, k, m);
      TraceSplits(branch, zero, Half(nodes, split, skipped), k - 1, m, start - skipped, index - skipped);
      assert index - skipped - (start - skipped) == index - start;
      SplitStep(branch, zero, nodes, k, start, Pow2(m), index, split, skipped);
    }
  }

  /** One halving of an aligned place. */
  lemma AlignedIn(start: int, k: nat, m: nat)
    requires Aligned(start, k, m)
    ensures k == 0 ==> start == 0 && Pow2(k + m) == Pow2(m)
    ensures k > 0 ==> Pow2(k + m) == 2 * Pow2(k - 1 + m)
    ensures k > 0 ==> Aligned(start - if start < Pow2(k - 1 + m) then 0 else Pow2(k - 1 + m), k - 1, m)
  {
  }

  /** What splits in a half, splits in the whole one step later. */
  lemma SplitStep<D>(branch: Branch<D>, zero: D, nodes: seq<D>, k: nat, start: nat, size: nat, index: nat, split: nat,
      skipped: nat)
    requires k > 0 && split >= 1 && |nodes| == 2 * split && (skipped == 0 || skipped == split)
    requires skipped <= start <= index < start + size <= skipped + split
    requires var half := Half(nodes, split, skipped);
             Splits(TraceOf(branch, zero, half, index - skipped), TraceOf(branch, zero, half, start - skipped),
                    TraceOf(branch, zero, Half(half, size, start - skipped), index - start), k - 1)
    ensures Splits(TraceOf(branch, zero, nodes, index), TraceOf(branch, zero, nodes, start),
                   TraceOf(branch, zero, Half(nodes, size, start), index - start), k)
  {
    hide *;
    var half := Half(nodes, split, skipped);
    BlockOf(nodes, skipped, split, start, size);
    TraceInHalf(branch, zero, nodes, split, skipped, index);
    TraceInHalf(branch, zero, nodes, split, skipped, start);
    Longer(Sibling(branch, zero, nodes, split, skipped), TraceOf(branch, zero, half, index - skipped),
           TraceOf(branch, zero, half, start - skipped), TraceOf(branch, zero, Half(nodes, size, start), index - start),
           k);
  }

  lemma WholeBlock<D>(branch: Branch<D>, zero: D, nodes: seq<D>, index: nat)
    requires index < |nodes|
    ensures Splits(TraceOf(branch, zero, nodes, index), TraceOf(branch, zero, nodes, 0),
                   TraceOf(branch, zero, Half(nodes, |nodes|, 0), index), 0)
  {
    assert nodes[0..|nodes|] == nodes;
    hide TraceOf;
  }

  lemma BlockOf<D>(nodes: seq<D>, skipped: nat, split: nat, start: nat, size: nat)
    requires skipped + split <= |nodes| && skipped <= start && start + size <= skipped + split
    ensures Half(Half(nodes, split, skipped), size, start - skipped) == Half(nodes, size, start)
  {
    var half := nodes[skipped..skipped + split];
    var a, b := half[start - skipped..start - skipped + size], nodes[start..start + size];
    assert |a| == |b| == size;
    forall i | 0 <= i < size
      ensures a[i] == b[i]
    {
      assert a[i] == half[start - skipped + i];
      assert half[start - skipped + i] == nodes[start + i];
    }
  }

  lemma Longer<D>(first: D, whole: seq<D>, path: seq<D>, rest: seq<D>, k: nat)
    requires k > 0 && Splits(whole, path, rest, k - 1)
    ensures Splits([first] + whole, [first] + path, rest, k)
  {
    assert ([first] + path)[..k] == [first] + path[..k - 1];
  }
}
