/** Constant-depth Merkle trees over segments, with their proofs and their pages of proofs. */
module ConstantDepth {
  import opened Octets
  import opened Options
  import opened Powers
  import opened TreeProofs

  type Digest = Bytes -> Hash

  function LeafTag(): Bytes { [108, 101, 97, 102] }

  function NodeTag(): Bytes { [110, 111, 100, 101] }

  function Leaf(h: Digest, segment: Bytes): Hash {
    h(LeafTag() + segment)
  }

  function Join(h: Digest, left: Hash, right: Hash): Hash {
    h(NodeTag() + left + right)
  }

  function Joins(h: Digest): Branch<Hash> {
    (left: Hash, right: Hash) => Join(h, left, right)
  }

  // ---------------------------------------------------------------- the tree

  /** The depth of the tree over `n` segments. */
  function Depth(n: nat): nat {
    if n <= 1 then 0 else BitLength(n - 1)
  }

  lemma DepthIsLeast(n: nat)
    ensures n <= Pow2(Depth(n))
    ensures Depth(n) > 0 ==> Pow2(Depth(n) - 1) < n
  {
    if n > 1 {
      BitLengthBounds(n - 1);
    }
  }

  function LeafAt(h: Digest, data: seq<Bytes>, i: nat): Hash {
    if i < |data| then Leaf(h, data[i]) else ZeroHash()
  }

  function Leaves(h: Digest, data: seq<Bytes>, from: nat, size: nat): (r: seq<Hash>)
    ensures |r| == size && forall i :: 0 <= i < size ==> r[i] == LeafAt(h, data, from + i)
  {
    seq<Hash>(size, (i: nat) => LeafAt(h, data, from + i))
  }

  /** The leaves, filled up with zeros to two to the depth. */
  function Preprocessed(h: Digest, data: seq<Bytes>): (nodes: seq<Hash>)
    ensures |nodes| == Pow2(Depth(|data|)) >= |data|
  {
    DepthIsLeast(|data|);
    Leaves(h, data, 0, Pow2(Depth(|data|)))
  }

  function Root(h: Digest, data: seq<Bytes>): Hash {
    Node(Joins(h), ZeroHash(), Preprocessed(h, data))
  }

  function Proof(h: Digest, data: seq<Bytes>, index: nat): seq<Hash>
    requires index < |data|
  {
    TraceOf(Joins(h), ZeroHash(), Preprocessed(h, data), index)
  }

  predicate AreHashes(proof: seq<Bytes>) {
    forall n :: 0 <= n < |proof| ==> |proof[n]| == 32
  }

  function AsHash(x: Bytes): Hash
    requires |x| == 32
  {
    x
  }

  function AsHashes(proof: seq<Bytes>): (r: seq<Hash>)
    requires AreHashes(proof)
    ensures |r| == |proof| && forall n :: 0 <= n < |r| ==> r[n] == proof[n]
  {
    seq(|proof|, n requires 0 <= n < |proof| => AsHash(proof[n]))
  }

  /** A proof is accepted if it has hashes only, the index fits, and the leaf climbs to the root. */
  predicate Accepts(h: Digest, segment: Bytes, index: int, proof: seq<Bytes>, root: Bytes) {
    && 0 <= index < Pow2(|proof|) && AreHashes(proof)
    && Climb(Joins(h), Leaf(h, segment), index, AsHashes(proof)) == root
  }

  method Trace(h: Digest, data: seq<Bytes>, index: nat) returns (proof: seq<Hash>)
    requires index < |data|
    ensures proof == Proof(h, data, index)
  {
    hide Node, TraceOf, Joins, ZeroHash, Preprocessed;
    var nodes: seq<Hash>, at: nat := Preprocessed(h, data), index;
    ghost var whole := TraceOf(Joins(h), ZeroHash(), nodes, at);
    proof := [];
    while |nodes| > 1
      invariant at < |nodes|
      invariant whole == proof + TraceOf(Joins(h), ZeroHash(), nodes, at)
      decreases |nodes|
    {
      TraceUnfolds(Joins(h), ZeroHash(), proof, nodes, at);
      var split := |nodes| / 2;
      if at < split {
        proof := proof + [Node(Joins(h), ZeroHash(), nodes[split..])];
        nodes := nodes[..split];
      } else {
        proof := proof + [Node(Joins(h), ZeroHash(), nodes[..split])];
        nodes := nodes[split..];
        at := at - split;
      }
    }
    TraceUnfolds(Joins(h), ZeroHash(), proof, nodes, at);
  }

  lemma JoinsIs(h: Digest, left: Hash, right: Hash)
    ensures Joins(h)(left, right) == Join(h, left, right)
  {
  }

  lemma AcceptsIf(h: Digest, segment: Bytes, index: int, proof: seq<Bytes>, root: Bytes)
    ensures Accepts(h, segment, index, proof, root) <==>
            && 0 <= index < Pow2(|proof|) && AreHashes(proof)
            && Climb(Joins(h), Leaf(h, segment), index, AsHashes(proof)) == root
  {
  }

  /** `pairs` are what is joined on the way up, the last first. */
  method Verify(h: Digest, segment: Bytes, index: int, proof: seq<Bytes>, root: Bytes)
      returns (ok: bool, ghost pairs: seq<(Hash, Hash)>)
    ensures ok == Accepts(h, segment, index, proof, root)
    ensures ok ==> pairs == ClimbPairs(Joins(h), Leaf(h, segment), index, AsHashes(proof))
  {
    hide *;
    AcceptsIf(h, segment, index, proof, root);
    pairs := [];
    if index < 0 || index >= Pow2(|proof|) || !AreHashes(proof) {
      return false, [];
    }
    var hashes := AsHashes(proof);
    var value: Hash, at: nat, n: nat := Leaf(h, segment), index, |hashes|;
    assert hashes[..n] == hashes;
    while n > 0
      invariant n <= |hashes|
      invariant Climb(Joins(h), value, at, hashes[..n]) == Climb(Joins(h), Leaf(h, segment), index, hashes)
      invariant ClimbPairs(Joins(h), value, at, hashes[..n]) + pairs ==
                ClimbPairs(Joins(h), Leaf(h, segment), index, hashes)
    {
      n := n - 1;
      ClimbUnfolds(Joins(h), value, at, hashes, n);
      var left, right := if at % 2 == 1 then hashes[n] else value, if at % 2 == 1 then value else hashes[n];
      JoinsIs(h, left, right);
      value := Join(h, left, right);
      at := at / 2;
      pairs := [(left, right)] + pairs;
    }
    ClimbEnds(Joins(h), value, at, hashes);
    ok := value == root;
  }

  // ---------------------------------------------------------------- accepted exactly

  /** The proof for any segment is accepted against the root. */
  lemma ProofsAreAccepted(h: Digest, data: seq<Bytes>, index: nat)
    requires index < |data|
    ensures |Proof(h, data, index)| == Depth(|data|)
    ensures Accepts(h, data[index], index, Proof(h, data, index), Root(h, data))
  {
    DepthIsLeast(|data|);
    TraceClimbs(Joins(h), ZeroHash(), Preprocessed(h, data), index, Depth(|data|));
    var proof := Proof(h, data, index);
    assert AsHashes(proof) == proof;
  }

  // ---------------------------------------------------------------- accepted only if real

  /** What is hashed for each pair. */
  function Joined(pairs: seq<(Hash, Hash)>): (r: seq<Bytes>)
    ensures |r| == |pairs| && forall k :: 0 <= k < |r| ==> r[k] == NodeTag() + pairs[k].0 + pairs[k].1
  {
    seq(|pairs|, k requires 0 <= k < |pairs| => NodeTag() + pairs[k].0 + pairs[k].1)
  }

  /** All inputs to the hash when a proof is verified: from the root down to the leaf. */
  function Verified(h: Digest, segment: Bytes, index: nat, proof: seq<Hash>): seq<Bytes> {
    Joined(ClimbPairs(Joins(h), Leaf(h, segment), index, proof)) + [LeafTag() + segment]
  }

  /** All inputs to the hash on the tree's own path to a segment. */
  function OnPath(h: Digest, data: seq<Bytes>, index: nat): seq<Bytes>
    requires index < |data|
  {
    Joined(PathPairs(Joins(h), ZeroHash(), Preprocessed(h, data), index)) + [LeafTag() + data[index]]
  }

  /** The first level at which the verifier hashed something else than the tree: its input, and the tree's. */
  function Disagreement(h: Digest, data: seq<Bytes>, segment: Bytes, index: nat, proof: seq<Hash>): (Bytes, Bytes)
    requires index < |data|
  {
    var mine, tree := Verified(h, segment, index, proof), OnPath(h, data, index);
    var k := FirstDifference(mine, tree);
    if k < |mine| && k < |tree| then (mine[k], tree[k]) else ([], [])
  }

  lemma NodeIsInjective(a: Hash, b: Hash, c: Hash, d: Hash)
    ensures NodeTag() + a + b == NodeTag() + c + d ==> a == c && b == d
  {
    var x, y := NodeTag() + a + b, NodeTag() + c + d;
    assert a == x[4..36] && c == y[4..36];
    assert b == x[36..] && d == y[36..];
  }

  lemma LeafIsInjective(a: Bytes, b: Bytes)
    ensures LeafTag() + a == LeafTag() + b ==> a == b
  {
    assert a == (LeafTag() + a)[4..] && b == (LeafTag() + b)[4..];
  }

  /** The inputs first differ where the pairs do; where no pair does, only the leaves can. */
  lemma DifferenceOfJoined(mine: seq<(Hash, Hash)>, tree: seq<(Hash, Hash)>, a: Bytes, b: Bytes)
    requires |mine| == |tree|
    ensures var k := FirstDifference(mine, tree);
            k < |mine| ==> FirstDifference(Joined(mine) + [a], Joined(tree) + [b]) == k
    ensures FirstDifference(mine, tree) == |mine| && a != b ==>
              FirstDifference(Joined(mine) + [a], Joined(tree) + [b]) == |mine|
  {
    var k := FirstDifference(mine, tree);
    var x, y := Joined(mine) + [a], Joined(tree) + [b];
    assert forall i :: 0 <= i < k ==> mine[i] == mine[..k][i] && tree[i] == tree[..k][i];
    assert forall i :: 0 <= i < k ==> x[i] == y[i];
    if k < |mine| {
      NodeIsInjective(mine[k].0, mine[k].1, tree[k].0, tree[k].1);
      DifferenceIs(x, y, k);
    } else if a != b {
      DifferenceIs(x, y, k);
    }
  }

  lemma DifferenceIs(x: seq<Bytes>, y: seq<Bytes>, k: nat)
    requires k < |x| && k < |y| && x[k] != y[k] && forall i :: 0 <= i < k ==> x[i] == y[i]
    ensures FirstDifference(x, y) == k
  {
    var n := FirstDifference(x, y);
    assert forall i :: 0 <= i < n ==> x[i] == x[..n][i] && y[i] == y[..n][i];
  }

  /**
   Whatever is accepted at an index, with a proof of the tree's depth, is the segment there;
   or the disagreement is a collision: what the verifier hashed at the first level where it
   differs from what the tree hashed there, and the two have one hash.
   */
  lemma AcceptedIsReal(h: Digest, data: seq<Bytes>, segment: Bytes, index: nat, proof: seq<Bytes>)
    requires index < |data| && |proof| == Depth(|data|)
    requires Accepts(h, segment, index, proof, Root(h, data))
    ensures var (x, y) := Disagreement(h, data, segment, index, AsHashes(proof));
            segment != data[index] ==>
              && x in Verified(h, segment, index, AsHashes(proof)) && y in OnPath(h, data, index)
              && x != y && h(x) == h(y)
  {
    hide ClimbPairs, PathPairs, Preprocessed, Accepts, Root, LeafTag, Depth;
    AcceptsIf(h, segment, index, proof, Root(h, data));
    var hashes, nodes := AsHashes(proof), Preprocessed(h, data);
    AcceptedClimbs(h, data, segment, index, hashes);
    var mine, tree := ClimbPairs(Joins(h), Leaf(h, segment), index, hashes),
      PathPairs(Joins(h), ZeroHash(), nodes, index);
    LeafIsInjective(segment, data[index]);
    DifferenceOfJoined(mine, tree, LeafTag() + segment, LeafTag() + data[index]);
  }

  lemma AcceptedClimbs(h: Digest, data: seq<Bytes>, segment: Bytes, index: nat, proof: seq<Hash>)
    requires index < |data| && |proof| == Depth(|data|)
    requires Climb(Joins(h), Leaf(h, segment), index, proof) == Root(h, data)
    ensures index < |Preprocessed(h, data)|
    ensures SameOrClash(Joins(h), ClimbPairs(Joins(h), Leaf(h, segment), index, proof),
                        PathPairs(Joins(h), ZeroHash(), Preprocessed(h, data), index),
                        Leaf(h, segment) == Leaf(h, data[index]))
  {
    hide Climb, ClimbPairs, PathPairs, Leaf, Joins, SameOrClash, Depth, Pow2, Node;
    DepthIsLeast(|data|);
    ClimbIsSound(Joins(h), ZeroHash(), Preprocessed(h, data), Leaf(h, segment), index, proof);
  }

  // ---------------------------------------------------------------- pages

  const PAGE_BITS := 6
  const PAGE_SIZE := 64

  /** How much of a proof all segments of a page share. */
  function PageDepth(n: nat): nat {
    if Depth(n) < PAGE_BITS then 0 else Depth(n) - PAGE_BITS
  }

  /** What a page holds: the shared path, and the leaf hashes of its segments. */
  datatype Page = Page(path: seq<Hash>, hashes: seq<Hash>)

  function Shared(proof: seq<Hash>, depth: nat): seq<Hash> {
    proof[..if depth < |proof| then depth else |proof|]
  }

  function PageEnd(n: nat, start: nat): nat {
    if start + PAGE_SIZE < n then start + PAGE_SIZE else n
  }

  function PageAt(h: Digest, data: seq<Bytes>, start: nat): Page
    requires start < |data|
  {
    Page(Shared(Proof(h, data, start), PageDepth(|data|)), Leaves(h, data, start, PageEnd(|data|, start) - start))
  }

  /** One page for every 64 segments. */
  function PagesFrom(h: Digest, data: seq<Bytes>, start: nat): seq<Page>
    decreases |data| - start
  {
    if start >= |data| then [] else [PageAt(h, data, start)] + PagesFrom(h, data, start + PAGE_SIZE)
  }

  /** The codec of lists of hashes; what it reads is followed by the rest. */
  datatype Codec = Codec(encode: seq<Hash> -> Bytes, decode: Bytes -> Option<(seq<Hash>, Bytes)>)

  ghost predicate ReadsBack(codec: Codec) {
    forall hashes: seq<Hash>, rest: Bytes :: codec.decode(codec.encode(hashes) + rest) == Some((hashes, rest))
  }

  /** Filled up with zeros to a multiple of the alignment. */
  function ZeroPad(alignment: nat, data: Bytes): (r: Bytes)
    requires alignment >= 1
    ensures data <= r && |r| < |data| + alignment && |r| % alignment == 0
    ensures forall i :: |data| <= i < |r| ==> r[i] == 0
  {
    PaddedLength(|data|, alignment);
    data + seq<Byte>(-|data| % alignment, _ => 0)
  }

  lemma PaddedLength(length: int, alignment: nat)
    requires alignment >= 1 && length >= 0
    ensures (length + -length % alignment) % alignment == 0
  {
    var q, r := -length / alignment, -length % alignment;
    assert -length == alignment * q + r;
    if q > 0 {
      Grows(alignment, q);
    }
    assert alignment * -q == -(alignment * q);
    ModIs(length + r, alignment, -q, 0);
  }

  function PageSegment(codec: Codec, size: nat, page: Page): Bytes
    requires size >= 1
  {
    ZeroPad(size, codec.encode(page.path) + codec.encode(page.hashes))
  }

  function Segments(codec: Codec, size: nat, pages: seq<Page>): (r: seq<Bytes>)
    requires size >= 1
    ensures |r| == |pages| && forall i :: 0 <= i < |r| ==> r[i] == PageSegment(codec, size, pages[i])
  {
    seq(|pages|, i requires 0 <= i < |pages| => PageSegment(codec, size, pages[i]))
  }

  function ReadPage(codec: Codec, segment: Bytes): Option<Page> {
    match codec.decode(segment)
    case None => None
    case Some((path, rest)) =>
      match codec.decode(rest)
      case None => None
      case Some((hashes, _)) => Some(Page(path, hashes))
  }

  method PagedProofs(h: Digest, codec: Codec, size: nat, data: seq<Bytes>) returns (segments: seq<Bytes>)
    requires size >= 1
    ensures segments == Segments(codec, size, PagesFrom(h, data, 0))
  {
    hide Proof, Leaves, Shared, Depth, ZeroPad;
    var depth := PageDepth(|data|);
    segments := [];
    ghost var pages: seq<Page> := [];
    var start: nat := 0;
    while start < |data|
      invariant segments == Segments(codec, size, pages)
      invariant PagesFrom(h, data, 0) == pages + PagesFrom(h, data, start)
      decreases |data| - start
    {
      var proof := Trace(h, data, start);
      var page := Page(Shared(proof, depth), Leaves(h, data, start, PageEnd(|data|, start) - start));
      segments := segments + [PageSegment(codec, size, page)];
      pages := pages + [page];
      start := start + PAGE_SIZE;
    }
  }

  lemma {:induction false} PagesAre(h: Digest, data: seq<Bytes>, start: nat, i: nat)
    requires start + i * PAGE_SIZE < |data|
    ensures i < |PagesFrom(h, data, start)| && PagesFrom(h, data, start)[i] == PageAt(h, data, start + i * PAGE_SIZE)
    decreases i
  {
    hide PageAt;
    if i > 0 {
      PagesAre(h, data, start + PAGE_SIZE, i - 1);
    }
  }

  /** Every segment of proofs has a whole number of units, and its page can be read back from it. */
  lemma PagesReadBack(h: Digest, codec: Codec, size: nat, data: seq<Bytes>, index: nat)
    requires size >= 1 && ReadsBack(codec) && index < |data|
    ensures var i, segments := index / PAGE_SIZE, Segments(codec, size, PagesFrom(h, data, 0));
            && i < |segments| && |segments[i]| % size == 0
            && ReadPage(codec, segments[i]) == Some(PageAt(h, data, i * PAGE_SIZE))
  {
    var i := index / PAGE_SIZE;
    PagesAre(h, data, 0, i);
    hide PageAt, PagesFrom, ReadsBack, ReadPage;
    PageReadsBack(codec, size, PageAt(h, data, i * PAGE_SIZE));
  }

  lemma PageReadsBack(codec: Codec, size: nat, page: Page)
    requires size >= 1 && ReadsBack(codec)
    ensures |PageSegment(codec, size, page)| % size == 0
    ensures ReadPage(codec, PageSegment(codec, size, page)) == Some(page)
  {
    var segment := PageSegment(codec, size, page);
    var first, second := codec.encode(page.path), codec.encode(page.hashes);
    var padding := segment[|first + second|..];
    assert segment == first + (second + padding);
  }

  /** A page's leaves, filled up with zeros to the size of its subtree. */
  function Filled(page: Page, size: nat): seq<Hash>
    requires |page.hashes| <= size
  {
    page.hashes + seq(size - |page.hashes|, _ => ZeroHash())
  }

  /** The size of the subtree under a page. */
  function PageWidth(n: nat): nat {
    Pow2(Depth(n) - PageDepth(n))
  }

  lemma PageIsPower()
    ensures Pow2(6) == PAGE_SIZE
  {
  }

  lemma PageFits(n: nat, start: nat)
    requires start < n && start % PAGE_SIZE == 0
    ensures PageWidth(n) <= PAGE_SIZE && start + PageWidth(n) <= Pow2(Depth(n))
    ensures PageDepth(n) == 0 ==> start == 0 && n <= PageWidth(n)
    ensures PageDepth(n) > 0 ==> PageWidth(n) == PAGE_SIZE && start / PAGE_SIZE < Pow2(PageDepth(n))
  {
    hide Pow2;
    DepthIsLeast(n);
    PageIsPower();
    if PageDepth(n) == 0 {
      Pow2Monotone(Depth(n), 6);
    } else {
      Pow2Adds(PageDepth(n), 6);
    }
  }

  lemma PageStarts(n: nat, start: nat)
    requires start < n && start % PAGE_SIZE == 0
    ensures Aligned(start, PageDepth(n), Depth(n) - PageDepth(n))
  {
    PageFits(n, start);
    var q := if PageDepth(n) == 0 then 0 else start / PAGE_SIZE;
    BlocksAreAligned(q, PageDepth(n), Depth(n) - PageDepth(n));
    assert Block(q, Depth(n) - PageDepth(n)) == start;
  }

  lemma PageNodes(h: Digest, data: seq<Bytes>, start: nat)
    requires start < |data| && start % PAGE_SIZE == 0
    ensures start + PageWidth(|data|) <= |Preprocessed(h, data)|
    ensures |PageAt(h, data, start).hashes| <= PageWidth(|data|)
    ensures Filled(PageAt(h, data, start), PageWidth(|data|)) == Half(Preprocessed(h, data), PageWidth(|data|), start)
  {
    PageFits(|data|, start);
    hide Proof, Leaf, Pow2, Depth, Shared, PageDepth;
    var size, filled, half := PageWidth(|data|), Filled(PageAt(h, data, start), PageWidth(|data|)),
      Half(Preprocessed(h, data), PageWidth(|data|), start);
    forall i | 0 <= i < size
      ensures filled[i] == half[i] == LeafAt(h, data, start + i)
    {
    }
  }

  /** Each page's path, followed by the proof inside the page, is the whole proof of each of its segments. */
  lemma PagesProve(h: Digest, data: seq<Bytes>, start: nat, index: nat)
    requires start % PAGE_SIZE == 0 && start <= index < |data| && index < start + PAGE_SIZE
    ensures var page := PageAt(h, data, start);
            && |page.hashes| <= PageWidth(|data|) && index - start < PageWidth(|data|)
            && Proof(h, data, index) ==
               page.path + TraceOf(Joins(h), ZeroHash(), Filled(page, PageWidth(|data|)), index - start)
  {
    hide TraceOf, Leaf, Pow2, Depth, Aligned, Preprocessed, Joins, Filled, Leaves, Half;
    PageFits(|data|, start);
    PageStarts(|data|, start);
    PageNodes(h, data, start);
    TraceSplits(Joins(h), ZeroHash(), Preprocessed(h, data), PageDepth(|data|), Depth(|data|) - PageDepth(|data|),
      start, index);
  }
}
