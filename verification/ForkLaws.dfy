/** The store refines a map from block hash to full state. */
module ForkLaws {
  import opened Octets
  import opened Options
  import opened ForkedStore

  // ---------------------------------------------------------------- paths

  /** `path` follows the parents from its first block until a block without one. */
  ghost predicate IsLine(s: Store, path: seq<Hash>)
    decreases |path|
  {
    && path != []
    && path[0] !in path[1..]
    && match ParentOf(s, path[0])
       case None => |path| == 1
       case Some(p) => |path| > 1 && path[1] == p && IsLine(s, path[1..])
  }

  /** `path` follows the parents through retained blocks until the finalized block. */
  ghost predicate IsBranch(s: Store, path: seq<Hash>)
    decreases |path|
  {
    path != [] ==>
      && path[0] !in path[1..]
      && path[0] in s.changes
      && Some(path[0]) != s.finalized
      && IsBranch(s, path[1..])
      && ParentOf(s, path[0]) == (if |path| > 1 then Some(path[1]) else s.finalized)
  }

  lemma {:induction false} WalkIsLine(s: Store, h: Hash, seen: set<Hash>)
    ensures Walk(s, h, seen).Some? ==>
              var path := Walk(s, h, seen).value;
              IsLine(s, path) && path[0] == h && forall b :: b in path ==> b !in seen
    decreases s.parents.Keys - seen
  {
    if h !in seen && ParentOf(s, h).Some? {
      var p := ParentOf(s, h).value;
      WalkIsLine(s, p, seen + {h});
      if Walk(s, p, seen + {h}).Some? {
        assert ([h] + Walk(s, p, seen + {h}).value)[1..] == Walk(s, p, seen + {h}).value;
      }
    }
  }

  lemma {:induction false} LineIsWalk(s: Store, path: seq<Hash>, seen: set<Hash>)
    requires IsLine(s, path)
    requires forall b :: b in path ==> b !in seen
    ensures Walk(s, path[0], seen) == Some(path)
    decreases |path|
  {
    if |path| > 1 {
      LineIsWalk(s, path[1..], seen + {path[0]});
      assert [path[0]] + path[1..] == path;
    } else {
      assert path == [path[0]];
    }
  }

  lemma {:induction false} BranchIsBranch(s: Store, cursor: Option<Hash>, seen: set<Hash>)
    ensures Branch(s, cursor, seen).Some? ==>
              var path := Branch(s, cursor, seen).value;
              && IsBranch(s, path)
              && (forall b :: b in path ==> b !in seen)
              && cursor == if path == [] then s.finalized else Some(path[0])
    decreases s.changes.Keys - seen
  {
    if cursor != s.finalized && cursor.Some? && cursor.value !in seen && cursor.value in s.changes {
      var h := cursor.value;
      BranchIsBranch(s, ParentOf(s, h), seen + {h});
      var rest := Branch(s, ParentOf(s, h), seen + {h});
      if rest.Some? {
        assert ([h] + rest.value)[1..] == rest.value;
      }
    }
  }

  lemma {:induction false} BranchIsFound(s: Store, path: seq<Hash>, seen: set<Hash>)
    requires IsBranch(s, path)
    requires forall b :: b in path ==> b !in seen
    ensures Branch(s, if path == [] then s.finalized else Some(path[0]), seen) == Some(path)
    decreases |path|
  {
    if path != [] {
      BranchIsFound(s, path[1..], seen + {path[0]});
      assert [path[0]] + path[1..] == path;
    }
  }

  lemma {:induction false} BranchThenLine(s: Store, path: seq<Hash>, line: seq<Hash>)
    requires IsBranch(s, path) && IsLine(s, line) && s.finalized == Some(line[0])
    requires forall b :: b in line ==> b !in s.changes
    ensures IsLine(s, path + line)
    decreases |path|
  {
    if path == [] {
      assert path + line == line;
    } else {
      BranchThenLine(s, path[1..], line);
      BranchRetained(s, path);
      assert (path + line)[1..] == path[1..] + line;
    }
  }

  lemma {:induction false} BranchRetained(s: Store, path: seq<Hash>)
    requires IsBranch(s, path)
    ensures forall b :: b in path ==> b in s.changes && Some(b) != s.finalized
    decreases |path|
  {
    if path != [] {
      BranchRetained(s, path[1..]);
    }
  }

  /** A branch through `h` is the part above `h` followed by the branch of `h`. */
  lemma {:induction false} SplitBranch(s: Store, path: seq<Hash>, h: Hash) returns (above: seq<Hash>, below: seq<Hash>)
    requires IsBranch(s, path) && h in path
    ensures path == above + below && below != [] && below[0] == h && IsBranch(s, below)
    ensures h !in above && forall b :: b in above ==> b !in below
    decreases |path|
  {
    if path[0] == h {
      above, below := [], path;
    } else {
      var rest;
      rest, below := SplitBranch(s, path[1..], h);
      above := [path[0]] + rest;
    }
  }

  lemma {:induction false} UnchangedBelow(s: Store, path: seq<Hash>, line: seq<Hash>)
    requires forall b :: b in line ==> b !in s.changes
    ensures View(s, path + line) == View(s, path)
    decreases |path| + |line|
  {
    hide Apply;
    if path != [] {
      UnchangedBelow(s, path[1..], line);
      assert (path + line)[1..] == path[1..] + line;
    } else if line != [] {
      UnchangedBelow(s, [], line[1..]);
      assert [] + line == line && [] + line[1..] == line[1..];
      NothingApplied(s.base);
    }
  }

  lemma NothingApplied(m: State)
    ensures Apply(m, map[]) == m
  {
  }

  // ---------------------------------------------------------------- soundness

  /**
   A block is finalized, nothing at or below it has changes, every retained block
   reaches it through retained blocks, and no ancestry runs in a circle.
   */
  ghost predicate Sound(s: Store) {
    && s.finalized.Some?
    && s.changes.Keys <= s.parents.Keys
    && (forall h :: h in s.parents ==> Walk(s, h, {}).Some?)
    && Walk(s, s.finalized.value, {}).Some?
    && (forall b :: b in Walk(s, s.finalized.value, {}).value ==> b !in s.changes)
    && (forall h :: h in s.changes ==> Branch(s, Some(h), {}).Some?)
  }

  /** The full state of a block: the reference the store refines. */
  ghost function ViewAt(s: Store, h: Hash): State
    requires Sound(s) && HasStateAt(s, h)
  {
    View(s, BranchTo(s, h))
  }

  ghost function BranchTo(s: Store, h: Hash): (path: seq<Hash>)
    requires Sound(s) && HasStateAt(s, h)
    ensures Branch(s, Some(h), {}) == Some(path)
  {
    Branch(s, Some(h), {}).value
  }

  lemma WalkExtendsBranch(s: Store, h: Hash)
    requires Sound(s) && HasStateAt(s, h)
    ensures Walk(s, h, {}) == Some(BranchTo(s, h) + Walk(s, s.finalized.value, {}).value)
    ensures IsLine(s, BranchTo(s, h) + Walk(s, s.finalized.value, {}).value)
    ensures View(s, Walk(s, h, {}).value) == ViewAt(s, h)
  {
    var f := s.finalized.value;
    WalkIsLine(s, f, {});
    BranchIsBranch(s, Some(h), {});
    var path, line := BranchTo(s, h), Walk(s, f, {}).value;
    BranchThenLine(s, path, line);
    LineIsWalk(s, path + line, {});
    UnchangedBelow(s, path, line);
  }

  lemma {:induction false} FindIsLookup(s: Store, h: Hash, seen: set<Hash>, key: Bytes)
    requires Walk(s, h, seen).Some?
    ensures Find(s, Some(h), seen, key) == Success(Lookup(View(s, Walk(s, h, seen).value), key))
    decreases s.parents.Keys - seen
  {
    if ParentOf(s, h).Some? {
      var p := ParentOf(s, h).value;
      FindIsLookup(s, p, seen + {h}, key);
      assert ([h] + Walk(s, p, seen + {h}).value)[1..] == Walk(s, p, seen + {h}).value;
    }
  }

  /**
   The three ways of reading agree: a key looked up one by one, the whole state of the
   selection, and the state at that block all give the same answer.
   */
  lemma ReadersAgree(s: Store, h: Hash, key: Bytes)
    requires Sound(s) && HasStateAt(s, h) && s.selected == Some(h)
    ensures key !in s.pending ==> Get(s, key) == Success(Lookup(ViewAt(s, h), key))
    ensures key in s.pending ==> Get(s, key) == Success(Lookup(Apply(ViewAt(s, h), s.pending), key))
    ensures s.pending == map[] ==> AsDict(s) == Success(ViewAt(s, h))
    ensures h != ZeroHash() ==> AsDictAt(s, h) == Success(ViewAt(s, h))
  {
    WalkExtendsBranch(s, h);
    FindIsLookup(s, h, {}, key);
    BranchIsBranch(s, Some(h), {});
    BranchRetained(s, BranchTo(s, h));
  }

  // ---------------------------------------------------------------- frames

  lemma {:induction false} BranchFrame(s: Store, t: Store, path: seq<Hash>)
    requires IsBranch(s, path) && t.finalized == s.finalized
    requires forall b :: b in path ==> b in t.changes && ParentOf(t, b) == ParentOf(s, b)
    ensures IsBranch(t, path)
    decreases |path|
  {
    if path != [] {
      BranchFrame(s, t, path[1..]);
    }
  }

  lemma {:induction false} LineFrame(s: Store, t: Store, line: seq<Hash>)
    requires IsLine(s, line)
    requires forall b :: b in line ==> ParentOf(t, b) == ParentOf(s, b)
    ensures IsLine(t, line)
    decreases |line|
  {
    if |line| > 1 {
      LineFrame(s, t, line[1..]);
    }
  }

  lemma {:induction false} ViewFrame(s: Store, t: Store, path: seq<Hash>)
    requires t.base == s.base
    requires forall b :: b in path ==> ChangesOf(t, b) == ChangesOf(s, b)
    ensures View(t, path) == View(s, path)
    decreases |path|
  {
    if path != [] {
      ViewFrame(s, t, path[1..]);
    }
  }

  lemma {:induction false} LineTail(s: Store, line: seq<Hash>, y: Hash) returns (tail: seq<Hash>)
    requires IsLine(s, line) && y in line
    ensures IsLine(s, tail) && tail[0] == y && forall b :: b in tail ==> b in line
    decreases |line|
  {
    if line[0] == y {
      tail := line;
    } else {
      tail := LineTail(s, line[1..], y);
    }
  }

  lemma LineUnique(s: Store, a: seq<Hash>, b: seq<Hash>)
    requires IsLine(s, a) && IsLine(s, b) && a[0] == b[0]
    ensures a == b
  {
    LineIsWalk(s, a, {});
    LineIsWalk(s, b, {});
  }

  // ---------------------------------------------------------------- a new block

  /** The store after block `h` on `parent` has been selected, written to and committed. */
  function WithBlock(s: Store, h: Hash, parent: Hash, writes: Changes): Store {
    s.(selected := Some(h), parents := s.parents[h := Some(parent)], changes := s.changes[h := writes],
      pending := map[])
  }

  /** `WithBlock` is what the operations do, one after the other. */
  lemma ImportIs(s: Store, h: Hash, parent: Hash, writes: Changes)
    requires s.pending == map[] && Sound(s) && HasStateAt(s, parent) && h != ZeroHash()
    ensures SetBlock(s, h, parent) == Success(WithBlock(s, h, parent, map[]))
    ensures Commit(WithBlock(s, h, parent, map[]).(pending := writes)) == Success(WithBlock(s, h, parent, writes))
  {
    var t := WithBlock(s, h, parent, map[]);
    assert t.changes[h := writes] == s.changes[h := writes];
  }

  /** A name that is not in the parent's ancestry; it may be that of another retained block. */
  ghost predicate Outside(s: Store, h: Hash, parent: Hash)
    requires Sound(s) && HasStateAt(s, parent)
  {
    Walk(s, parent, {}).Some? && h !in Walk(s, parent, {}).value
  }

  lemma {:induction false} Relink(s: Store, t: Store, h: Hash, lp: seq<Hash>, path: seq<Hash>) returns (line: seq<Hash>)
    requires IsLine(s, lp) && h !in lp && IsLine(s, path)
    requires t.parents == s.parents[h := Some(lp[0])]
    ensures IsLine(t, line) && line[0] == path[0]
    ensures h !in path ==> line == path
    ensures forall y :: y in line ==> y in path || y in lp
    decreases |path|
  {
    if path[0] == h {
      LineFrame(s, t, lp);
      line := [h] + lp;
      assert line[1..] == lp;
    } else if |path| == 1 {
      line := path;
    } else {
      var rest := Relink(s, t, h, lp, path[1..]);
      line := [path[0]] + rest;
      assert line[1..] == rest;
      if path[0] in rest {
        var tail := LineTail(s, lp, path[0]);
        LineUnique(s, tail, path);
        assert false;
      }
    }
  }

  /** Naming a block closes a circle exactly when the name is already in the parent's ancestry. */
  lemma CircleIff(s: Store, t: Store, h: Hash, parent: Hash)
    requires Walk(s, parent, {}).Some?
    requires t.parents == s.parents[h := Some(parent)]
    ensures Walk(t, h, {}).Some? <==> h !in Walk(s, parent, {}).value
  {
    WalkIsLine(s, parent, {});
    var lp := Walk(s, parent, {}).value;
    if h !in lp {
      LineFrame(s, t, lp);
      assert ([h] + lp)[1..] == lp;
      LineIsWalk(t, [h] + lp, {});
    } else if Walk(t, h, {}).Some? {
      WalkIsLine(t, h, {});
      var path := Walk(t, h, {}).value;
      LineFrame(t, s, path[1..]);
      LineUnique(s, path[1..], lp);
      assert false;
    }
  }

  /**
   The zero hash is both the parent of genesis and the name of a block being built.
   On a genesis that still records that parent, every key not yet written makes `get`
   raise: the reading law above needs a name outside the parent's ancestry.
   */
  lemma BuildingOnGenesisRaises(genesis: Hash, base: State, key: Bytes)
    requires genesis != ZeroHash()
    ensures var s := Store(base, Some(genesis), Some(genesis), map[], map[], map[genesis := Some(ZeroHash())]);
            && Sound(s)
            && SetBlock(s, ZeroHash(), genesis).Success?
            && Get(SetBlock(s, ZeroHash(), genesis).value, key) == Failure(Cycle)
  {
    var s := Store(base, Some(genesis), Some(genesis), map[], map[], map[genesis := Some(ZeroHash())]);
    assert IsLine(s, [ZeroHash()]);
    assert [genesis, ZeroHash()][1..] == [ZeroHash()];
    LineIsWalk(s, [genesis, ZeroHash()], {});
    var t := SetBlock(s, ZeroHash(), genesis).value;
    assert Find(t, Some(ZeroHash()), {ZeroHash(), genesis}, key) == Failure(Cycle);
    assert {} + {ZeroHash()} + {genesis} == {ZeroHash(), genesis};
    assert Find(t, Some(genesis), {ZeroHash()}, key) == Failure(Cycle);
    assert {} + {ZeroHash()} == {ZeroHash()};
  }

  lemma OutsideIsOff(s: Store, h: Hash, parent: Hash)
    requires Sound(s) && HasStateAt(s, parent) && Outside(s, h, parent)
    ensures h !in BranchTo(s, parent) && Some(h) != s.finalized && h !in Walk(s, s.finalized.value, {}).value
  {
    WalkExtendsBranch(s, parent);
    WalkIsLine(s, s.finalized.value, {});
  }

  lemma NewBranch(s: Store, h: Hash, parent: Hash, writes: Changes)
    requires Sound(s) && HasStateAt(s, parent) && Outside(s, h, parent)
    ensures Branch(WithBlock(s, h, parent, writes), Some(h), {}) == Some([h] + BranchTo(s, parent))
    ensures IsBranch(WithBlock(s, h, parent, writes), [h] + BranchTo(s, parent))
  {
    var t := WithBlock(s, h, parent, writes);
    var path := BranchTo(s, parent);
    OutsideIsOff(s, h, parent);
    hide Sound, Outside, View;
    BranchIsBranch(s, Some(parent), {});
    BranchRetained(s, path);
    BranchFrame(s, t, path);
    assert ([h] + path)[1..] == path;
    BranchIsFound(t, [h] + path, {});
  }

  lemma OldBranch(s: Store, h: Hash, parent: Hash, writes: Changes, b: Hash)
    requires Sound(s) && HasStateAt(s, b) && h !in BranchTo(s, b)
    ensures Branch(WithBlock(s, h, parent, writes), Some(b), {}) == Some(BranchTo(s, b))
  {
    var t := WithBlock(s, h, parent, writes);
    hide Sound, View;
    BranchIsBranch(s, Some(b), {});
    BranchRetained(s, BranchTo(s, b));
    BranchFrame(s, t, BranchTo(s, b));
    BranchIsFound(t, BranchTo(s, b), {});
  }

  lemma BranchUnique(s: Store, a: seq<Hash>, b: seq<Hash>)
    requires IsBranch(s, a) && IsBranch(s, b) && a != [] && b != [] && a[0] == b[0]
    ensures a == b
  {
    BranchIsFound(s, a, {});
    BranchIsFound(s, b, {});
  }

  /** The part of a branch above a block. */
  function Above(path: seq<Hash>, h: Hash): (above: seq<Hash>)
    ensures |above| <= |path| && h !in above
  {
    if path == [] || path[0] == h then [] else [path[0]] + Above(path[1..], h)
  }

  lemma {:induction false} AboveIs(above: seq<Hash>, below: seq<Hash>, h: Hash)
    requires h !in above && below != [] && below[0] == h
    ensures Above(above + below, h) == above
  {
    if above != [] {
      assert (above + below)[1..] == above[1..] + below;
      AboveIs(above[1..], below, h);
    }
  }

  /** The part above `h` stands on the new branch of `h` as it stood on the old one. */
  lemma {:induction false} MovedIsBranch(s: Store, t: Store, h: Hash, above: seq<Hash>, below: seq<Hash>, lp: seq<Hash>)
    requires IsBranch(s, above + below) && below != [] && below[0] == h && h !in above
    requires IsBranch(s, lp) && h !in lp && IsBranch(t, [h] + lp) && t.finalized == s.finalized
    requires forall b :: b in above ==> b in t.changes && ParentOf(t, b) == ParentOf(s, b)
    ensures IsBranch(t, above + ([h] + lp))
    decreases |above|
  {
    if above == [] {
      assert above + ([h] + lp) == [h] + lp;
    } else {
      var path, moved := above + below, above + ([h] + lp);
      assert path[1..] == above[1..] + below && moved[1..] == above[1..] + ([h] + lp);
      MovedIsBranch(s, t, h, above[1..], below, lp);
      if above[0] in lp {
        var upper, lower := SplitBranch(s, lp, above[0]);
        BranchUnique(s, lower, path);
        assert false;
      }
      assert path[1] == moved[1];
    }
  }

  /** A branch through `h` is what stands above `h`, on the branch of `h`. */
  lemma BranchThrough(s: Store, h: Hash, b: Hash)
    requires Sound(s) && HasStateAt(s, b) && h in BranchTo(s, b)
    ensures h in s.changes && Some(h) != s.finalized && IsBranch(s, BranchTo(s, b)) && BranchTo(s, h) != []
    ensures BranchTo(s, h)[0] == h && BranchTo(s, b) == Above(BranchTo(s, b), h) + BranchTo(s, h)
    ensures forall x :: x in BranchTo(s, b) ==> x in s.changes
  {
    hide Sound;
    BranchIsBranch(s, Some(b), {});
    BranchRetained(s, BranchTo(s, b));
    var above, below := SplitBranch(s, BranchTo(s, b), h);
    BranchIsBranch(s, Some(h), {});
    hide Branch;
    AboveIs(above, below, h);
    BranchUnique(s, below, BranchTo(s, h));
  }

  /** When `h` is imported again, the blocks above it move with it onto its new branch. */
  lemma MovedBranch(s: Store, h: Hash, parent: Hash, writes: Changes, b: Hash)
    requires Sound(s) && HasStateAt(s, parent) && Outside(s, h, parent)
    requires HasStateAt(s, b) && h in BranchTo(s, b)
    ensures Branch(WithBlock(s, h, parent, writes), Some(b), {}) ==
            Some(Above(BranchTo(s, b), h) + ([h] + BranchTo(s, parent)))
    ensures h in s.changes && BranchTo(s, b) == Above(BranchTo(s, b), h) + BranchTo(s, h)
  {
    hide Sound, Outside, View, Branch, IsBranch;
    var t, lp, above := WithBlock(s, h, parent, writes), BranchTo(s, parent), Above(BranchTo(s, b), h);
    OutsideIsOff(s, h, parent);
    NewBranch(s, h, parent, writes);
    BranchIsBranch(s, Some(parent), {});
    BranchIsBranch(s, Some(b), {});
    BranchThrough(s, h, b);
    assert forall x :: x in above ==> x in BranchTo(s, b);
    MovedIsBranch(s, t, h, above, BranchTo(s, h), lp);
    BranchIsFound(t, above + ([h] + lp), {});
  }

  lemma NewBlockBranches(s: Store, h: Hash, parent: Hash, writes: Changes, b: Hash)
    requires Sound(s) && HasStateAt(s, parent) && Outside(s, h, parent)
    requires b == h || HasStateAt(s, b)
    ensures Branch(WithBlock(s, h, parent, writes), Some(b), {}).Some?
  {
    hide Sound, Outside, View, Branch;
    if b == h {
      NewBranch(s, h, parent, writes);
    } else if h in BranchTo(s, b) {
      MovedBranch(s, h, parent, writes, b);
    } else {
      OldBranch(s, h, parent, writes, b);
    }
  }

  lemma NewBlockWalks(s: Store, h: Hash, parent: Hash, writes: Changes, x: Hash)
    requires Sound(s) && HasStateAt(s, parent) && Outside(s, h, parent)
    requires x == h || x in s.parents || Some(x) == s.finalized
    ensures Walk(WithBlock(s, h, parent, writes), x, {}).Some?
  {
    var t := WithBlock(s, h, parent, writes);
    if x == h {
      CircleIff(s, t, h, parent);
    } else {
      WalkIsLine(s, x, {});
      WalkIsLine(s, parent, {});
      var lp := Walk(s, parent, {}).value;
      hide Sound, Walk, View;
      var line := Relink(s, t, h, lp, Walk(s, x, {}).value);
      LineIsWalk(t, line, {});
    }
  }

  lemma NewBlockFloor(s: Store, h: Hash, parent: Hash, writes: Changes)
    requires Sound(s) && HasStateAt(s, parent) && Outside(s, h, parent)
    ensures var t, f := WithBlock(s, h, parent, writes), s.finalized.value;
            && Walk(t, f, {}) == Walk(s, f, {})
            && forall b :: b in Walk(s, f, {}).value ==> b !in t.changes
  {
    var t, f := WithBlock(s, h, parent, writes), s.finalized.value;
    OutsideIsOff(s, h, parent);
    WalkIsLine(s, f, {});
    LineFrame(s, t, Walk(s, f, {}).value);
    LineIsWalk(t, Walk(s, f, {}).value, {});
  }

  lemma NewBlockKeepsSound(s: Store, h: Hash, parent: Hash, writes: Changes)
    requires Sound(s) && HasStateAt(s, parent) && Outside(s, h, parent)
    ensures Sound(WithBlock(s, h, parent, writes))
  {
    hide Walk, Branch, View, Outside;
    NewBlockFloor(s, h, parent, writes);
    forall x | x == h || x in s.parents
      ensures Walk(WithBlock(s, h, parent, writes), x, {}).Some?
    {
      NewBlockWalks(s, h, parent, writes, x);
    }
    forall b | b == h || b in s.changes
      ensures Branch(WithBlock(s, h, parent, writes), Some(b), {}).Some?
    {
      NewBlockBranches(s, h, parent, writes, b);
    }
  }

  /** What the changes of the blocks `above` make of a state, the last of them first. */
  function Stacked(s: Store, above: seq<Hash>, m: State): State {
    if above == [] then m else Apply(Stacked(s, above[1..], m), ChangesOf(s, above[0]))
  }

  lemma {:induction false} ViewIsStacked(s: Store, t: Store, above: seq<Hash>, below: seq<Hash>)
    requires forall b :: b in above ==> ChangesOf(t, b) == ChangesOf(s, b)
    ensures View(t, above + below) == Stacked(s, above, View(t, below))
    decreases |above|
  {
    if above == [] {
      assert above + below == below;
    } else {
      assert (above + below)[1..] == above[1..] + below;
      ViewIsStacked(s, t, above[1..], below);
    }
  }

  lemma NewView(s: Store, h: Hash, parent: Hash, writes: Changes)
    requires Sound(s) && HasStateAt(s, parent) && Outside(s, h, parent)
    ensures View(WithBlock(s, h, parent, writes), [h] + BranchTo(s, parent)) == Apply(ViewAt(s, parent), writes)
  {
    var t, path := WithBlock(s, h, parent, writes), BranchTo(s, parent);
    OutsideIsOff(s, h, parent);
    assert ([h] + path)[1..] == path;
    ViewFrame(s, t, path);
  }

  lemma OldView(s: Store, h: Hash, parent: Hash, writes: Changes, b: Hash)
    requires Sound(s) && HasStateAt(s, parent) && Outside(s, h, parent) && HasStateAt(s, b)
    ensures var t := WithBlock(s, h, parent, writes);
            && Branch(t, Some(b), {}).Some?
            && View(t, Branch(t, Some(b), {}).value) ==
               if h in BranchTo(s, b) then Stacked(s, Above(BranchTo(s, b), h), Apply(ViewAt(s, parent), writes))
               else ViewAt(s, b)
  {
    var t, path := WithBlock(s, h, parent, writes), BranchTo(s, b);
    hide Sound, Outside, Branch, Apply;
    if h in path {
      MovedBranch(s, h, parent, writes, b);
      ViewIsStacked(s, t, Above(path, h), [h] + BranchTo(s, parent));
      NewView(s, h, parent, writes);
    } else {
      OldBranch(s, h, parent, writes, b);
      ViewFrame(s, t, path);
    }
  }

  /**
   A committed import gives its block the parent's state updated by the block's writes.
   If the name was in use, the blocks above it are now built on that state; no other
   block's state changes.
   */
  lemma ImportRefines(s: Store, h: Hash, parent: Hash, writes: Changes)
    requires Sound(s) && HasStateAt(s, parent) && Outside(s, h, parent)
    ensures var t := WithBlock(s, h, parent, writes);
            && Sound(t)
            && HasStateAt(t, h) && ViewAt(t, h) == Apply(ViewAt(s, parent), writes)
            && (forall b :: HasStateAt(t, b) <==> b == h || HasStateAt(s, b))
            && (forall b :: HasStateAt(s, b) ==>
                  ViewAt(t, b) ==
                  if h in BranchTo(s, b) then Stacked(s, Above(BranchTo(s, b), h), ViewAt(t, h)) else ViewAt(s, b))
  {
    var t := WithBlock(s, h, parent, writes);
    hide Sound, Outside, Branch, View, Apply;
    NewBlockKeepsSound(s, h, parent, writes);
    NewBranch(s, h, parent, writes);
    NewView(s, h, parent, writes);
    forall b | HasStateAt(s, b)
      ensures ViewAt(t, b) ==
              if h in BranchTo(s, b) then Stacked(s, Above(BranchTo(s, b), h), ViewAt(t, h)) else ViewAt(s, b)
    {
      OldView(s, h, parent, writes, b);
    }
  }

  /** Whether a block above wrote the key, so that what is below does not show. */
  predicate Covered(s: Store, above: seq<Hash>, key: Bytes) {
    exists b :: b in above && key in ChangesOf(s, b)
  }

  lemma {:induction false} StackedAt(s: Store, above: seq<Hash>, m: State, n: State, key: Bytes)
    ensures Covered(s, above, key) ==> Lookup(Stacked(s, above, m), key) == Lookup(Stacked(s, above, n), key)
    ensures !Covered(s, above, key) ==> Lookup(Stacked(s, above, m), key) == Lookup(m, key)
  {
    if above != [] {
      StackedAt(s, above[1..], m, n, key);
      assert Covered(s, above, key) <==> key in ChangesOf(s, above[0]) || Covered(s, above[1..], key) by {
        CoveredBy(s, above, key);
      }
    }
  }

  lemma CoveredBy(s: Store, above: seq<Hash>, key: Bytes)
    requires above != []
    ensures Covered(s, above, key) <==> key in ChangesOf(s, above[0]) || Covered(s, above[1..], key)
  {
    if b :| b in above && key in ChangesOf(s, b) {
      assert b == above[0] || b in above[1..];
    }
    assert above[0] in above;
  }

  lemma SameLookups(m: State, n: State)
    requires forall key :: Lookup(m, key) == Lookup(n, key)
    ensures m == n
  {
    forall key
      ensures key in m <==> key in n
      ensures key in m ==> m[key] == n[key]
    {
      assert Lookup(m, key) == Lookup(n, key);
    }
    assert m.Keys == n.Keys;
  }

  /**
   When a name is imported again, another block's state survives if and only if the name
   is not on its branch, or every key on which the two states of that name differ has been
   written above it.
   */
  lemma ReimportKeepsExactly(s: Store, h: Hash, parent: Hash, writes: Changes, b: Hash)
    requires Sound(s) && HasStateAt(s, parent) && Outside(s, h, parent) && HasStateAt(s, b)
    ensures var t := WithBlock(s, h, parent, writes);
            && Sound(t)
            && (ViewAt(t, b) == ViewAt(s, b) <==>
                (h in BranchTo(s, b) ==>
                   && HasStateAt(s, h)
                   && forall key :: !Covered(s, Above(BranchTo(s, b), h), key) ==>
                        Lookup(ViewAt(t, h), key) == Lookup(ViewAt(s, h), key)))
  {
    var t := WithBlock(s, h, parent, writes);
    ImportRefines(s, h, parent, writes);
    if h in BranchTo(s, b) {
      MovedBranch(s, h, parent, writes, b);
      var above := Above(BranchTo(s, b), h);
      ViewIsStacked(s, s, above, BranchTo(s, h));
      hide Sound, Outside, Branch, View, Covered, Stacked;
      StackedDiffer(s, above, ViewAt(t, h), ViewAt(s, h));
    }
  }

  lemma StackedDiffer(s: Store, above: seq<Hash>, m: State, n: State)
    ensures Stacked(s, above, m) == Stacked(s, above, n) <==>
            forall key :: !Covered(s, above, key) ==> Lookup(m, key) == Lookup(n, key)
  {
    hide Covered, Stacked, Lookup;
    forall key
      ensures Covered(s, above, key) ==> Lookup(Stacked(s, above, m), key) == Lookup(Stacked(s, above, n), key)
      ensures !Covered(s, above, key) ==>
                && Lookup(Stacked(s, above, m), key) == Lookup(m, key)
                && Lookup(Stacked(s, above, n), key) == Lookup(n, key)
    {
      StackedAt(s, above, m, n, key);
      StackedAt(s, above, n, m, key);
    }
    if forall key :: !Covered(s, above, key) ==> Lookup(m, key) == Lookup(n, key) {
      SameLookups(Stacked(s, above, m), Stacked(s, above, n));
    }
  }

  // ---------------------------------------------------------------- a rejected block

  /** The store after `h` was selected, written to and then discarded. */
  function WithoutBlock(s: Store, h: Hash, restore: Option<Hash>): Store {
    s.(changes := s.changes - {h}, parents := s.parents - {h}, pending := map[], selected := restore)
  }

  lemma RejectIs(s: Store, h: Hash, parent: Hash, writes: Changes, restore: Option<Hash>)
    requires s.pending == map[] && Sound(s) && HasStateAt(s, parent)
    requires Some(h) != s.finalized
    requires restore.Some? ==> restore.value == h || HasStateAt(s, restore.value)
    ensures SetBlock(s, h, parent).Success?
    ensures Discard(SetBlock(s, h, parent).value.(pending := writes), h, restore) ==
            Success(WithoutBlock(s, h, restore))
  {
    var t := SetBlock(s, h, parent).value;
    assert t.changes - {h} == s.changes - {h};
    assert t.parents - {h} == s.parents - {h};
  }

  /**
   Rejecting a candidate leaves another block's state as it was if and only if the
   candidate's name is not already a retained block on that block's branch.
   */
  lemma RejectKeepsExactly(s: Store, h: Hash, restore: Option<Hash>, b: Hash)
    requires Sound(s) && HasStateAt(s, b) && Some(h) != s.finalized
    ensures var t := WithoutBlock(s, h, restore);
            Branch(t, Some(b), {}).Some? <==> h !in BranchTo(s, b)
    ensures var t := WithoutBlock(s, h, restore);
            Branch(t, Some(b), {}).Some? ==> View(t, Branch(t, Some(b), {}).value) == ViewAt(s, b)
  {
    var t := WithoutBlock(s, h, restore);
    var path := BranchTo(s, b);
    BranchIsBranch(s, Some(b), {});
    BranchRetained(s, path);
    if h !in path {
      BranchFrame(s, t, path);
      BranchIsFound(t, path, {});
      ViewFrame(s, t, path);
    } else if Branch(t, Some(b), {}).Some? {
      BranchIsBranch(t, Some(b), {});
      var other := Branch(t, Some(b), {}).value;
      BranchRetained(t, other);
      BranchFrame(t, s, other);
      BranchIsFound(s, other, {});
      assert false;
    }
  }

  lemma {:induction false} Truncate(s: Store, t: Store, h: Hash, path: seq<Hash>) returns (line: seq<Hash>)
    requires IsLine(s, path) && t.parents == s.parents - {h}
    ensures IsLine(t, line) && line[0] == path[0] && forall y :: y in line ==> y in path
    decreases |path|
  {
    if path[0] == h || |path| == 1 {
      line := [path[0]];
    } else {
      var rest := Truncate(s, t, h, path[1..]);
      line := [path[0]] + rest;
      assert line[1..] == rest;
    }
  }

  /** A rejected fresh candidate leaves every block's state as it was. */
  lemma RejectFreshRefines(s: Store, h: Hash, restore: Option<Hash>)
    requires Sound(s) && h !in s.changes && Some(h) != s.finalized
    ensures var t := WithoutBlock(s, h, restore);
            && Sound(t)
            && (forall b :: HasStateAt(t, b) <==> HasStateAt(s, b))
            && (forall b :: HasStateAt(s, b) ==> ViewAt(t, b) == ViewAt(s, b))
  {
    var t := WithoutBlock(s, h, restore);
    forall x | x in t.parents || x == s.finalized.value
      ensures Walk(t, x, {}).Some?
      ensures forall y :: y in Walk(t, x, {}).value ==> y in Walk(s, x, {}).value
    {
      WalkIsLine(s, x, {});
      var line := Truncate(s, t, h, Walk(s, x, {}).value);
      LineIsWalk(t, line, {});
    }
    forall b | HasStateAt(s, b)
      ensures Branch(t, Some(b), {}).Some? && View(t, Branch(t, Some(b), {}).value) == ViewAt(s, b)
    {
      BranchIsBranch(s, Some(b), {});
      BranchRetained(s, BranchTo(s, b));
      RejectKeepsExactly(s, h, restore, b);
    }
  }

  // ---------------------------------------------------------------- finalization

  lemma {:induction false} DescendsAlongLine(s: Store, line: seq<Hash>, target: Hash, seen: set<Hash>)
    requires IsLine(s, line)
    requires forall b :: b in line ==> b !in seen
    ensures Descends(s, line[0], target, seen) <==> target in line
    decreases |line|
  {
    if line[0] != target && |line| > 1 {
      DescendsAlongLine(s, line[1..], target, seen + {line[0]});
    }
  }

  /** A retained block descends from `h` exactly if its branch passes through `h`. */
  lemma DescendsIff(s: Store, h: Hash, c: Hash)
    requires Sound(s) && h in s.changes && c in s.changes
    ensures Descends(s, c, h, {}) <==> h in BranchTo(s, c)
  {
    WalkExtendsBranch(s, c);
    BranchIsBranch(s, Some(c), {});
    DescendsAlongLine(s, Walk(s, c, {}).value, h, {});
  }

  /** Once `h` is finalized, what was above it on a branch is the whole branch. */
  lemma {:induction false} BranchAbove(s: Store, t: Store, above: seq<Hash>, below: seq<Hash>)
    requires IsBranch(s, above + below) && below != [] && t.finalized == Some(below[0])
    requires forall b :: b in above ==> b in t.changes && b != below[0] && ParentOf(t, b) == ParentOf(s, b)
    ensures IsBranch(t, above)
    decreases |above|
  {
    if above != [] {
      assert (above + below)[1..] == above[1..] + below;
      BranchAbove(s, t, above[1..], below);
    }
  }

  lemma {:induction false} ViewAbove(s: Store, t: Store, above: seq<Hash>, below: seq<Hash>)
    requires t.base == View(s, below)
    requires forall b :: b in above ==> ChangesOf(t, b) == ChangesOf(s, b)
    ensures View(t, above) == View(s, above + below)
    decreases |above|
  {
    if above == [] {
      assert above + below == below;
    } else {
      assert (above + below)[1..] == above[1..] + below;
      ViewAbove(s, t, above[1..], below);
    }
  }

  /** The blocks on the upper part of a branch through `h` are all retained. */
  lemma AboveIsKept(s: Store, h: Hash, above: seq<Hash>, below: seq<Hash>)
    requires Sound(s) && h in s.changes
    requires IsBranch(s, above + below) && below == BranchTo(s, h)
    requires forall b :: b in above ==> b !in below
    ensures forall b :: b in above ==> b in Retained(s, h, below)
    decreases |above|
  {
    if above != [] {
      var path := above + below;
      assert path[1..] == above[1..] + below;
      AboveIsKept(s, h, above[1..], below);
      BranchIsFound(s, path, {});
      BranchRetained(s, path);
      BranchIsBranch(s, Some(h), {});
      assert h == below[0] && h in path;
      DescendsIff(s, h, above[0]);
    }
  }

  lemma FinalizedStore(s: Store, h: Hash) returns (t: Store)
    requires Sound(s) && h in s.changes && s.pending == map[]
    ensures Finalize(s, h) == Success(t)
    ensures t.base == ViewAt(s, h) && t.finalized == Some(h) && ParentOf(t, h) == None
    ensures forall b :: b in Retained(s, h, BranchTo(s, h)) ==>
              b in t.changes && t.changes[b] == s.changes[b] && (b != h ==> ParentOf(t, b) == ParentOf(s, b))
    ensures var kept := Retained(s, h, BranchTo(s, h));
            && kept <= s.changes.Keys && h !in kept && t.changes.Keys == kept && t.parents.Keys == kept + {h}
            && t.selected == if s.selected.Some? && s.selected.value in kept + {h} then s.selected else Some(h)
  {
    BranchIsBranch(s, Some(h), {});
    BranchRetained(s, BranchTo(s, h));
    BranchHasTip(s, h);
    t := Finalize(s, h).value;
    var kept := Retained(s, h, BranchTo(s, h));
    assert t.changes.Keys == kept;
    assert t.parents.Keys == kept + {h};
  }

  lemma BranchHasTip(s: Store, h: Hash)
    requires Sound(s) && h in s.changes
    ensures h in BranchTo(s, h)
  {
    BranchIsBranch(s, Some(h), {});
    assert Some(h) != s.finalized;
  }

  /** The part of a retained block's branch above `h` is its branch afterwards, with the same view. */
  lemma KeptBranch(s: Store, h: Hash, d: Hash, t: Store) returns (above: seq<Hash>)
    requires Sound(s) && h in s.changes && s.pending == map[]
    requires d in Retained(s, h, BranchTo(s, h))
    requires t.base == ViewAt(s, h) && t.finalized == Some(h)
    requires forall b :: b in Retained(s, h, BranchTo(s, h)) ==>
               b in t.changes && t.changes[b] == s.changes[b] && (b != h ==> ParentOf(t, b) == ParentOf(s, b))
    ensures h !in above && IsBranch(t, above)
    ensures forall b :: b in above ==> b in Retained(s, h, BranchTo(s, h))
    ensures Branch(t, Some(d), {}) == Some(above)
    ensures View(t, above) == ViewAt(s, d)
  {
    DescendsIff(s, h, d);
    BranchIsBranch(s, Some(h), {});
    BranchIsBranch(s, Some(d), {});
    var below;
    above, below := SplitBranch(s, BranchTo(s, d), h);
    BranchIsFound(s, below, {});
    AboveIsKept(s, h, above, below);
    BranchAbove(s, t, above, below);
    BranchIsFound(t, above, {});
    ViewAbove(s, t, above, below);
  }

  lemma {:induction false} LineToFinal(t: Store, above: seq<Hash>, h: Hash)
    requires IsBranch(t, above) && t.finalized == Some(h) && ParentOf(t, h) == None
    requires h !in above
    ensures IsLine(t, above + [h])
    decreases |above|
  {
    if above != [] {
      assert (above + [h])[1..] == above[1..] + [h];
      LineToFinal(t, above[1..], h);
    }
  }

  /** A block is kept exactly if the finalized one is below it. */
  lemma KeptAbove(s: Store, h: Hash, b: Hash)
    requires Sound(s) && h in s.changes && b in s.changes
    ensures b in Retained(s, h, BranchTo(s, h)) <==> b != h && h in BranchTo(s, b)
  {
    BranchIsBranch(s, Some(h), {});
    BranchRetained(s, BranchTo(s, h));
    DescendsIff(s, h, b);
    if b in BranchTo(s, h) && h in BranchTo(s, b) {
      OnePathEach(s, h, b);
    }
  }

  /**
   Finalizing a retained block keeps exactly that block and its descendants, each with
   the state it had, makes its state the base, and drops every other fork.
   */
  lemma FinalizeRefines(s: Store, h: Hash)
    requires Sound(s) && h in s.changes && s.pending == map[]
    ensures Finalize(s, h).Success?
    ensures var t := Finalize(s, h).value;
            && Sound(t)
            && t.finalized == Some(h) && t.base == ViewAt(s, h)
            && (forall b :: HasStateAt(t, b) <==> b == h || (b in s.changes && h in BranchTo(s, b)))
            && (forall b :: HasStateAt(t, b) ==> HasStateAt(s, b) && ViewAt(t, b) == ViewAt(s, b))
            && (t.selected == if s.selected.Some? && HasStateAt(t, s.selected.value) then s.selected else Some(h))
  {
    hide Finalize, Retained, Descends;
    var t := FinalizedStore(s, h);
    var kept := Retained(s, h, BranchTo(s, h));
    assert IsLine(t, [h]);
    LineIsWalk(t, [h], {});
    forall d | d in kept + {h}
      ensures Branch(t, Some(d), {}).Some? && Walk(t, d, {}).Some?
      ensures View(t, Branch(t, Some(d), {}).value) == ViewAt(s, d)
    {
      if d in kept {
        var above := KeptBranch(s, h, d, t);
        LineToFinal(t, above, h);
        LineIsWalk(t, above + [h], {});
      }
    }
    forall b | b in s.changes
      ensures b in kept <==> b != h && h in BranchTo(s, b)
    {
      KeptAbove(s, h, b);
    }
  }

  /** Two retained blocks on each other's branches are the same block. */
  lemma OnePathEach(s: Store, h: Hash, b: Hash)
    requires Sound(s) && h in s.changes && b in s.changes
    requires b in BranchTo(s, h) && h in BranchTo(s, b)
    ensures b == h
  {
    BranchIsBranch(s, Some(h), {});
    BranchIsBranch(s, Some(b), {});
    var x, y := SplitBranch(s, BranchTo(s, h), b);
    var u, v := SplitBranch(s, BranchTo(s, b), h);
    BranchIsFound(s, y, {});
    BranchIsFound(s, v, {});
    assert |y| == |u| + |v| && |v| == |x| + |y|;
  }
}
