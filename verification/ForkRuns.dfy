/** Whole runs of the store against a plain map from block hash to full state. */
module ForkRuns {
  import opened Octets
  import opened Options
  import opened ForkedStore
  import opened ForkLaws

  datatype Write = Store(key: Bytes, value: Bytes) | Remove(key: Bytes)

  datatype Event =
    | Import(hash: Hash, parent: Hash, writes: seq<Write>)
    | Reject(hash: Hash, parent: Hash, writes: seq<Write>, restore: Option<Hash>)
    | Choose(hash: Hash)
    | Settle(hash: Hash)

  function WriteAll(s: ForkedStore.Store, ws: seq<Write>): ForkedStore.Store {
    if ws == [] then s
    else
      var t := WriteAll(s, ws[..|ws| - 1]);
      match ws[|ws| - 1]
      case Store(k, v) => Put(t, k, v)
      case Remove(k) => Delete(t, k)
  }

  function Collected(ws: seq<Write>): Changes {
    if ws == [] then map[]
    else
      var c := Collected(ws[..|ws| - 1]);
      match ws[|ws| - 1]
      case Store(k, v) => c[k := Written(v)]
      case Remove(k) => c[k := Deleted]
  }

  /** The operations behind one event; a failing operation fails the event. */
  function Perform(s: ForkedStore.Store, e: Event): Result<ForkedStore.Store> {
    match e
    case Import(h, p, ws) =>
      (match SetBlock(s, h, p)
       case Failure(error) => Failure(error)
       case Success(t) => Commit(WriteAll(t, ws)))
    case Reject(h, p, ws, restore) =>
      (match SetBlock(s, h, p)
       case Failure(error) => Failure(error)
       case Success(t) => Discard(WriteAll(t, ws), h, restore))
    case Choose(h) => SelectBlock(s, h)
    case Settle(h) => Finalize(s, h)
  }

  // ---------------------------------------------------------------- the reference

  /** A block's full state, the blocks from it down to the finalized one, and what it wrote itself. */
  datatype Node = Node(state: State, branch: seq<Hash>, writes: Changes)

  type Reference = map<Hash, Node>

  function Expect(m: Reference, e: Event): Reference {
    match e
    case Import(h, p, ws) =>
      if p !in m then m
      else
        Imported(m, h, Node(Apply(m[p].state, Collected(ws)), [h] + m[p].branch, Collected(ws)))
    case Reject(_, _, _, _) => m
    case Choose(_) => m
    case Settle(h) =>
      if h !in m || m[h].branch == [] then m
      else Settled(m, h)
  }

  /** Only the block and what is above it stay; their branches now end above the block. */
  function Settled(m: Reference, h: Hash): Reference
    requires h in m
  {
    map d | d in m && (d == h || h in m[d].branch) ::
      Node(m[d].state, m[d].branch[..Excess(m, h, d)], if d == h then map[] else m[d].writes)
  }

  function Imported(m: Reference, h: Hash, n: Node): (r: Reference)
    ensures r.Keys == m.Keys + {h}
  {
    map d | d in m.Keys + {h} :: if d == h then n else if h in m[d].branch then Moved(m, h, n, d) else m[d]
  }

  /** A block above `h` when `h` is imported again as `n`: what was above `h` is done again on top of it. */
  function Moved(m: Reference, h: Hash, n: Node, d: Hash): Node
    requires d in m
  {
    var above := Above(m[d].branch, h);
    Node(Redone(m, above, n.state), above + n.branch, m[d].writes)
  }

  function Redone(m: Reference, above: seq<Hash>, state: State): State {
    if above == [] then state
    else
      var rest := Redone(m, above[1..], state);
      if above[0] in m then Apply(rest, m[above[0]].writes) else rest
  }

  function Excess(m: Reference, h: Hash, d: Hash): nat
    requires h in m && d in m
  {
    if |m[d].branch| >= |m[h].branch| then |m[d].branch| - |m[h].branch| else 0
  }

  ghost function NodeAt(s: ForkedStore.Store, b: Hash): Node
    requires Sound(s) && HasStateAt(s, b)
  {
    Node(ViewAt(s, b), BranchTo(s, b), ChangesOf(s, b))
  }

  ghost predicate Shows(s: ForkedStore.Store, m: Reference) {
    && Sound(s) && s.pending == map[]
    && (forall b :: b in m <==> HasStateAt(s, b))
    && (forall b :: b in m ==> m[b] == NodeAt(s, b))
  }

  /** What the importer checks, or arranges, before an event. */
  ghost predicate Allowed(s: ForkedStore.Store, e: Event)
    requires Sound(s)
  {
    match e
    case Import(h, p, _) => HasStateAt(s, p) && Outside(s, h, p) && h != ZeroHash()
    case Reject(h, p, _, restore) =>
      && HasStateAt(s, p) && h !in s.changes && Some(h) != s.finalized
      && (restore.Some? ==> HasStateAt(s, restore.value))
    case Choose(h) => HasStateAt(s, h)
    case Settle(h) => HasStateAt(s, h)
  }

  lemma {:induction false} WritesCollect(s: ForkedStore.Store, ws: seq<Write>)
    requires s.selected.Some? && s.pending == map[]
    ensures WriteAll(s, ws) == s.(pending := Collected(ws))
  {
    if ws != [] {
      WritesCollect(s, ws[..|ws| - 1]);
    }
  }

  lemma SettledBranch(s: ForkedStore.Store, t: ForkedStore.Store, h: Hash, d: Hash)
    requires Sound(s) && h in s.changes && s.pending == map[] && d in s.changes && d != h && h in BranchTo(s, d)
    requires Sound(t) && HasStateAt(t, d) && t.base == ViewAt(s, h) && t.finalized == Some(h)
    requires forall b :: b in Retained(s, h, BranchTo(s, h)) ==>
               b in t.changes && t.changes[b] == s.changes[b] && (b != h ==> ParentOf(t, b) == ParentOf(s, b))
    requires d in Retained(s, h, BranchTo(s, h))
    ensures |BranchTo(s, d)| == |BranchTo(t, d)| + |BranchTo(s, h)|
    ensures BranchTo(t, d) == BranchTo(s, d)[..|BranchTo(t, d)|]
  {
    var above := KeptBranch(s, h, d, t);
    hide Sound, Retained, IsBranch, Branch, View;
    BranchSplits(s, h, d, t, above);
  }

  lemma SettledNode(s: ForkedStore.Store, m: Reference, t: ForkedStore.Store, h: Hash, d: Hash)
    requires Shows(s, m) && h in s.changes && d in s.changes && d != h && h in BranchTo(s, d)
    requires Sound(t) && HasStateAt(t, d) && t.base == ViewAt(s, h) && t.finalized == Some(h)
    requires forall b :: b in Retained(s, h, BranchTo(s, h)) ==>
               b in t.changes && t.changes[b] == s.changes[b] && (b != h ==> ParentOf(t, b) == ParentOf(s, b))
    requires ViewAt(t, d) == ViewAt(s, d)
    ensures d in m && NodeAt(t, d) == Node(m[d].state, m[d].branch[..Excess(m, h, d)], m[d].writes)
  {
    hide Sound, Walk, Branch, View, IsBranch, Descends;
    DescendsIff(s, h, d);
    if d in BranchTo(s, h) {
      OnePathEach(s, h, d);
    }
    SettledBranch(s, t, h, d);
  }

  lemma SettleShows(s: ForkedStore.Store, m: Reference, h: Hash)
    requires Shows(s, m) && h in s.changes
    ensures Finalize(s, h).Success? && Shows(Finalize(s, h).value, Expect(m, Settle(h)))
  {
    hide Sound, Walk, Branch, View, IsBranch, Descends, Retained, ViewAt, NodeAt, Excess;
    FinalizeRefines(s, h);
    var t := FinalizedStore(s, h);
    BranchHasTip(s, h);
    ShownNode(s, m, h);
    assert m[h].branch != [];
    forall d | HasStateAt(t, d)
      ensures d in Settled(m, h) && NodeAt(t, d) == Settled(m, h)[d]
    {
      ShownNode(s, m, d);
      if d == h {
        SettledTip(s, m, t, h);
      } else {
        SettledNode(s, m, t, h, d);
      }
    }
    forall d | d in Settled(m, h)
      ensures HasStateAt(t, d)
    {
      ShownNode(s, m, d);
      OnlyAbove(s, h, d);
    }
  }

  lemma OnlyAbove(s: ForkedStore.Store, h: Hash, d: Hash)
    requires Sound(s) && HasStateAt(s, d)
    ensures h in BranchTo(s, d) ==> d in s.changes
  {
  }

  lemma SettledTip(s: ForkedStore.Store, m: Reference, t: ForkedStore.Store, h: Hash)
    requires Shows(s, m) && HasStateAt(s, h)
    requires Sound(t) && HasStateAt(t, h) && t.finalized == Some(h) && h !in t.changes && t.base == ViewAt(s, h)
    ensures h in m && NodeAt(t, h) == Node(m[h].state, m[h].branch[..Excess(m, h, h)], map[])
  {
    assert BranchTo(t, h) == [];
  }

  lemma BranchSplits(s: ForkedStore.Store, h: Hash, d: Hash, t: ForkedStore.Store, above: seq<Hash>)
    requires Sound(s) && h in s.changes && d in s.changes && h in BranchTo(s, d)
    requires h !in above && t.finalized == Some(h) && Branch(t, Some(d), {}) == Some(above)
    requires forall b :: b in above ==> ParentOf(t, b) == ParentOf(s, b)
    ensures |BranchTo(s, d)| == |above| + |BranchTo(s, h)|
    ensures BranchTo(s, d)[..|above|] == above
  {
    BranchIsBranch(s, Some(d), {});
    var upper, below := SplitBranch(s, BranchTo(s, d), h);
    BranchIsFound(s, below, {});
    BranchIsBranch(t, Some(d), {});
    SameAbove(s, t, upper, below, above);
  }

  lemma {:induction false} SameAbove(s: ForkedStore.Store, t: ForkedStore.Store, upper: seq<Hash>, below: seq<Hash>,
      above: seq<Hash>)
    requires IsBranch(s, upper + below) && below != [] && t.finalized == Some(below[0])
    requires IsBranch(t, above) && below[0] !in above && below[0] !in upper
    requires forall b :: b in above ==> ParentOf(t, b) == ParentOf(s, b)
    requires (upper + below)[0] == (above + [below[0]])[0]
    ensures upper == above
    decreases |upper| + |above|
  {
    if upper != [] && above != [] {
      assert (upper + below)[1..] == upper[1..] + below;
      assert (upper + below)[1] == (upper[1..] + below)[0];
      assert (above + [below[0]])[1] == (above[1..] + [below[0]])[0];
      SameAbove(s, t, upper[1..], below, above[1..]);
    }
  }

  /** One event keeps the store and the reference in step. */
  lemma EventShows(s: ForkedStore.Store, m: Reference, e: Event)
    requires Shows(s, m) && Allowed(s, e)
    ensures Perform(s, e).Success? && Shows(Perform(s, e).value, Expect(m, e))
  {
    match e
    case Import(h, p, ws) =>
      ImportIs(s, h, p, Collected(ws));
      WritesCollect(WithBlock(s, h, p, map[]), ws);
      ImportRefines(s, h, p, Collected(ws));
      ImportShows(s, m, h, p, ws);
    case Reject(h, p, ws, restore) =>
      RejectIs(s, h, p, Collected(ws), restore);
      WritesCollect(SetBlock(s, h, p).value, ws);
      RejectFreshRefines(s, h, restore);
      RejectShows(s, m, h, restore);
    case Choose(h) =>
      ChooseShows(s, m, h);
    case Settle(h) =>
      if Some(h) != s.finalized {
        SettleShows(s, m, h);
      } else {
        assert BranchTo(s, h) == [];
      }
  }

  lemma {:induction false} RedoneIsStacked(s: ForkedStore.Store, m: Reference, above: seq<Hash>, state: State)
    requires forall b :: b in above ==> b in m && m[b].writes == ChangesOf(s, b)
    ensures Redone(m, above, state) == Stacked(s, above, state)
  {
    if above != [] {
      RedoneIsStacked(s, m, above[1..], state);
    }
  }

  lemma {:induction false} AboveIsPart(path: seq<Hash>, h: Hash)
    ensures forall b :: b in Above(path, h) ==> b in path
  {
    if path != [] && path[0] != h {
      AboveIsPart(path[1..], h);
    }
  }

  lemma MovedShows(s: ForkedStore.Store, m: Reference, h: Hash, p: Hash, writes: Changes, n: Node, b: Hash)
    requires Shows(s, m) && HasStateAt(s, p) && Outside(s, h, p)
    requires n == Node(Apply(ViewAt(s, p), writes), [h] + BranchTo(s, p), writes)
    requires HasStateAt(s, b) && b != h && h in BranchTo(s, b)
    ensures var t := WithBlock(s, h, p, writes);
            && Branch(t, Some(b), {}).Some?
            && Moved(m, h, n, b) == Node(View(t, Branch(t, Some(b), {}).value), Branch(t, Some(b), {}).value,
               ChangesOf(t, b))
  {
    var above := Above(BranchTo(s, b), h);
    BranchIsBranch(s, Some(b), {});
    BranchRetained(s, BranchTo(s, b));
    AboveIsPart(BranchTo(s, b), h);
    hide Sound, Branch, View, Outside, Apply, Stacked, Redone;
    MovedBranch(s, h, p, writes, b);
    OldView(s, h, p, writes, b);
    RedoneIsStacked(s, m, above, n.state);
  }

  lemma ImportedNode(s: ForkedStore.Store, m: Reference, h: Hash, p: Hash, writes: Changes, n: Node, b: Hash)
    requires Shows(s, m) && HasStateAt(s, p) && Outside(s, h, p)
    requires n == Node(Apply(ViewAt(s, p), writes), [h] + BranchTo(s, p), writes)
    requires b == h || HasStateAt(s, b)
    ensures var t := WithBlock(s, h, p, writes);
            && Sound(t) && HasStateAt(t, b)
            && NodeAt(t, b) == if b == h then n else if h in BranchTo(s, b) then Moved(m, h, n, b) else m[b]
  {
    hide Sound, Branch, View, Outside, Apply, Stacked, Moved;
    ImportRefines(s, h, p, writes);
    if b == h {
      NewBranch(s, h, p, writes);
    } else if h in BranchTo(s, b) {
      MovedShows(s, m, h, p, writes, n, b);
    } else {
      OldBranch(s, h, p, writes, b);
    }
  }

  lemma ImportShows(s: ForkedStore.Store, m: Reference, h: Hash, p: Hash, ws: seq<Write>)
    requires Shows(s, m) && HasStateAt(s, p) && Outside(s, h, p)
    ensures Shows(WithBlock(s, h, p, Collected(ws)), Expect(m, Import(h, p, ws)))
  {
    hide Sound, Outside, Collected, Apply, Moved, ViewAt, NodeAt;
    var writes := Collected(ws);
    var t := WithBlock(s, h, p, writes);
    ShownNode(s, m, p);
    var n := Node(Apply(ViewAt(s, p), writes), [h] + BranchTo(s, p), writes);
    ImportedNode(s, m, h, p, writes, n, h);
    forall b | HasStateAt(s, b)
      ensures HasStateAt(t, b) && NodeAt(t, b) == Imported(m, h, n)[b]
    {
      ShownNode(s, m, b);
      ImportedNode(s, m, h, p, writes, n, b);
    }
  }

  lemma ShownNode(s: ForkedStore.Store, m: Reference, p: Hash)
    requires Shows(s, m) && HasStateAt(s, p)
    ensures p in m && m[p].state == ViewAt(s, p) && m[p].branch == BranchTo(s, p)
  {
  }

  lemma SameBranches(s: ForkedStore.Store, t: ForkedStore.Store, m: Reference)
    requires Shows(s, m) && Sound(t) && t.pending == map[] && t.finalized == s.finalized && t.base == s.base
    requires t.changes == s.changes
    requires forall b :: b in s.changes ==> ParentOf(t, b) == ParentOf(s, b)
    ensures Shows(t, m)
  {
    forall b | HasStateAt(s, b)
      ensures BranchTo(t, b) == BranchTo(s, b) && ViewAt(t, b) == ViewAt(s, b)
    {
      BranchIsBranch(s, Some(b), {});
      BranchRetained(s, BranchTo(s, b));
      BranchFrame(s, t, BranchTo(s, b));
      BranchIsFound(t, BranchTo(s, b), {});
      ViewFrame(s, t, BranchTo(s, b));
    }
  }

  lemma RejectShows(s: ForkedStore.Store, m: Reference, h: Hash, restore: Option<Hash>)
    requires Shows(s, m) && h !in s.changes && Some(h) != s.finalized
    ensures Shows(WithoutBlock(s, h, restore), m)
  {
    var t := WithoutBlock(s, h, restore);
    RejectFreshRefines(s, h, restore);
    assert t.changes == s.changes;
    SameBranches(s, t, m);
  }

  lemma ChooseShows(s: ForkedStore.Store, m: Reference, h: Hash)
    requires Shows(s, m)
    ensures Shows(s.(selected := Some(h)), m)
  {
    var t := s.(selected := Some(h));
    SelectionIsNoState(s, h);
    SameBranches(s, t, m);
  }

  lemma SelectionIsNoState(s: ForkedStore.Store, h: Hash)
    requires Sound(s)
    ensures Sound(s.(selected := Some(h)))
  {
    var t := s.(selected := Some(h));
    forall x | x in s.parents || x == s.finalized.value
      ensures Walk(t, x, {}) == Walk(s, x, {})
    {
      WalkIsLine(s, x, {});
      LineFrame(s, t, Walk(s, x, {}).value);
      LineIsWalk(t, Walk(s, x, {}).value, {});
    }
    forall b | b in s.changes
      ensures Branch(t, Some(b), {}).Some?
    {
      BranchIsBranch(s, Some(b), {});
      BranchRetained(s, BranchTo(s, b));
      BranchFrame(s, t, BranchTo(s, b));
      BranchIsFound(t, BranchTo(s, b), {});
    }
  }

  /** The store after a run of events, if no operation fails. */
  function AfterRun(s: ForkedStore.Store, es: seq<Event>): Result<ForkedStore.Store> {
    if es == [] then Success(s)
    else
      match AfterRun(s, es[..|es| - 1])
      case Failure(error) => Failure(error)
      case Success(t) => Perform(t, es[|es| - 1])
  }

  function Expected(m: Reference, es: seq<Event>): Reference {
    if es == [] then m else Expect(Expected(m, es[..|es| - 1]), es[|es| - 1])
  }

  ghost predicate WellFormed(s: ForkedStore.Store, es: seq<Event>) {
    es != [] ==>
      && WellFormed(s, es[..|es| - 1])
      && match AfterRun(s, es[..|es| - 1])
         case Failure(_) => false
         case Success(t) => Sound(t) && Allowed(t, es[|es| - 1])
  }

  /**
   Over any well-formed run no operation fails, and the store shows for every block the
   full state that the plain map holds for it.
   */
  lemma {:induction false} RunRefines(s: ForkedStore.Store, m: Reference, es: seq<Event>)
    requires Shows(s, m) && WellFormed(s, es)
    ensures AfterRun(s, es).Success? && Shows(AfterRun(s, es).value, Expected(m, es))
  {
    if es != [] {
      RunRefines(s, m, es[..|es| - 1]);
      EventShows(AfterRun(s, es[..|es| - 1]).value, Expected(m, es[..|es| - 1]), es[|es| - 1]);
    }
  }
}
