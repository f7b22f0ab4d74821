/**
 The simulator itself: mutable entries that refer to one another, a buffer whose
 retired prefix is deleted, and one loop.  Every branch is proved to be the step
 of the unbounded machine in ReorderBuffer.dfy.
 */
module GasModel {
  import opened Octets
  import opened Options
  import opened ExecutionUnits
  import opened ReorderBuffer
  import opened Instructions
  import opened BasicBlocks
  import opened CriticalPath

  class Entry {
    var phase: Phase
    var left: nat
    var deps: seq<Entry>
    var regs: set<nat>
    const units: Units
    ghost const index: nat  // its place in the unbounded buffer

    constructor (left: nat, deps: seq<Entry>, regs: set<nat>, units: Units, ghost index: nat)
      ensures phase == Decoded && this.left == left && this.deps == deps && this.regs == regs
      ensures this.units == units && this.index == index
    {
      phase := Decoded;
      this.left, this.deps, this.regs, this.units, this.index := left, deps, regs, units, index;
    }

    predicate IsReady(available: Units)
      reads this, deps
    {
      && phase == Waiting
      && units.Fits(available)
      && forall d :: d in deps ==> d.left == 0
    }
  }

  // ---------------------------------------------------------------- the simulation relation

  ghost predicate MirrorsSlot(e: Entry, x: Slot)
    reads e
  {
    && !x.phase.Retired?
    && e.phase == x.phase && e.left == x.left && e.regs == x.regs && e.units == x.units
  }

  /** Until it starts, an entry refers to its live dependencies, and to nothing else that has cycles left. */
  ghost predicate LinksSlot(all: seq<Entry>, k: nat, e: Entry, x: Slot)
    reads e
  {
    x.phase.Decoded? || x.phase.Waiting? ==>
      && (forall f :: f in e.deps ==> f.index in x.deps && f.index < |all| && all[f.index] == f)
      && (forall d :: d in x.deps && k <= d < |all| ==> all[d] in e.deps)
  }

  /** `all` lists every entry ever made; the first `k` of them have retired. */
  ghost predicate Mirrors(all: seq<Entry>, k: nat, slots: seq<Slot>)
    reads all
  {
    && |all| == |slots| && k <= |all|
    && (forall i :: 0 <= i < |all| ==> all[i].index == i)
    && (forall i :: 0 <= i < k ==> slots[i].phase.Retired? && slots[i].left == 0 && all[i].left == 0)
    && (forall i :: k <= i < |all| ==> MirrorsSlot(all[i], slots[i]))
    && (forall i :: k <= i < |all| ==> LinksSlot(all, k, all[i], slots[i]))
  }

  lemma {:induction false} LiveAfterPrefix(slots: seq<Slot>, k: nat, n: nat)
    requires n <= |slots|
    requires forall i :: 0 <= i < k && i < n ==> slots[i].phase.Retired?
    requires forall i :: k <= i < n ==> !slots[i].phase.Retired?
    ensures LiveIn(slots, n) == if n <= k then 0 else n - k
  {
    if n > 0 {
      LiveAfterPrefix(slots, k, n - 1);
    }
  }

  lemma MirroredLive(all: seq<Entry>, k: nat, slots: seq<Slot>)
    requires Mirrors(all, k, slots)
    ensures Live(slots) == |all[k..]|
  {
    LiveAfterPrefix(slots, k, |slots|);
  }

  lemma MirroredReady(all: seq<Entry>, k: nat, slots: seq<Slot>, available: Units, i: nat)
    requires Mirrors(all, k, slots)
    requires k <= i < |all|
    requires forall d :: d in slots[i].deps ==> d < i
    ensures all[i].IsReady(available) <==> Ready(slots, available, i)
  {
    assert MirrorsSlot(all[i], slots[i]);
    assert LinksSlot(all, k, all[i], slots[i]);
    if slots[i].phase.Waiting? {
      forall f | f in all[i].deps
        ensures f.left == slots[f.index].left
      {
        if f.index >= k {
          assert MirrorsSlot(all[f.index], slots[f.index]);
        }
      }
      forall d | d in slots[i].deps && k <= d
        ensures all[d] in all[i].deps && all[d].left == slots[d].left
      {
        assert MirrorsSlot(all[d], slots[d]);
      }
    }
  }

  // ---------------------------------------------------------------- decoding

  predicate Distinct(rob: seq<Entry>) {
    forall i, j :: 0 <= i < j < |rob| ==> rob[i] != rob[j]
  }

  method Rename(rob: seq<Entry>, from: nat, to: nat)
    requires Distinct(rob)
    modifies rob`regs
    ensures forall i :: 0 <= i < |rob| ==>
              rob[i].regs == old(if from in rob[i].regs then rob[i].regs + {to} else rob[i].regs - {to})
  {
    for i := 0 to |rob|
      invariant forall j :: 0 <= j < i ==>
                  rob[j].regs == old(if from in rob[j].regs then rob[j].regs + {to} else rob[j].regs - {to})
      invariant forall j :: i <= j < |rob| ==> rob[j].regs == old(rob[j].regs)
    {
      if from in rob[i].regs {
        rob[i].regs := rob[i].regs + {to};
      } else {
        rob[i].regs := rob[i].regs - {to};
      }
    }
  }

  method Clobber(rob: seq<Entry>, targets: set<nat>)
    requires Distinct(rob)
    modifies rob`regs
    ensures forall i :: 0 <= i < |rob| ==> rob[i].regs == old(rob[i].regs) - targets
  {
    for i := 0 to |rob|
      invariant forall j :: 0 <= j < i ==> rob[j].regs == old(rob[j].regs) - targets
      invariant forall j :: i <= j < |rob| ==> rob[j].regs == old(rob[j].regs)
    {
      rob[i].regs := rob[i].regs - targets;
    }
  }

  method Dependencies(rob: seq<Entry>, sources: set<nat>) returns (deps: seq<Entry>)
    ensures forall e :: e in deps <==> e in rob && e.regs * sources != {}
  {
    deps := [];
    for i := 0 to |rob|
      invariant forall e :: e in deps <==> e in rob[..i] && e.regs * sources != {}
    {
      if rob[i].regs * sources != {} {
        deps := deps + [rob[i]];
      }
    }
  }

  lemma MirroredDistinct(all: seq<Entry>, k: nat, slots: seq<Slot>)
    requires Mirrors(all, k, slots)
    ensures Distinct(all) && Distinct(all[k..])
  {
    forall i, j | 0 <= i < j < |all|
      ensures all[i] != all[j]
    {
      assert all[i].index == i && all[j].index == j;
    }
  }

  method DecodeMove(rob: seq<Entry>, from: nat, to: nat, ghost b: Block, ghost s: Sim, ghost all: seq<Entry>,
      ghost k: nat)
    requires Mirrors(all, k, s.rob) && rob == all[k..]
    requires CanDecode(b, s) && b.ops[s.next].Move? && b.ops[s.next].from == from && b.ops[s.next].to == to
    modifies rob`regs
    ensures Mirrors(all, k, Decode(b, s).rob)
  {
    MirroredDistinct(all, k, s.rob);
    Rename(rob, from, to);
    ghost var slots := Decode(b, s).rob;
    forall i | k <= i < |all|
      ensures MirrorsSlot(all[i], slots[i]) && LinksSlot(all, k, all[i], slots[i])
    {
      assert all[i] == rob[i - k];
      assert old(MirrorsSlot(all[i], s.rob[i]) && LinksSlot(all, k, all[i], s.rob[i]));
    }
  }

  lemma AppendMirrors(all: seq<Entry>, k: nat, slots: seq<Slot>, e: Entry, x: Slot)
    requires Mirrors(all, k, slots)
    requires forall i :: 0 <= i < |slots| ==> forall d :: d in slots[i].deps ==> d < i
    requires e.index == |all| && MirrorsSlot(e, x)
    requires forall f :: f in e.deps ==> f.index in x.deps && f.index < |all| && all[f.index] == f
    requires forall d :: d in x.deps && k <= d ==> d < |all| && all[d] in e.deps
    ensures Mirrors(all + [e], k, slots + [x])
  {
    forall i | k <= i < |all|
      ensures LinksSlot(all + [e], k, all[i], slots[i])
    {
      assert LinksSlot(all, k, all[i], slots[i]);
    }
  }

  lemma MirroredOwners(all: seq<Entry>, k: nat, slots: seq<Slot>, sources: set<nat>, deps: seq<Entry>)
    requires Mirrors(all, k, slots)
    requires forall e :: e in deps <==> e in all[k..] && e.regs * sources != {}
    ensures forall f :: f in deps ==>
              f.index in Owners(slots, sources) && f.index < |all| && all[f.index] == f
    ensures forall d :: d in Owners(slots, sources) && k <= d ==> d < |all| && all[d] in deps
  {
    forall f | f in deps
      ensures f.index in Owners(slots, sources) && f.index < |all| && all[f.index] == f
    {
      var j :| 0 <= j < |all[k..]| && all[k..][j] == f;
      assert MirrorsSlot(all[k + j], slots[k + j]);
    }
    forall d | d in Owners(slots, sources) && k <= d
      ensures all[d] in deps
    {
      assert MirrorsSlot(all[d], slots[d]);
      assert all[k..][d - k] == all[d];
    }
  }

  method ClobberMirrored(rob: seq<Entry>, targets: set<nat>, ghost all: seq<Entry>, ghost k: nat,
                         ghost slots: seq<Slot>, ghost after: seq<Slot>)
    requires Mirrors(all, k, slots) && rob == all[k..]
    requires |after| == |slots|
    requires forall i :: 0 <= i < |slots| ==> after[i] == slots[i].(regs := slots[i].regs - targets)
    modifies rob`regs
    ensures Mirrors(all, k, after)
  {
    MirroredDistinct(all, k, slots);
    Clobber(rob, targets);
    forall i | k <= i < |all|
      ensures MirrorsSlot(all[i], after[i]) && LinksSlot(all, k, all[i], after[i])
    {
      assert all[i] == rob[i - k];
      assert old(MirrorsSlot(all[i], slots[i]) && LinksSlot(all, k, all[i], slots[i]));
    }
  }

  method DecodeWork(rob: seq<Entry>, op: Op, ghost b: Block, ghost s: Sim, ghost all: seq<Entry>, ghost k: nat)
      returns (e: Entry)
    requires Inv(b, s) && Mirrors(all, k, s.rob) && rob == all[k..]
    requires CanDecode(b, s) && b.ops[s.next] == op && op.Work?
    modifies rob`regs
    ensures fresh(e)
    ensures Mirrors(all + [e], k, Decode(b, s).rob)
  {
    var deps := Dependencies(rob, op.sources);
    MirroredOwners(all, k, s.rob, op.sources, deps);
    ghost var slots, n := Decode(b, s).rob, |all|;
    ClobberMirrored(rob, op.targets, all, k, s.rob, slots[..n]);
    e := new Entry(op.cycles, deps, op.targets, op.units, |all|);
    forall i | 0 <= i < n
      ensures forall d :: d in slots[..n][i].deps ==> d < i
    {
      assert SlotShape(b, s.rob[i], i);
    }
    AppendMirrors(all, k, slots[..n], e, slots[n]);
    assert slots[..n] + [slots[n]] == slots;
  }

  // ---------------------------------------------------------------- starting

  method FindReady(rob: seq<Entry>, available: Units) returns (i: nat)
    ensures i <= |rob|
    ensures forall j :: 0 <= j < i ==> !rob[j].IsReady(available)
    ensures i < |rob| ==> rob[i].IsReady(available)
  {
    i := 0;
    while i < |rob| && !rob[i].IsReady(available)
      invariant i <= |rob|
      invariant forall j :: 0 <= j < i ==> !rob[j].IsReady(available)
    {
      i := i + 1;
    }
  }

  lemma {:induction false} FirstReadyIs(slots: seq<Slot>, available: Units, from: nat, i: nat)
    requires from <= i <= |slots|
    requires forall j :: from <= j < i ==> !Ready(slots, available, j)
    requires i < |slots| ==> Ready(slots, available, i)
    ensures FirstReady(slots, available, from) == i
    decreases i - from
  {
    if from < i {
      FirstReadyIs(slots, available, from + 1, i);
    }
  }

  lemma MirroredFirstReady(b: Block, s: Sim, all: seq<Entry>, k: nat, i: nat)
    requires Inv(b, s) && Mirrors(all, k, s.rob)
    requires k <= i <= |all|
    requires forall j :: k <= j < i ==> !all[j].IsReady(s.units)
    requires i < |all| ==> all[i].IsReady(s.units)
    ensures FirstReady(s.rob, s.units, 0) == i
  {
    forall j | 0 <= j < |all|
      ensures j < k ==> !Ready(s.rob, s.units, j)
      ensures j >= k ==> (all[j].IsReady(s.units) <==> Ready(s.rob, s.units, j))
    {
      assert SlotShape(b, s.rob[j], j);
      if j >= k {
        MirroredReady(all, k, s.rob, s.units, j);
      }
    }
    FirstReadyIs(s.rob, s.units, 0, i);
  }

  method StartEntry(e: Entry, ghost s: Sim, ghost all: seq<Entry>, ghost k: nat)
    requires CanStart(s) && Mirrors(all, k, s.rob)
    requires k <= FirstReady(s.rob, s.units, 0) && e == all[FirstReady(s.rob, s.units, 0)]
    modifies e
    ensures Mirrors(all, k, Start(s).rob)
  {
    e.phase := Executing;
    e.deps := [];
    ghost var slots, m := Start(s).rob, FirstReady(s.rob, s.units, 0);
    forall i | 0 <= i < |all|
      ensures i != m ==> all[i] != e
      ensures i < k ==> all[i].left == 0
      ensures i >= k ==> MirrorsSlot(all[i], slots[i]) && LinksSlot(all, k, all[i], slots[i])
    {
      assert all[i].index == i && all[m].index == m;
      if i >= k {
        assert old(MirrorsSlot(all[i], s.rob[i]) && LinksSlot(all, k, all[i], s.rob[i]));
      }
    }
  }

  // ---------------------------------------------------------------- the clock

  method CountFinished(rob: seq<Entry>) returns (retired: nat)
    ensures retired <= |rob|
    ensures forall i :: 0 <= i < retired ==> rob[i].phase == Finished
    ensures retired < |rob| ==> rob[retired].phase != Finished
  {
    retired := 0;
    while retired < |rob| && rob[retired].phase == Finished
      invariant retired <= |rob|
      invariant forall i :: 0 <= i < retired ==> rob[i].phase == Finished
    {
      retired := retired + 1;
    }
  }

  /** What one tick does to an entry that does not retire. */
  function Aged(phase: Phase, left: nat): (Phase, nat) {
    match phase
    case Decoded => (Waiting, left)
    case Executing => if left == 0 then (Finished, left) else (Executing, left - 1)
    case _ => (phase, left)
  }

  function Older(x: Slot): Slot {
    x.(phase := Aged(x.phase, x.left).0, left := Aged(x.phase, x.left).1)
  }

  ghost function SumReleased(slots: seq<Slot>, from: nat, n: nat): Units
    requires from <= n <= |slots|
    decreases n
  {
    if n == from then Nothing() else SumReleased(slots, from, n - 1).Plus(Releasing(slots[n - 1]))
  }

  lemma {:induction false} ReleasedAfterPrefix(slots: seq<Slot>, from: nat, n: nat)
    requires from <= n <= |slots|
    requires forall i :: 0 <= i < from ==> !slots[i].phase.Executing?
    ensures Released(slots, n) == SumReleased(slots, from, n)
    decreases n
  {
    if n > from {
      ReleasedAfterPrefix(slots, from, n - 1);
    } else if n > 0 {
      ReleasedAfterPrefix(slots, n - 1, n - 1);
    }
  }

  method AgeEntry(e: Entry) returns (released: Units)
    modifies e`phase, e`left
    ensures (e.phase, e.left) == Aged(old(e.phase), old(e.left))
    ensures released == if old(e.phase) == Executing && old(e.left) == 1 then e.units else Nothing()
  {
    released := Nothing();
    if e.phase == Decoded {
      e.phase := Waiting;
    } else if e.phase == Executing {
      if e.left == 1 {
        released := e.units;
      }
      if e.left == 0 {
        e.phase := Finished;
      } else {
        e.left := e.left - 1;
      }
    }
  }

  method AgeEntries(rob: seq<Entry>, units: Units, ghost slots: seq<Slot>, ghost k: nat) returns (available: Units)
    requires Distinct(rob)
    requires |slots| == k + |rob|
    requires forall i :: 0 <= i < |rob| ==>
               rob[i].phase == slots[k + i].phase && rob[i].left == slots[k + i].left &&
                 rob[i].units == slots[k + i].units
    modifies rob`phase, rob`left
    ensures forall i :: 0 <= i < |rob| ==> (rob[i].phase, rob[i].left) == Aged(old(rob[i].phase), old(rob[i].left))
    ensures available == units.Plus(SumReleased(slots, k, |slots|))
  {
    available := units;
    for i := 0 to |rob|
      invariant available == units.Plus(SumReleased(slots, k, k + i))
      invariant forall j :: 0 <= j < i ==> (rob[j].phase, rob[j].left) == Aged(old(rob[j].phase), old(rob[j].left))
      invariant forall j :: i <= j < |rob| ==> rob[j].phase == old(rob[j].phase) && rob[j].left == old(rob[j].left)
    {
      var released := AgeEntry(rob[i]);
      assert released == Releasing(slots[k + i]);
      assert SumReleased(slots, k, k + i + 1) == SumReleased(slots, k, k + i).Plus(released);
      available := available.Plus(released);
    }
  }

  /** The run of finished entries at the front is exactly what retires. */
  lemma FrontRetires(b: Block, s: Sim, k: nat, n: nat)
    requires Inv(b, s) && k + n <= |s.rob|
    requires forall i :: 0 <= i < k ==> s.rob[i].phase.Retired?
    requires forall i :: k <= i < |s.rob| ==> !s.rob[i].phase.Retired?
    requires forall i :: k <= i < k + n ==> s.rob[i].phase.Finished?
    requires k + n < |s.rob| ==> !s.rob[k + n].phase.Finished?
    ensures forall i :: 0 <= i < k + n ==> Advance(s.rob, i).phase.Retired? && Advance(s.rob, i).left == 0
    ensures forall i :: k + n <= i < |s.rob| ==> Advance(s.rob, i) == Older(s.rob[i])
  {
    forall i | 0 <= i < k + n
      ensures Advance(s.rob, i).phase.Retired? && Advance(s.rob, i).left == 0
    {
      assert SlotShape(b, s.rob[i], i);
    }
    forall i | k + n <= i < |s.rob|
      ensures !Retires(s.rob, i)
    {
      assert i > k + n ==> !s.rob[k + n].phase.Finished? && !s.rob[k + n].phase.Retired?;
    }
  }

  lemma {:induction false} ReleasedSame(a: seq<Slot>, b: seq<Slot>, n: nat)
    requires n <= |a| && n <= |b|
    requires forall i :: 0 <= i < n ==> Releasing(a[i]) == Releasing(b[i])
    ensures Released(a, n) == Released(b, n)
  {
    if n > 0 {
      ReleasedSame(a, b, n - 1);
    }
  }

  /** Forgetting entries with no cycles left keeps the relation: they count as retired. */
  lemma DropFront(all: seq<Entry>, k: nat, h: nat, slots: seq<Slot>, mid: seq<Slot>)
    requires Mirrors(all, k, slots) && k <= h <= |all| && |mid| == |slots|
    requires forall i :: k <= i < h ==> slots[i].left == 0
    requires forall i :: 0 <= i < h ==> mid[i].phase.Retired? && mid[i].left == 0
    requires forall i :: h <= i < |slots| ==> mid[i] == slots[i]
    ensures Mirrors(all, h, mid)
  {
    forall i | k <= i < |all|
      ensures i < h ==> all[i].left == 0
      ensures i >= h ==> MirrorsSlot(all[i], mid[i]) && LinksSlot(all, h, all[i], mid[i])
    {
      assert MirrorsSlot(all[i], slots[i]) && LinksSlot(all, k, all[i], slots[i]);
    }
  }

  method AgeMirrored(live: seq<Entry>, units: Units, ghost all: seq<Entry>, ghost h: nat,
                     ghost mid: seq<Slot>, ghost after: seq<Slot>) returns (available: Units)
    requires Mirrors(all, h, mid) && live == all[h..] && |after| == |mid|
    requires forall i :: 0 <= i < h ==> after[i].phase.Retired? && after[i].left == 0
    requires forall i :: h <= i < |mid| ==> after[i] == Older(mid[i])
    modifies live`phase, live`left
    ensures Mirrors(all, h, after)
    ensures available == units.Plus(SumReleased(mid, h, |mid|))
  {
    MirroredDistinct(all, h, mid);
    forall i | 0 <= i < |live|
      ensures MirrorsSlot(live[i], mid[h + i])
    {
      assert MirrorsSlot(all[h + i], mid[h + i]);
    }
    available := AgeEntries(live, units, mid, h);
    forall i | 0 <= i < h
      ensures all[i].left == 0
    {
      assert all[i] !in live;
    }
    forall i | h <= i < |all|
      ensures MirrorsSlot(all[i], after[i]) && LinksSlot(all, h, all[i], after[i])
    {
      assert all[i] == live[i - h];
      assert old(MirrorsSlot(all[i], mid[i]) && LinksSlot(all, h, all[i], mid[i]));
    }
  }

  /** The buffer after retirement and before ageing. */
  function Cleared(rob: seq<Slot>, h: nat): (mid: seq<Slot>)
    ensures |mid| == |rob|
    ensures forall i :: 0 <= i < |rob| ==> mid[i] == if i < h then Advance(rob, i) else rob[i]
  {
    seq(|rob|, i requires 0 <= i < |rob| => if i < h then Advance(rob, i) else rob[i])
  }

  lemma FrontIsFinished(b: Block, s: Sim, all: seq<Entry>, k: nat, n: nat)
    requires Inv(b, s) && Mirrors(all, k, s.rob) && k + n <= |all|
    requires forall i :: k <= i < k + n ==> all[i].phase == Finished
    requires k + n < |all| ==> all[k + n].phase != Finished
    ensures forall i :: 0 <= i < k + n ==> Advance(s.rob, i).phase.Retired? && Advance(s.rob, i).left == 0
    ensures forall i :: k + n <= i < |s.rob| ==> Advance(s.rob, i) == Older(s.rob[i])
    ensures Mirrors(all, k + n, Cleared(s.rob, k + n))
  {
    assert forall i :: k <= i < |all| ==> MirrorsSlot(all[i], s.rob[i]);
    FrontRetires(b, s, k, n);
    assert forall i :: k <= i < k + n ==> SlotShape(b, s.rob[i], i);
    DropFront(all, k, k + n, s.rob, Cleared(s.rob, k + n));
  }

  lemma RetiringReleasesNothing(b: Block, s: Sim, h: nat)
    requires h <= |s.rob|
    requires forall i :: 0 <= i < h ==> Advance(s.rob, i).phase.Retired?
    ensures SumReleased(Cleared(s.rob, h), h, |s.rob|) == Released(s.rob, |s.rob|)
  {
    ReleasedAfterPrefix(Cleared(s.rob, h), h, |s.rob|);
    ReleasedSame(Cleared(s.rob, h), s.rob, |s.rob|);
  }

  /** The entries and the counters of the simulator stand for machine state `s`. */
  ghost predicate Represents(b: Block, s: Sim, all: seq<Entry>, k: nat, rob: seq<Entry>)
    reads all
  {
    k <= |all| && rob == all[k..] && Inv(b, s) && Mirrors(all, k, s.rob)
  }

  /** Neither decoding nor the failure to fetch is next. */
  predicate DecodeStalls(b: Block, s: Sim, live: nat) {
    || live >= ROB_SIZE
    || if s.next < |b.ops| then b.ops[s.next].slots > s.budget else b.closed
  }

  lemma StalledStep(b: Block, s: Sim, all: seq<Entry>, k: nat, rob: seq<Entry>)
    requires b.Valid() && Represents(b, s, all, k, rob) && DecodeStalls(b, s, |rob|)
    ensures !CanDecode(b, s) && !Raises(b, s)
    ensures CanStart(s) ==> Step(b, s) == Start(s) && !Done(b, s)
    ensures !CanStart(s) ==> Step(b, s) == Tick(s)
    ensures s.next >= |b.ops| && b.closed && |rob| == 0 <==> Done(b, s)
  {
    MirroredLive(all, k, s.rob);
    LiveNone(s.rob, |s.rob|);
  }

  lemma InitialRepresents(b: Block)
    requires b.Valid()
    ensures Represents(b, INITIAL, [], 0, [])
    ensures Run(b, INITIAL) == Simulate(b)
  {
    InitialInv(b);
  }

  lemma RunOffTheEnd(b: Block, s: Sim, all: seq<Entry>, k: nat, rob: seq<Entry>)
    requires b.Valid() && Represents(b, s, all, k, rob)
    requires s.next >= |b.ops| && !b.closed && |rob| < ROB_SIZE
    ensures Run(b, s) == Invalid
  {
    MirroredLive(all, k, s.rob);
  }

  lemma AllDone(b: Block, s: Sim, all: seq<Entry>, k: nat, rob: seq<Entry>)
    requires b.Valid() && Represents(b, s, all, k, rob) && DecodeStalls(b, s, |rob|)
    ensures Done(b, s) <==> s.next >= |b.ops| && b.closed && |rob| == 0
    ensures Done(b, s) ==> Run(b, s) == Gas(Gauge(s.cycles))
  {
    StalledStep(b, s, all, k, rob);
  }

  lemma TickStep(b: Block, s: Sim, all: seq<Entry>, k: nat, rob: seq<Entry>)
    requires b.Valid() && Represents(b, s, all, k, rob)
    requires DecodeStalls(b, s, |rob|) && !CanStart(s) && !Done(b, s)
    ensures Inv(b, Tick(s)) && Run(b, Tick(s)) == Run(b, s) && Potential(b, Tick(s)) < Potential(b, s)
  {
    StalledStep(b, s, all, k, rob);
    StepKeepsInv(b, s);
    TickPotential(b, s);
  }

  method TickEntries(rob: seq<Entry>, units: Units, ghost b: Block, ghost s: Sim, ghost all: seq<Entry>, ghost k: nat)
      returns (rob': seq<Entry>, available: Units, ghost s': Sim, ghost k': nat)
    requires b.Valid() && Represents(b, s, all, k, rob) && units == s.units
    requires DecodeStalls(b, s, |rob|) && !CanStart(s) && !Done(b, s)
    modifies rob`phase, rob`left
    ensures Represents(b, s', all, k', rob')
    ensures forall i :: 0 <= i < |rob'| ==> rob'[i] in rob
    ensures Run(b, s') == Run(b, s)
    ensures s' == Sim(s.next, s.cycles + 1, DECODE_BUDGET, START_BUDGET, available, s'.rob)
    ensures Potential(b, s') < Potential(b, s)
  {
    hide Inv, Run, Mirrors, Potential, SumReleased, Released, CanStart, Advance;
    TickStep(b, s, all, k, rob);
    var retired := CountFinished(rob);
    s', k' := Tick(s), k + retired;
    rob' := rob[retired..];
    assert rob' == all[k'..];
    ghost var mid := MiddleOfTick(b, s, all, k, retired, rob);
    available := AgeMirrored(rob', units, all, k', mid, s'.rob);
  }

  lemma MiddleOfTick(b: Block, s: Sim, all: seq<Entry>, k: nat, n: nat, rob: seq<Entry>) returns (mid: seq<Slot>)
    requires Represents(b, s, all, k, rob) && n <= |rob|
    requires forall i :: 0 <= i < n ==> rob[i].phase == Finished
    requires n < |rob| ==> rob[n].phase != Finished
    ensures Mirrors(all, k + n, mid) && |mid| == |Tick(s).rob|
    ensures forall i :: 0 <= i < k + n ==> Tick(s).rob[i].phase.Retired? && Tick(s).rob[i].left == 0
    ensures forall i :: k + n <= i < |mid| ==> Tick(s).rob[i] == Older(mid[i])
    ensures s.units.Plus(SumReleased(mid, k + n, |mid|)) == Tick(s).units
  {
    hide Inv, Advance, SumReleased, Released, Older, MirrorsSlot, LinksSlot;
    assert forall i :: k <= i < |all| ==> all[i] == rob[i - k];
    FrontIsFinished(b, s, all, k, n);
    RetiringReleasesNothing(b, s, k + n);
    mid := Cleared(s.rob, k + n);
  }

  lemma DecodeStep(b: Block, s: Sim, all: seq<Entry>, k: nat, rob: seq<Entry>)
    requires b.Valid() && Represents(b, s, all, k, rob)
    requires |rob| < ROB_SIZE && s.next < |b.ops| && b.ops[s.next].slots <= s.budget
    ensures CanDecode(b, s) && Inv(b, Decode(b, s)) && Run(b, Decode(b, s)) == Run(b, s)
    ensures Potential(b, Decode(b, s)) <= Potential(b, s)
    ensures Decode(b, s) ==
            Sim(s.next + 1, s.cycles, s.budget - b.ops[s.next].slots, s.starts, s.units, Decode(b, s).rob)
  {
    hide Inv, Mirrors, Potential;
    CanDecodeIf(b, s, all, k, rob);
    StepKeepsInv(b, s);
    PotentialOfDecoded(b, s);
  }

  lemma CanDecodeIf(b: Block, s: Sim, all: seq<Entry>, k: nat, rob: seq<Entry>)
    requires Represents(b, s, all, k, rob)
    requires |rob| < ROB_SIZE && s.next < |b.ops| && b.ops[s.next].slots <= s.budget
    ensures CanDecode(b, s)
  {
    MirroredLive(all, k, s.rob);
  }

  lemma PotentialOfDecoded(b: Block, s: Sim)
    requires b.Valid() && Inv(b, s) && CanDecode(b, s)
    ensures Potential(b, Decode(b, s)) <= Potential(b, s)
  {
    DecodePotential(b, s);
  }

  method DecodeNext(rob: seq<Entry>, op: Op, ghost b: Block, ghost s: Sim, ghost all: seq<Entry>, ghost k: nat)
      returns (rob': seq<Entry>, ghost s': Sim, ghost all': seq<Entry>)
    requires b.Valid() && Represents(b, s, all, k, rob)
    requires |rob| < ROB_SIZE && s.next < |b.ops| && b.ops[s.next] == op && op.slots <= s.budget
    modifies rob`regs
    ensures Represents(b, s', all', k, rob')
    ensures forall i :: 0 <= i < |rob'| ==> rob'[i] in rob || fresh(rob'[i])
    ensures Run(b, s') == Run(b, s)
    ensures s' == Sim(s.next + 1, s.cycles, s.budget - op.slots, s.starts, s.units, s'.rob)
    ensures Potential(b, s') <= Potential(b, s)
  {
    hide Inv, Run, Mirrors, Potential, Decode, CanDecode;
    DecodeStep(b, s, all, k, rob);
    s' := Decode(b, s);
    match op {
      case Move(_, to, from) =>
        DecodeMove(rob, from, to, b, s, all, k);
        rob', all' := rob, all;
      case Work(_, _, _, _, _) =>
        var e := DecodeWork(rob, op, b, s, all, k);
        rob', all' := rob + [e], all + [e];
    }
  }

  method StartNext(rob: seq<Entry>, startsLeft: int, units: Units,
                   ghost b: Block, ghost s: Sim, ghost all: seq<Entry>, ghost k: nat)
      returns (started: bool, units': Units, ghost s': Sim)
    requires b.Valid() && Represents(b, s, all, k, rob)
    requires DecodeStalls(b, s, |rob|) && units == s.units && startsLeft == s.starts
    modifies rob
    ensures Represents(b, s', all, k, rob)
    ensures Run(b, s') == Run(b, s)
    ensures started ==> s' == Sim(s.next, s.cycles, s.budget, s.starts - 1, units', s'.rob) && s.starts > 0
    ensures started ==> Potential(b, s') <= Potential(b, s)
    ensures !started ==> s' == s && units' == units && !CanStart(s)
  {
    StalledStep(b, s, all, k, rob);
    started, units', s' := false, units, s;
    if startsLeft > 0 {
      var i := FindReady(rob, units);
      MirroredFirstReady(b, s, all, k, k + i);
      if i < |rob| {
        units' := units.Minus(rob[i].units);
        assert MirrorsSlot(all[k + i], s.rob[k + i]);
        StepKeepsInv(b, s);
        StartPotential(b, s);
        StartEntry(rob[i], s, all, k);
        started, s' := true, Start(s);
      }
    }
  }

  // ---------------------------------------------------------------- the simulator

  /** What the simulator must answer: the outcome of the unbounded machine on the block at `start`. */
  ghost function Expected(code: seq<Byte>, d: Listing, start: int, polkavmCmov: bool): Outcome {
    if start !in d.positions || start < 0 then Invalid
    else
      BlockIsValid(code, d, start, polkavmCmov);
      Simulate(BlockAt(code, d, start, polkavmCmov))
  }

  /** `pc` is where the machine's next instruction lies in the code. */
  ghost predicate AtInstruction(code: seq<Byte>, d: Listing, polkavmCmov: bool, b: Block, next: nat, pc: Option<int>) {
    && next <= |b.ops|
    && match pc
       case None => b.closed && next == |b.ops|
       case Some(at) =>
         var rest := BlockAt(code, d, at, polkavmCmov);
         b.ops[next..] == rest.ops && b.closed == rest.closed
  }

  lemma NextInstruction(code: seq<Byte>, d: Listing, polkavmCmov: bool, b: Block, next: nat, at: int)
    requires AtInstruction(code, d, polkavmCmov, b, next, Some(at))
    ensures Fetch(code, d, at, polkavmCmov).None? ==> next == |b.ops| && !b.closed
    ensures Fetch(code, d, at, polkavmCmov).Some? ==>
              && next < |b.ops| && b.ops[next] == Fetch(code, d, at, polkavmCmov).value
              && AtInstruction(code, d, polkavmCmov, b, next + 1,
                   if Terminator(ByteAt(code, at)) then None else Some(at + 1 + Length(d, at).value))
  {
    if Fetch(code, d, at, polkavmCmov).Some? {
      var rest := BlockAt(code, d, at, polkavmCmov);
      assert rest.ops != [];
      assert b.ops[next..][0] == b.ops[next];
      assert b.ops[next + 1..] == b.ops[next..][1..];
      if !Terminator(ByteAt(code, at)) {
        var later := BlockAt(code, d, at + 1 + Length(d, at).value, polkavmCmov);
        assert rest.ops[1..] == later.ops;
      }
    }
  }

  method CalculateBlockGas(code: seq<Byte>, d: Listing, start: int, polkavmCmov: bool) returns (r: Outcome)
    ensures r == Expected(code, d, start, polkavmCmov)
  {
    hide Inv, Run, Mirrors, Potential, BlockAt, CanStart, Done, Simulate;
    if start !in d.positions || start < 0 {
      return Invalid;
    }
    var pc: Option<int> := Some(start);
    var cycles, decodeSlots, startsLeft, units := 0, DECODE_BUDGET, START_BUDGET, Pools();
    var rob: seq<Entry> := [];
    ghost var b := BlockAt(code, d, start, polkavmCmov);
    BlockIsValid(code, d, start, polkavmCmov);
    InitialRepresents(b);
    ghost var s, all: seq<Entry>, k := INITIAL, [], 0;
    assert b.ops[0..] == b.ops;
    while true
      invariant Represents(b, s, all, k, rob)
      invariant Run(b, s) == Simulate(b)
      invariant forall i :: 0 <= i < |rob| ==> fresh(rob[i])
      invariant cycles == s.cycles && decodeSlots == s.budget && startsLeft == s.starts && units == s.units
      invariant AtInstruction(code, d, polkavmCmov, b, s.next, pc)
      decreases Potential(b, s), |b.ops| - s.next, s.starts
    {
      if pc.Some? && |rob| < ROB_SIZE {
        NextInstruction(code, d, polkavmCmov, b, s.next, pc.value);
        var fetched := Fetch(code, d, pc.value, polkavmCmov);
        if fetched.None? {
          RunOffTheEnd(b, s, all, k, rob);
          return Invalid;
        }
        if fetched.value.slots <= decodeSlots {
          decodeSlots := decodeSlots - fetched.value.slots;
          rob, s, all := DecodeNext(rob, fetched.value, b, s, all, k);
          pc := if Terminator(ByteAt(code, pc.value)) then None else Some(pc.value + 1 + Length(d, pc.value).value);
          continue;
        }
      }
      var started;
      started, units, s := StartNext(rob, startsLeft, units, b, s, all, k);
      if started {
        startsLeft := startsLeft - 1;
        continue;
      }
      AllDone(b, s, all, k, rob);
      if pc.None? && |rob| == 0 {
        return Gas(Gauge(cycles));
      }
      rob, units, s, k := TickEntries(rob, units, b, s, all, k);
      cycles, decodeSlots, startsLeft := cycles + 1, DECODE_BUDGET, START_BUDGET;
    }
  }

  /**
   On every blob the decoder accepts and from every instruction start, the simulator
   returns, and its answer lies between the block's critical path and its serial time.
   */
  lemma AcceptedBlobsAreMetered(code: seq<Byte>, bitmask: seq<bool>, d: Listing, pc: nat, polkavmCmov: bool, n: nat)
    requires |code| == |bitmask| && Accepted(code, bitmask, 0)
    requires Tabulates(bitmask, Starts(code, bitmask, 0), d)
    requires pc in d.positions
    requires n < |BlockAt(code, d, pc, polkavmCmov).ops|
    ensures Expected(code, d, pc, polkavmCmov).Gas?
    ensures 1 <= Expected(code, d, pc, polkavmCmov).gas
    ensures Expected(code, d, pc, polkavmCmov).gas >= Depth(BlockAt(code, d, pc, polkavmCmov).ops, n)
    ensures Expected(code, d, pc, polkavmCmov).gas <= Gauge(Serial(BlockAt(code, d, pc, polkavmCmov).ops, 0))
  {
    var b := BlockAt(code, d, pc, polkavmCmov);
    AcceptedBlocksClose(code, bitmask, d, pc, polkavmCmov);
    GasAtMostSerial(b);
    GasBetweenDepthAndSerial(b, n);
  }
}
