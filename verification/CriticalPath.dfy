/**
 The gas of a block is never below its critical path: the longest chain of
 instructions each of which reads a result of the one before.
 */
module CriticalPath {
  import opened ReorderBuffer
  import opened Renaming

  /** The latency of the longest chain of data dependences that ends at instruction `n`. */
  ghost function Depth(ops: seq<Op>, n: nat): nat
    requires n < |ops|
    decreases n, 1, 0
  {
    match ops[n]
    case Move(_, _, _) => 0
    case Work(_, cycles, _, _, _) =>
      ProducersComeBefore(ops, n);
      cycles + Deepest(ops, Producers(ops, n), n)
  }

  ghost function Deepest(ops: seq<Op>, ps: set<nat>, n: nat): nat
    requires n <= |ops|
    requires forall p :: p in ps ==> p < n
    decreases n, 0, |ps|
  {
    if ps == {} then 0
    else
      var p :| p in ps;
      var rest := Deepest(ops, ps - {p}, n);
      if Depth(ops, p) > rest then Depth(ops, p) else rest
  }

  /** `Deepest` is the maximum of the depths, and zero for no producers. */
  lemma {:induction false} DeepestIsMaximum(ops: seq<Op>, ps: set<nat>, n: nat)
    requires n <= |ops|
    requires forall p :: p in ps ==> p < n
    ensures forall p :: p in ps ==> Depth(ops, p) <= Deepest(ops, ps, n)
    ensures ps == {} || exists p :: p in ps && Depth(ops, p) == Deepest(ops, ps, n)
    ensures ps == {} ==> Deepest(ops, ps, n) == 0
    decreases |ps|
  {
    if ps != {} {
      var p :| p in ps && Deepest(ops, ps, n) ==
        var rest := Deepest(ops, ps - {p}, n); if Depth(ops, p) > rest then Depth(ops, p) else rest;
      DeepestIsMaximum(ops, ps - {p}, n);
      assert forall q :: q in ps ==> q == p || q in ps - {p};
    }
  }

  // ---------------------------------------------------------------- chains

  /** Instructions each of which reads a result of the one before. */
  ghost predicate Chain(ops: seq<Op>, c: seq<nat>) {
    && (forall i :: 0 <= i < |c| ==> c[i] < |ops| && ops[c[i]].Work?)
    && (forall i :: 0 < i < |c| ==> c[i - 1] in Producers(ops, c[i]))
  }

  /** The cycles of all instructions of a chain, one after the other. */
  ghost function Latency(ops: seq<Op>, c: seq<nat>): nat
    requires Chain(ops, c)
  {
    if c == [] then 0 else Latency(ops, c[..|c| - 1]) + ops[c[|c| - 1]].cycles
  }

  /** No chain that ends at an instruction takes longer than its depth. */
  lemma {:induction false} ChainsWithinDepth(ops: seq<Op>, c: seq<nat>)
    requires Chain(ops, c) && c != []
    ensures Latency(ops, c) <= Depth(ops, c[|c| - 1])
  {
    var front, n := c[..|c| - 1], c[|c| - 1];
    ProducersComeBefore(ops, n);
    DeepestIsMaximum(ops, Producers(ops, n), n);
    if front != [] {
      assert front[|front| - 1] in Producers(ops, n);
      ChainsWithinDepth(ops, front);
    }
  }

  /** And one of them takes just as long. */
  lemma {:induction false} DepthIsAttained(ops: seq<Op>, n: nat) returns (c: seq<nat>)
    requires n < |ops| && ops[n].Work?
    ensures Chain(ops, c) && c != [] && c[|c| - 1] == n && Latency(ops, c) == Depth(ops, n)
    decreases n
  {
    var ps := Producers(ops, n);
    ProducersComeBefore(ops, n);
    DeepestIsMaximum(ops, ps, n);
    if ps == {} {
      c := [n];
      assert c[..0] == [];
    } else {
      var p :| p in ps && Depth(ops, p) == Deepest(ops, ps, n);
      var front := DepthIsAttained(ops, p);
      c := front + [n];
      assert c[..|front|] == front;
    }
  }

  /** So the depth of an instruction is the longest latency of any chain that ends at it. */
  lemma DepthIsLongestChain(ops: seq<Op>, n: nat)
    requires n < |ops| && ops[n].Work?
    ensures forall c :: Chain(ops, c) && c != [] && c[|c| - 1] == n ==> Latency(ops, c) <= Depth(ops, n)
    ensures exists c :: Chain(ops, c) && c != [] && c[|c| - 1] == n && Latency(ops, c) == Depth(ops, n)
  {
    forall c | Chain(ops, c) && c != [] && c[|c| - 1] == n
      ensures Latency(ops, c) <= Depth(ops, n)
    {
      ChainsWithinDepth(ops, c);
    }
    var c := DepthIsAttained(ops, n);
  }

  ghost predicate SlotTimely(b: Block, cycles: nat, e: Slot)
    requires e.op < |b.ops|
  {
    match e.phase
    case Decoded => true
    case Waiting => cycles >= 1
    case Executing => cycles + e.left >= Depth(b.ops, e.op) + 1
    case Finished => cycles >= Depth(b.ops, e.op) + 2
    case Retired => cycles >= Depth(b.ops, e.op) + 3
  }

  ghost predicate Timely(b: Block, s: Sim) {
    forall i :: 0 <= i < |s.rob| ==> s.rob[i].op < |b.ops| && SlotTimely(b, s.cycles, s.rob[i])
  }

  lemma DecodeKeepsTimely(b: Block, s: Sim)
    requires Timely(b, s) && CanDecode(b, s)
    ensures Timely(b, Decode(b, s))
  {
    var t := Decode(b, s);
    forall i | 0 <= i < |t.rob|
      ensures t.rob[i].op < |b.ops| && SlotTimely(b, t.cycles, t.rob[i])
    {
      if i < |s.rob| {
        assert SlotTimely(b, s.cycles, s.rob[i]);
      }
    }
  }

  /** An instruction that may start has waited for the deepest of its producers. */
  lemma ReadyIsLateEnough(b: Block, s: Sim, k: nat)
    requires b.Valid() && Faithful(b, s) && Timely(b, s)
    requires k < |s.rob| && Ready(s.rob, s.units, k)
    ensures s.cycles + s.rob[k].left >= Depth(b.ops, s.rob[k].op) + 1
  {
    var n := s.rob[k].op;
    assert SlotShape(b, s.rob[k], k);
    ProducersComeBefore(b.ops, n);
    var ps := Producers(b.ops, n);
    forall p | p in ps
      ensures Depth(b.ops, p) + 1 <= s.cycles
    {
      var d := Works(b.ops, p);
      assert InPlace(b, s, p);
      assert d in s.rob[k].deps;
      NothingLeftMeansStarted(b, s, d);
      assert SlotTimely(b, s.cycles, s.rob[d]);
    }
    DeepestIsMaximum(b.ops, ps, n);
    assert SlotTimely(b, s.cycles, s.rob[k]);
  }

  lemma StartKeepsTimely(b: Block, s: Sim)
    requires b.Valid() && Faithful(b, s) && Timely(b, s) && CanStart(s)
    ensures Timely(b, Start(s))
  {
    var k := FirstReady(s.rob, s.units, 0);
    ReadyIsLateEnough(b, s, k);
    var t := Start(s);
    forall i | 0 <= i < |t.rob|
      ensures t.rob[i].op < |b.ops| && SlotTimely(b, t.cycles, t.rob[i])
    {
      assert SlotTimely(b, s.cycles, s.rob[i]);
    }
  }

  lemma TickKeepsTimely(b: Block, s: Sim)
    requires Timely(b, s)
    ensures Timely(b, Tick(s))
  {
    var t := Tick(s);
    forall i | 0 <= i < |t.rob|
      ensures t.rob[i].op < |b.ops| && SlotTimely(b, t.cycles, t.rob[i])
    {
      assert SlotTimely(b, s.cycles, s.rob[i]);
      assert t.rob[i] == Advance(s.rob, i);
    }
  }

  lemma AllRetired(b: Block, s: Sim, n: nat)
    requires Faithful(b, s) && Timely(b, s) && Done(b, s)
    requires n < |b.ops|
    ensures b.ops[n].Work? ==> s.cycles >= Depth(b.ops, n) + 3
  {
    LiveNone(s.rob, |s.rob|);
    if b.ops[n].Work? {
      assert InPlace(b, s, n);
      assert SlotTimely(b, s.cycles, s.rob[Works(b.ops, n)]);
    }
  }

  lemma {:induction false} RunAboveDepth(b: Block, s: Sim, n: nat)
    requires b.Valid() && Faithful(b, s) && Timely(b, s)
    requires b.closed && n < |b.ops|
    ensures Run(b, s).Gas? && Depth(b.ops, n) <= Run(b, s).gas
    decreases Potential(b, s), |b.ops| - s.next, s.starts
  {
    if Done(b, s) {
      AllRetired(b, s, n);
    } else {
      StepKeepsInv(b, s);
      StepKeepsFaithful(b, s);
      if CanDecode(b, s) {
        DecodeKeepsTimely(b, s);
      } else if CanStart(s) {
        StartKeepsTimely(b, s);
      } else {
        TickKeepsTimely(b, s);
      }
      RunAboveDepth(b, Step(b, s), n);
    }
  }

  /** The gas lies between the critical path of the block and its serial time. */
  lemma GasBetweenDepthAndSerial(b: Block, n: nat)
    requires b.Valid() && b.closed && n < |b.ops|
    ensures Simulate(b).Gas?
    ensures Depth(b.ops, n) <= Simulate(b).gas <= Gauge(Serial(b.ops, 0))
  {
    InitialInv(b);
    RunAboveDepth(b, INITIAL, n);
    GasAtMostSerial(b);
  }

  /** The gas of a block is never less than the latency of any chain in it. */
  lemma GasCoversEveryChain(b: Block, c: seq<nat>)
    requires b.Valid() && b.closed && Chain(b.ops, c) && c != []
    ensures Simulate(b).Gas? && Latency(b.ops, c) <= Simulate(b).gas
  {
    ChainsWithinDepth(b.ops, c);
    GasBetweenDepthAndSerial(b, c[|c| - 1]);
  }
}
