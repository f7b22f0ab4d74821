/**
 The out-of-order core of the gas model in its unbounded form: an entry that
 retires stays in the buffer, marked `Retired`, for ever.  This is the reference
 machine; GasModel.dfy proves that the simulator, which deletes its retired
 prefix, computes the same outcome.
 */
module ReorderBuffer {
  import opened ExecutionUnits

  const ROB_SIZE := 32
  const DECODE_BUDGET := 4
  const START_BUDGET := 5

  /** One decoded instruction.  `Move` is register renaming and occupies no entry. */
  datatype Op =
    | Move(slots: nat, to: nat, from: nat)
    | Work(slots: nat, cycles: nat, units: Units, sources: set<nat>, targets: set<nat>)
  {
    predicate Valid() {
      && 1 <= slots <= DECODE_BUDGET
      && (Work? ==> cycles >= 1 && Nothing().Fits(units) && units.Fits(Pools()))
    }

    function Latency(): nat {
      if Move? then 0 else cycles
    }
  }

  /** The instructions met from a start; `closed` if a terminator was reached. */
  datatype Block = Block(ops: seq<Op>, closed: bool) {
    predicate Valid() {
      forall i :: 0 <= i < |ops| ==> ops[i].Valid()
    }
  }

  datatype Phase = Decoded | Waiting | Executing | Finished | Retired

  /** A reorder entry; `op` is the position in the block of its instruction. */
  datatype Slot = Slot(phase: Phase, left: nat, deps: set<nat>, regs: set<nat>, units: Units, op: nat)

  datatype Sim = Sim(next: nat, cycles: nat, budget: int, starts: int, units: Units, rob: seq<Slot>)

  datatype Outcome = Gas(gas: nat) | Invalid

  const INITIAL := Sim(0, 0, DECODE_BUDGET, START_BUDGET, Pools(), [])

  // ---------------------------------------------------------------- the machine

  /** The number of live entries among the first `n`. */
  function LiveIn(rob: seq<Slot>, n: nat): nat
    requires n <= |rob|
  {
    if n == 0 then 0 else LiveIn(rob, n - 1) + if rob[n - 1].phase.Retired? then 0 else 1
  }

  function Live(rob: seq<Slot>): nat {
    LiveIn(rob, |rob|)
  }

  predicate Raises(b: Block, s: Sim) {
    s.next >= |b.ops| && !b.closed && Live(s.rob) < ROB_SIZE
  }

  predicate CanDecode(b: Block, s: Sim) {
    s.next < |b.ops| && Live(s.rob) < ROB_SIZE && b.ops[s.next].slots <= s.budget
  }

  predicate Done(b: Block, s: Sim) {
    s.next >= |b.ops| && b.closed && Live(s.rob) == 0
  }

  predicate Ready(rob: seq<Slot>, units: Units, i: nat)
    requires i < |rob|
  {
    && rob[i].phase.Waiting?
    && rob[i].units.Fits(units)
    && forall d :: d in rob[i].deps && d < |rob| ==> rob[d].left == 0
  }

  function FirstReady(rob: seq<Slot>, units: Units, i: nat): (r: nat)
    requires i <= |rob|
    ensures i <= r <= |rob|
    ensures forall j :: i <= j < r ==> !Ready(rob, units, j)
    ensures r < |rob| ==> Ready(rob, units, r)
    decreases |rob| - i
  {
    if i == |rob| || Ready(rob, units, i) then i else FirstReady(rob, units, i + 1)
  }

  predicate CanStart(s: Sim) {
    s.starts > 0 && FirstReady(s.rob, s.units, 0) < |s.rob|
  }

  function Owners(rob: seq<Slot>, sources: set<nat>): set<nat> {
    set i: nat | 0 <= i < |rob| && rob[i].regs * sources != {}
  }

  function Decode(b: Block, s: Sim): Sim
    requires CanDecode(b, s)
  {
    var op := b.ops[s.next];
    var rob :=
      match op
      case Move(_, to, from) =>
        seq(|s.rob|, i requires 0 <= i < |s.rob| =>
          s.rob[i].(regs := if from in s.rob[i].regs then s.rob[i].regs + {to} else s.rob[i].regs - {to}))
      case Work(_, cycles, units, sources, targets) =>
        seq(|s.rob|, i requires 0 <= i < |s.rob| => s.rob[i].(regs := s.rob[i].regs - targets))
        + [Slot(Decoded, cycles, Owners(s.rob, sources), targets, units, s.next)];
    s.(next := s.next + 1, budget := s.budget - op.slots, rob := rob)
  }

  function Start(s: Sim): Sim
    requires CanStart(s)
  {
    var i := FirstReady(s.rob, s.units, 0);
    s.(starts := s.starts - 1, units := s.units.Minus(s.rob[i].units),
       rob := s.rob[i := s.rob[i].(phase := Executing)])
  }

  /** In-order retirement: everything before it has finished too. */
  predicate Retires(rob: seq<Slot>, i: nat)
    requires i < |rob|
  {
    rob[i].phase.Finished? && forall j :: 0 <= j < i ==> rob[j].phase.Finished? || rob[j].phase.Retired?
  }

  function Advance(rob: seq<Slot>, i: nat): Slot
    requires i < |rob|
  {
    var e := rob[i];
    match e.phase
    case Decoded => e.(phase := Waiting)
    case Executing => if e.left == 0 then e.(phase := Finished) else e.(left := e.left - 1)
    case Finished => if Retires(rob, i) then e.(phase := Retired) else e
    case _ => e
  }

  function Holding(e: Slot): Units {
    if e.phase.Executing? && e.left >= 1 then e.units else Nothing()
  }

  function Releasing(e: Slot): Units {
    if e.phase.Executing? && e.left == 1 then e.units else Nothing()
  }

  /** Units held, and units about to be released, by the first `n` entries. */
  function Held(rob: seq<Slot>, n: nat): Units
    requires n <= |rob|
  {
    if n == 0 then Nothing() else Held(rob, n - 1).Plus(Holding(rob[n - 1]))
  }

  function Released(rob: seq<Slot>, n: nat): Units
    requires n <= |rob|
  {
    if n == 0 then Nothing() else Released(rob, n - 1).Plus(Releasing(rob[n - 1]))
  }

  function Tick(s: Sim): Sim {
    s.(cycles := s.cycles + 1, budget := DECODE_BUDGET, starts := START_BUDGET,
       units := s.units.Plus(Released(s.rob, |s.rob|)),
       rob := seq(|s.rob|, i requires 0 <= i < |s.rob| => Advance(s.rob, i)))
  }

  function Step(b: Block, s: Sim): Sim {
    if CanDecode(b, s) then Decode(b, s)
    else if CanStart(s) then Start(s)
    else Tick(s)
  }

  function Gauge(cycles: nat): nat {
    if cycles >= 4 then cycles - 3 else 1
  }

  // ---------------------------------------------------------------- invariant

  /** Retired entries form a prefix, dependencies point backwards, counters fit the phase. */
  ghost predicate Shape(b: Block, s: Sim) {
    && s.next <= |b.ops|
    && 0 <= s.budget <= DECODE_BUDGET
    && 0 <= s.starts <= START_BUDGET
    && Live(s.rob) <= ROB_SIZE
    && (forall i, j :: 0 <= i < j < |s.rob| && s.rob[j].phase.Retired? ==> s.rob[i].phase.Retired?)
    && (forall i :: 0 <= i < |s.rob| ==> SlotShape(b, s.rob[i], i))
    && (s.starts < START_BUDGET ==> exists i :: 0 <= i < |s.rob| && s.rob[i].phase.Executing?)
  }

  ghost predicate SlotShape(b: Block, e: Slot, i: nat) {
    && (forall d :: d in e.deps ==> d < i)
    && e.op < |b.ops|
    && b.ops[e.op].Work?
    && e.units == b.ops[e.op].units
    && (e.phase.Decoded? || e.phase.Waiting? ==> e.left == b.ops[e.op].cycles)
    && (e.phase.Finished? || e.phase.Retired? ==> e.left == 0)
  }

  ghost predicate Conserved(s: Sim) {
    && s.units.Plus(Held(s.rob, |s.rob|)) == Pools()
    && Nothing().Fits(s.units)
  }

  // ---------------------------------------------------------------- potential

  function Weight(e: Slot): nat {
    match e.phase
    case Decoded => e.left + 3
    case Waiting => e.left + 2
    case Executing => e.left + 2
    case Finished => 1
    case Retired => 0
  }

  function WeightIn(rob: seq<Slot>, n: nat): nat
    requires n <= |rob|
  {
    if n == 0 then 0 else WeightIn(rob, n - 1) + Weight(rob[n - 1])
  }

  /** The time the instructions from `n` on would take one after the other. */
  function Serial(ops: seq<Op>, n: nat): nat
    requires n <= |ops|
    decreases |ops| - n
  {
    if n == |ops| then 0 else ops[n].Latency() + 4 + Serial(ops, n + 1)
  }

  function Potential(b: Block, s: Sim): nat
    requires s.next <= |b.ops|
  {
    Serial(b.ops, s.next) + WeightIn(s.rob, |s.rob|) + if s.budget < DECODE_BUDGET then 1 else 0
  }

  // ---------------------------------------------------------------- sums

  lemma {:induction false} LiveNone(rob: seq<Slot>, n: nat)
    requires n <= |rob|
    ensures LiveIn(rob, n) == 0 <==> forall i :: 0 <= i < n ==> rob[i].phase.Retired?
  {
    if n > 0 {
      LiveNone(rob, n - 1);
    }
  }

  lemma {:induction false} LiveMonotone(a: seq<Slot>, b: seq<Slot>, n: nat)
    requires n <= |a| && n <= |b|
    requires forall i :: 0 <= i < n && a[i].phase.Retired? ==> b[i].phase.Retired?
    ensures LiveIn(b, n) <= LiveIn(a, n)
  {
    if n > 0 {
      LiveMonotone(a, b, n - 1);
    }
  }

  lemma {:induction false} HeldUpdate(rob: seq<Slot>, i: nat, e: Slot, n: nat)
    requires i < |rob| && n <= |rob|
    ensures Held(rob[i := e], n) ==
            if i < n then Held(rob, n).Minus(Holding(rob[i])).Plus(Holding(e)) else Held(rob, n)
  {
    if n > 0 {
      HeldUpdate(rob, i, e, n - 1);
    }
  }

  /** Over one tick an entry gives back exactly what it stops holding. */
  predicate LetsGo(before: Slot, after: Slot) {
    Holding(after).Plus(Releasing(before)) == Holding(before)
  }

  lemma {:induction false} HeldRelease(a: seq<Slot>, b: seq<Slot>, n: nat)
    requires |a| == |b| && n <= |a|
    requires forall i :: 0 <= i < n ==> LetsGo(a[i], b[i])
    ensures Held(b, n).Plus(Released(a, n)) == Held(a, n)
  {
    if n > 0 {
      HeldRelease(a, b, n - 1);
      assert LetsGo(a[n - 1], b[n - 1]);
    }
  }

  lemma {:induction false} HeldSame(a: seq<Slot>, b: seq<Slot>, n: nat)
    requires n <= |a| && n <= |b|
    requires forall i :: 0 <= i < n ==> Holding(b[i]) == Holding(a[i])
    ensures Held(b, n) == Held(a, n)
  {
    if n > 0 {
      HeldSame(a, b, n - 1);
    }
  }

  lemma {:induction false} HeldNone(rob: seq<Slot>, n: nat)
    requires n <= |rob|
    requires forall i :: 0 <= i < n ==> Holding(rob[i]) == Nothing()
    ensures Held(rob, n) == Nothing()
  {
    if n > 0 {
      HeldNone(rob, n - 1);
    }
  }

  lemma {:induction false} ReleasedNonNegative(rob: seq<Slot>, n: nat)
    requires n <= |rob|
    requires forall i :: 0 <= i < n ==> Nothing().Fits(rob[i].units)
    ensures Nothing().Fits(Released(rob, n))
  {
    if n > 0 {
      ReleasedNonNegative(rob, n - 1);
    }
  }

  lemma {:induction false} WeightUpdate(rob: seq<Slot>, i: nat, e: Slot, n: nat)
    requires i < |rob| && n <= |rob|
    ensures WeightIn(rob[i := e], n) ==
            if i < n then WeightIn(rob, n) - Weight(rob[i]) + Weight(e) else WeightIn(rob, n)
  {
    if n > 0 {
      WeightUpdate(rob, i, e, n - 1);
    }
  }

  lemma {:induction false} WeightMonotone(a: seq<Slot>, b: seq<Slot>, n: nat)
    requires n <= |a| && n <= |b|
    requires forall i :: 0 <= i < n ==> Weight(b[i]) <= Weight(a[i])
    ensures WeightIn(b, n) <= WeightIn(a, n)
    ensures forall k :: 0 <= k < n && Weight(b[k]) < Weight(a[k]) ==> WeightIn(b, n) < WeightIn(a, n)
  {
    if n > 0 {
      WeightMonotone(a, b, n - 1);
    }
  }

  // ---------------------------------------------------------------- shape, conservation and potential, step by step

  lemma DecodedSlots(b: Block, s: Sim)
    requires CanDecode(b, s)
    ensures var t, n := Decode(b, s), |s.rob|;
            && n <= |t.rob| <= n + 1
            && (forall i :: 0 <= i < n ==> t.rob[i] == s.rob[i].(regs := t.rob[i].regs))
            && (|t.rob| > n ==>
                  var op := b.ops[s.next];
                  && op.Work?
                  && t.rob[n] == Slot(Decoded, op.cycles, Owners(s.rob, op.sources), op.targets, op.units, s.next))
            && t.next == s.next + 1 && t.budget == s.budget - b.ops[s.next].slots && t.starts == s.starts
  {
    hide Owners, Live;
  }

  lemma DecodedShape(b: Block, s: Sim)
    requires Shape(b, s) && CanDecode(b, s)
    ensures var t := Decode(b, s); forall i :: 0 <= i < |t.rob| ==> SlotShape(b, t.rob[i], i)
  {
    hide Decode, Live;
    DecodedSlots(b, s);
    forall i | 0 <= i < |s.rob|
      ensures SlotShape(b, Decode(b, s).rob[i], i)
    {
      assert SlotShape(b, s.rob[i], i);
    }
  }

  lemma DecodeKeepsShape(b: Block, s: Sim)
    requires b.Valid() && Shape(b, s) && CanDecode(b, s)
    ensures Shape(b, Decode(b, s))
  {
    hide Decode, SlotShape, Owners;
    var t := Decode(b, s);
    var n := |s.rob|;
    assert b.ops[s.next].Valid();
    DecodedSlots(b, s);
    DecodedShape(b, s);
    LiveMonotone(s.rob, t.rob, n);
    if s.starts < START_BUDGET {
      var i :| 0 <= i < n && s.rob[i].phase.Executing?;
      assert t.rob[i].phase.Executing?;
    }
  }

  lemma StartKeepsShape(b: Block, s: Sim)
    requires b.Valid() && Shape(b, s) && CanStart(s)
    ensures Shape(b, Start(s))
  {
    var t := Start(s);
    var i := FirstReady(s.rob, s.units, 0);
    assert t.rob[i].phase.Executing?;
    LiveMonotone(s.rob, t.rob, |s.rob|);
  }

  lemma AdvanceKeepsShape(b: Block, rob: seq<Slot>, i: nat)
    requires i < |rob| && SlotShape(b, rob[i], i)
    ensures SlotShape(b, Advance(rob, i), i)
    ensures rob[i].phase.Retired? ==> Advance(rob, i).phase.Retired?
  {
  }

  /** Retirement in one tick is in order. */
  lemma RetiredBefore(rob: seq<Slot>, i: nat, j: nat)
    requires i < j < |rob| && Advance(rob, j).phase.Retired?
    requires rob[j].phase.Retired? ==> rob[i].phase.Retired?
    ensures Advance(rob, i).phase.Retired?
  {
    assert rob[j].phase.Retired? || Retires(rob, j);
    assert rob[i].phase.Retired? || Retires(rob, i);
  }

  lemma TickKeepsShape(b: Block, s: Sim)
    requires b.Valid() && Shape(b, s)
    ensures Shape(b, Tick(s))
  {
    hide Advance, SlotShape, Released;
    var t := Tick(s);
    forall i | 0 <= i < |t.rob|
      ensures s.rob[i].phase.Retired? ==> t.rob[i].phase.Retired?
      ensures SlotShape(b, t.rob[i], i)
    {
      AdvanceKeepsShape(b, s.rob, i);
    }
    LiveMonotone(s.rob, t.rob, |s.rob|);
    forall i, j | 0 <= i < j < |t.rob| && t.rob[j].phase.Retired?
      ensures t.rob[i].phase.Retired?
    {
      RetiredBefore(s.rob, i, j);
    }
  }

  lemma DecodeConserves(b: Block, s: Sim)
    requires Conserved(s) && CanDecode(b, s)
    ensures Conserved(Decode(b, s))
  {
    var t := Decode(b, s);
    assert forall i :: 0 <= i < |s.rob| ==> Holding(t.rob[i]) == Holding(s.rob[i]);
    HeldSame(s.rob, t.rob, |s.rob|);
  }

  lemma StartConserves(b: Block, s: Sim)
    requires b.Valid() && Shape(b, s) && Conserved(s) && CanStart(s)
    ensures Conserved(Start(s))
  {
    var i := FirstReady(s.rob, s.units, 0);
    assert SlotShape(b, s.rob[i], i);
    assert b.ops[s.rob[i].op].Valid();
    HeldUpdate(s.rob, i, s.rob[i].(phase := Executing), |s.rob|);
  }

  lemma AdvanceLetsGo(b: Block, rob: seq<Slot>, i: nat)
    requires i < |rob| && SlotShape(b, rob[i], i)
    ensures LetsGo(rob[i], Advance(rob, i))
  {
  }

  lemma UnitsNonNegative(b: Block, s: Sim, i: nat)
    requires b.Valid() && Shape(b, s) && i < |s.rob|
    ensures Nothing().Fits(s.rob[i].units) && s.rob[i].units.Fits(Pools())
  {
    assert SlotShape(b, s.rob[i], i);
    assert b.ops[s.rob[i].op].Valid();
  }

  lemma TickReleases(b: Block, s: Sim)
    requires b.Valid() && Shape(b, s)
    ensures Held(Tick(s).rob, |s.rob|).Plus(Released(s.rob, |s.rob|)) == Held(s.rob, |s.rob|)
    ensures Nothing().Fits(Released(s.rob, |s.rob|))
  {
    var t := Tick(s);
    forall i | 0 <= i < |s.rob|
      ensures LetsGo(s.rob[i], t.rob[i])
    {
      assert SlotShape(b, s.rob[i], i);
      AdvanceLetsGo(b, s.rob, i);
    }
    HeldRelease(s.rob, t.rob, |s.rob|);
    forall i | 0 <= i < |s.rob|
      ensures Nothing().Fits(s.rob[i].units)
    {
      UnitsNonNegative(b, s, i);
    }
    ReleasedNonNegative(s.rob, |s.rob|);
  }

  lemma TickConserves(b: Block, s: Sim)
    requires b.Valid() && Shape(b, s) && Conserved(s)
    ensures Conserved(Tick(s))
  {
    TickReleases(b, s);
  }

  lemma DecodePotential(b: Block, s: Sim)
    requires b.Valid() && Shape(b, s) && CanDecode(b, s)
    ensures Potential(b, Decode(b, s)) <= Potential(b, s)
  {
    hide Decode, Live, SlotShape;
    DecodedSlots(b, s);
    var t := Decode(b, s);
    assert forall i :: 0 <= i < |s.rob| ==> Weight(t.rob[i]) == Weight(s.rob[i]);
    WeightMonotone(s.rob, t.rob, |s.rob|);
    assert b.ops[s.next].Valid();
  }

  lemma StartPotential(b: Block, s: Sim)
    requires Shape(b, s) && CanStart(s)
    ensures Potential(b, Start(s)) == Potential(b, s)
  {
    var i := FirstReady(s.rob, s.units, 0);
    WeightUpdate(s.rob, i, s.rob[i].(phase := Executing), |s.rob|);
  }

  lemma {:induction false} OldestLive(rob: seq<Slot>, from: nat) returns (k: nat)
    requires from <= |rob|
    requires forall j :: 0 <= j < from ==> rob[j].phase.Retired?
    requires exists j :: from <= j < |rob| && !rob[j].phase.Retired?
    ensures k < |rob| && !rob[k].phase.Retired?
    ensures forall j :: 0 <= j < k ==> rob[j].phase.Retired?
    decreases |rob| - from
  {
    if rob[from].phase.Retired? { k := OldestLive(rob, from + 1); } else { k := from; }
  }

  /** With nothing executing, an oldest live entry that waits has its units and its operands. */
  lemma OldestIsReady(b: Block, s: Sim, k: nat)
    requires b.Valid() && Shape(b, s) && Conserved(s)
    requires forall i :: 0 <= i < |s.rob| ==> !s.rob[i].phase.Executing?
    requires k < |s.rob| && s.rob[k].phase.Waiting?
    requires forall j :: 0 <= j < k ==> s.rob[j].phase.Retired?
    ensures Ready(s.rob, s.units, k)
  {
    HeldNone(s.rob, |s.rob|);
    assert s.units == Pools();
    UnitsNonNegative(b, s, k);
    assert SlotShape(b, s.rob[k], k);
    assert forall d :: d in s.rob[k].deps && d < |s.rob| ==> SlotShape(b, s.rob[d], d);
  }

  /** No deadlock: if nothing can start, some live entry still changes at the next tick. */
  lemma SomeEntryMoves(b: Block, s: Sim) returns (k: nat)
    requires b.Valid() && Shape(b, s) && Conserved(s)
    requires !CanStart(s)
    requires Live(s.rob) > 0
    ensures k < |s.rob| && Weight(Advance(s.rob, k)) < Weight(s.rob[k])
  {
    if e :| 0 <= e < |s.rob| && s.rob[e].phase.Executing? {
      return e;
    }
    LiveNone(s.rob, |s.rob|);
    k := OldestLive(s.rob, 0);
    if s.rob[k].phase.Waiting? {
      OldestIsReady(b, s, k);
    }
  }

  lemma TickPotential(b: Block, s: Sim)
    requires b.Valid() && Shape(b, s) && Conserved(s)
    requires !CanDecode(b, s) && !CanStart(s) && !Done(b, s) && !Raises(b, s)
    ensures Potential(b, Tick(s)) < Potential(b, s)
  {
    var t := Tick(s);
    forall i | 0 <= i < |s.rob|
      ensures Weight(t.rob[i]) <= Weight(s.rob[i])
    {
      assert t.rob[i] == Advance(s.rob, i);
    }
    WeightMonotone(s.rob, t.rob, |s.rob|);
    if Live(s.rob) > 0 {
      var k := SomeEntryMoves(b, s);
      assert t.rob[k] == Advance(s.rob, k);
    } else if s.next < |b.ops| {
      assert b.ops[s.next].Valid();
    }
  }

  // ---------------------------------------------------------------- whole runs

  ghost predicate Inv(b: Block, s: Sim) {
    Shape(b, s) && Conserved(s)
  }

  predicate Stops(b: Block, s: Sim) {
    Raises(b, s) || Done(b, s)
  }

  lemma InitialInv(b: Block)
    ensures Inv(b, INITIAL)
  {
  }

  /** Every step keeps the invariant and lowers (potential, instructions left, starts left). */
  lemma StepKeepsInv(b: Block, s: Sim)
    requires b.Valid() && Inv(b, s) && !Stops(b, s)
    ensures Inv(b, Step(b, s))
    ensures Step(b, s).cycles + Potential(b, Step(b, s)) <= s.cycles + Potential(b, s)
    ensures (Potential(b, s), |b.ops| - s.next, s.starts decreases to
             Potential(b, Step(b, s)), |b.ops| - Step(b, s).next, Step(b, s).starts)
  {
    if CanDecode(b, s) {
      DecodeKeepsShape(b, s);
      DecodeConserves(b, s);
      DecodePotential(b, s);
    } else if CanStart(s) {
      StartKeepsShape(b, s);
      StartConserves(b, s);
      StartPotential(b, s);
    } else {
      TickKeepsShape(b, s);
      TickConserves(b, s);
      TickPotential(b, s);
    }
  }

  /** The whole simulation; that it is a function is the proof that no run is endless. */
  ghost function Run(b: Block, s: Sim): Outcome
    requires b.Valid() && Inv(b, s)
    decreases Potential(b, s), |b.ops| - s.next, s.starts
  {
    if Raises(b, s) then Invalid
    else if Done(b, s) then Gas(Gauge(s.cycles))
    else
      StepKeepsInv(b, s);
      Run(b, Step(b, s))
  }

  ghost function Simulate(b: Block): Outcome
    requires b.Valid()
  {
    InitialInv(b);
    Run(b, INITIAL)
  }

  /** The state after `n` steps, staying put once the run has stopped. */
  function After(b: Block, n: nat): Sim {
    if n == 0 then INITIAL
    else
      var s := After(b, n - 1);
      if Stops(b, s) then s else Step(b, s)
  }

  lemma InvMeans(b: Block, s: Sim)
    requires Inv(b, s)
    ensures Live(s.rob) <= ROB_SIZE && s.units.Plus(Held(s.rob, |s.rob|)) == Pools() && Nothing().Fits(s.units)
  {
  }

  /**
   In every reachable state at most 32 entries are live and the free and the held
   execution units add up to the initial pools.
   */
  lemma {:induction false} ReachableInv(b: Block, n: nat)
    requires b.Valid()
    ensures Inv(b, After(b, n))
    ensures Live(After(b, n).rob) <= ROB_SIZE
    ensures After(b, n).units.Plus(Held(After(b, n).rob, |After(b, n).rob|)) == Pools()
    ensures Nothing().Fits(After(b, n).units)
  {
    hide Inv, Step, Stops, Live, Held;
    if n == 0 {
      InitialInv(b);
    } else {
      ReachableInv(b, n - 1);
      if !Stops(b, After(b, n - 1)) {
        StepKeepsInv(b, After(b, n - 1));
      }
    }
    InvMeans(b, After(b, n));
  }

  lemma {:induction false} RunWithinPotential(b: Block, s: Sim)
    requires b.Valid() && Inv(b, s)
    ensures b.closed <==> Run(b, s).Gas?
    ensures b.closed ==> 1 <= Run(b, s).gas <= Gauge(s.cycles + Potential(b, s))
    decreases Potential(b, s), |b.ops| - s.next, s.starts
  {
    if !Stops(b, s) {
      StepKeepsInv(b, s);
      RunWithinPotential(b, Step(b, s));
    }
  }

  /**
   The simulation raises exactly when the code runs off its instructions before a
   terminator; otherwise the gas is at least one and at most the serial time of the
   block, less the three cycles of pipeline fill that are not charged.
   */
  lemma GasAtMostSerial(b: Block)
    requires b.Valid()
    ensures b.closed <==> Simulate(b).Gas?
    ensures b.closed ==> 1 <= Simulate(b).gas <= Gauge(Serial(b.ops, 0))
  {
    InitialInv(b);
    RunWithinPotential(b, INITIAL);
  }
}
