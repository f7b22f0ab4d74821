/**
 Register renaming is data flow.  The reference below follows values through a
 block with no reorder buffer at all; every reachable state of the machine is
 then shown to agree with it, and the critical path of the true dependences is
 shown to be a lower bound of the gas.
 */
module Renaming {
  import opened ReorderBuffer

  /** Where a register's value comes from: the block's input, or the instruction at `at`. */
  datatype Origin = Initial | Made(at: nat)

  /** The origin of register `r` after the first `n` instructions. */
  function ValueOf(ops: seq<Op>, n: nat, r: nat): Origin
    requires n <= |ops|
  {
    if n == 0 then Initial
    else
      match ops[n - 1]
      case Move(_, to, from) => ValueOf(ops, n - 1, if r == to then from else r)
      case Work(_, _, _, _, targets) => if r in targets then Made(n - 1) else ValueOf(ops, n - 1, r)
  }

  /** The instructions whose results instruction `n` reads. */
  ghost function Producers(ops: seq<Op>, n: nat): set<nat>
    requires n < |ops| && ops[n].Work?
  {
    set r | r in ops[n].sources && ValueOf(ops, n, r).Made? :: ValueOf(ops, n, r).at
  }

  /** The number of entries the first `n` instructions occupy. */
  function Works(ops: seq<Op>, n: nat): nat
    requires n <= |ops|
  {
    if n == 0 then 0 else Works(ops, n - 1) + if ops[n - 1].Work? then 1 else 0
  }

  lemma {:induction false} MadeByWork(ops: seq<Op>, n: nat, r: nat)
    requires n <= |ops|
    ensures ValueOf(ops, n, r).Made? ==> ValueOf(ops, n, r).at < n && ops[ValueOf(ops, n, r).at].Work?
  {
    if n > 0 {
      match ops[n - 1]
      case Move(_, to, from) => MadeByWork(ops, n - 1, if r == to then from else r);
      case Work(_, _, _, _, targets) => MadeByWork(ops, n - 1, r);
    }
  }

  lemma ProducersComeBefore(ops: seq<Op>, n: nat)
    requires n < |ops| && ops[n].Work?
    ensures forall p :: p in Producers(ops, n) ==> p < n && ops[p].Work?
  {
    forall r | r in ops[n].sources && ValueOf(ops, n, r).Made?
      ensures ValueOf(ops, n, r).at < n && ops[ValueOf(ops, n, r).at].Work?
    {
      MadeByWork(ops, n, r);
    }
  }

  // ---------------------------------------------------------------- the simulation relation

  /** Entry `i` stands for the `i`-th instruction that is not a move. */
  ghost predicate Placed(b: Block, s: Sim) {
    && s.next <= |b.ops|
    && |s.rob| == Works(b.ops, s.next)
    && (forall i :: 0 <= i < |s.rob| ==> s.rob[i].op < s.next && b.ops[s.rob[i].op].Work?)
    && (forall i :: 0 <= i < |s.rob| ==> Works(b.ops, s.rob[i].op) == i)
  }

  /** Every instruction decoded so far that is not a move has its entry. */
  ghost predicate Located(b: Block, s: Sim) {
    && s.next <= |b.ops|
    && forall n {:trigger InPlace(b, s, n)} :: 0 <= n < s.next && b.ops[n].Work? ==> InPlace(b, s, n)
  }

  ghost predicate InPlace(b: Block, s: Sim, n: nat)
    requires n <= |b.ops|
  {
    Works(b.ops, n) < |s.rob| && s.rob[Works(b.ops, n)].op == n
  }

  /** An entry owns a register exactly if the register holds the entry's result. */
  ghost predicate Owned(b: Block, s: Sim)
    requires s.next <= |b.ops|
  {
    forall i, r :: 0 <= i < |s.rob| ==>
      (r in s.rob[i].regs <==> ValueOf(b.ops, s.next, r) == Made(s.rob[i].op))
  }

  /** An entry depends on exactly the entries of the results it reads. */
  ghost predicate Tracked(b: Block, s: Sim)
    requires Placed(b, s)
  {
    forall i, d :: 0 <= i < |s.rob| && 0 <= d < |s.rob| ==>
      (d in s.rob[i].deps <==> s.rob[d].op in Producers(b.ops, s.rob[i].op))
  }

  predicate Started(e: Slot) {
    e.phase.Executing? || e.phase.Finished? || e.phase.Retired?
  }

  /** What has begun executing has all its operands. */
  ghost predicate Supplied(s: Sim) {
    forall i, d :: 0 <= i < |s.rob| && Started(s.rob[i]) && d in s.rob[i].deps && d < |s.rob| ==>
      Started(s.rob[d]) && s.rob[d].left == 0
  }

  ghost predicate Faithful(b: Block, s: Sim) {
    && Inv(b, s)
    && Placed(b, s)
    && Located(b, s)
    && Owned(b, s)
    && Tracked(b, s)
    && Supplied(s)
  }

  // ---------------------------------------------------------------- decoding

  lemma MoveIsOwned(b: Block, s: Sim)
    requires Faithful(b, s) && CanDecode(b, s) && b.ops[s.next].Move?
    ensures Owned(b, Decode(b, s))
  {
    var t := Decode(b, s);
    var from := b.ops[s.next].from;
    forall i, r | 0 <= i < |t.rob|
      ensures r in t.rob[i].regs <==> ValueOf(b.ops, t.next, r) == Made(t.rob[i].op)
    {
      assert from in s.rob[i].regs <==> ValueOf(b.ops, s.next, from) == Made(s.rob[i].op);
      assert r in s.rob[i].regs <==> ValueOf(b.ops, s.next, r) == Made(s.rob[i].op);
    }
  }

  predicate SameButRegisters(x: Slot, y: Slot) {
    x.phase == y.phase && x.left == y.left && x.deps == y.deps && x.units == y.units && x.op == y.op
  }

  lemma MoveOnlyRenames(b: Block, s: Sim)
    requires CanDecode(b, s) && b.ops[s.next].Move?
    ensures |Decode(b, s).rob| == |s.rob|
    ensures forall i :: 0 <= i < |s.rob| ==> SameButRegisters(s.rob[i], Decode(b, s).rob[i])
  {
  }

  lemma MoveIsPlaced(b: Block, s: Sim, t: Sim)
    requires Placed(b, s) && Located(b, s) && s.next < |b.ops| && b.ops[s.next].Move?
    requires t.next == s.next + 1 && |t.rob| == |s.rob|
    requires forall i :: 0 <= i < |s.rob| ==> SameButRegisters(s.rob[i], t.rob[i])
    ensures Placed(b, t) && Located(b, t)
  {
    forall n | 0 <= n < t.next && b.ops[n].Work?
      ensures InPlace(b, t, n)
    {
      assert InPlace(b, s, n);
    }
  }

  lemma MoveKeepsFlow(b: Block, s: Sim)
    requires Faithful(b, s) && CanDecode(b, s) && b.ops[s.next].Move?
    ensures Placed(b, Decode(b, s)) && Located(b, Decode(b, s))
    ensures Tracked(b, Decode(b, s)) && Supplied(Decode(b, s))
  {
    MoveOnlyRenames(b, s);
    MoveIsPlaced(b, s, Decode(b, s));
  }

  lemma WorkIsPlaced(b: Block, s: Sim)
    requires Faithful(b, s) && CanDecode(b, s) && b.ops[s.next].Work?
    ensures Placed(b, Decode(b, s)) && Located(b, Decode(b, s))
  {
    var t := Decode(b, s);
    forall i | 0 <= i < |s.rob|
      ensures t.rob[i].op == s.rob[i].op
    {
    }
    forall n | 0 <= n < t.next && b.ops[n].Work?
      ensures InPlace(b, t, n)
    {
      if n < s.next {
        assert InPlace(b, s, n);
      }
    }
  }

  lemma WorkIsOwned(b: Block, s: Sim)
    requires Faithful(b, s) && CanDecode(b, s) && b.ops[s.next].Work?
    ensures Owned(b, Decode(b, s))
  {
    var t := Decode(b, s);
    forall i, r | 0 <= i < |t.rob|
      ensures r in t.rob[i].regs <==> ValueOf(b.ops, t.next, r) == Made(t.rob[i].op)
    {
      if i < |s.rob| {
        assert s.rob[i].op < s.next;
        assert r in s.rob[i].regs <==> ValueOf(b.ops, s.next, r) == Made(s.rob[i].op);
      } else {
        MadeByWork(b.ops, s.next, r);
      }
    }
  }

  /** The owners found in the buffer are the producers of the reference. */
  lemma OwnersAreProducers(b: Block, s: Sim, d: nat)
    requires Faithful(b, s) && CanDecode(b, s) && b.ops[s.next].Work?
    requires d < |s.rob|
    ensures d in Owners(s.rob, b.ops[s.next].sources) <==> s.rob[d].op in Producers(b.ops, s.next)
  {
    var sources := b.ops[s.next].sources;
    if r :| r in s.rob[d].regs && r in sources {
      assert r in s.rob[d].regs * sources;
      assert ValueOf(b.ops, s.next, r) == Made(s.rob[d].op);
    } else {
      assert s.rob[d].regs * sources == {};
    }
  }

  lemma WorkIsTracked(b: Block, s: Sim)
    requires Faithful(b, s) && CanDecode(b, s) && b.ops[s.next].Work?
    requires Placed(b, Decode(b, s))
    ensures Tracked(b, Decode(b, s))
  {
    var t := Decode(b, s);
    forall i, d | 0 <= i < |t.rob| && 0 <= d < |t.rob|
      ensures d in t.rob[i].deps <==> t.rob[d].op in Producers(b.ops, t.rob[i].op)
    {
      ProducersComeBefore(b.ops, t.rob[i].op);
      if i < |s.rob| {
        assert t.rob[i].deps == s.rob[i].deps && t.rob[i].op == s.rob[i].op;
        if d < |s.rob| {
          assert t.rob[d].op == s.rob[d].op;
        } else {
          assert SlotShape(b, s.rob[i], i);
        }
      } else if d < |s.rob| {
        assert t.rob[d].op == s.rob[d].op;
        OwnersAreProducers(b, s, d);
      }
    }
  }

  lemma WorkIsSupplied(b: Block, s: Sim)
    requires Faithful(b, s) && CanDecode(b, s) && b.ops[s.next].Work?
    ensures Supplied(Decode(b, s))
  {
    var t := Decode(b, s);
    forall i, d | 0 <= i < |t.rob| && Started(t.rob[i]) && d in t.rob[i].deps && d < |t.rob|
      ensures Started(t.rob[d]) && t.rob[d].left == 0
    {
      assert t.rob[i] == s.rob[i].(regs := t.rob[i].regs);
      assert SlotShape(b, s.rob[i], i);
      assert t.rob[d] == s.rob[d].(regs := t.rob[d].regs);
    }
  }

  // ---------------------------------------------------------------- starting and ticking

  lemma SamePlaces(b: Block, s: Sim, t: Sim)
    requires Located(b, s) && t.next == s.next && |t.rob| == |s.rob|
    requires forall i :: 0 <= i < |s.rob| ==> t.rob[i].op == s.rob[i].op
    ensures Located(b, t)
  {
    forall n | 0 <= n < t.next && b.ops[n].Work?
      ensures InPlace(b, t, n)
    {
      assert InPlace(b, s, n);
    }
  }

  lemma StartKeepsFlow(b: Block, s: Sim)
    requires b.Valid() && Faithful(b, s) && CanStart(s)
    ensures Placed(b, Start(s)) && Located(b, Start(s)) && Owned(b, Start(s)) && Tracked(b, Start(s)) &&
            Supplied(Start(s))
  {
    var t := Start(s);
    SamePlaces(b, s, t);
    var k := FirstReady(s.rob, s.units, 0);
    forall i | 0 <= i < |s.rob|
      ensures t.rob[i] == s.rob[i].(phase := t.rob[i].phase)
    {
    }
    forall i, d | 0 <= i < |t.rob| && Started(t.rob[i]) && d in t.rob[i].deps && d < |t.rob|
      ensures Started(t.rob[d]) && t.rob[d].left == 0
    {
      if i == k {
        NothingLeftMeansStarted(b, s, d);
      } else {
        assert Started(s.rob[i]) && d in s.rob[i].deps;
      }
    }
  }

  lemma NothingLeftMeansStarted(b: Block, s: Sim, d: nat)
    requires b.Valid() && Inv(b, s) && d < |s.rob| && s.rob[d].left == 0
    ensures Started(s.rob[d])
  {
    assert SlotShape(b, s.rob[d], d);
    assert b.ops[s.rob[d].op].Valid();
  }

  lemma TickKeepsFlow(b: Block, s: Sim)
    requires Faithful(b, s)
    ensures Placed(b, Tick(s)) && Located(b, Tick(s)) && Owned(b, Tick(s)) && Tracked(b, Tick(s)) && Supplied(Tick(s))
  {
    var t := Tick(s);
    SamePlaces(b, s, t);
    forall i | 0 <= i < |s.rob|
      ensures t.rob[i] == s.rob[i].(phase := t.rob[i].phase, left := t.rob[i].left)
      ensures Started(t.rob[i]) == Started(s.rob[i])
      ensures s.rob[i].left == 0 ==> t.rob[i].left == 0
    {
      assert t.rob[i] == Advance(s.rob, i);
    }
    forall i, d | 0 <= i < |t.rob| && Started(t.rob[i]) && d in t.rob[i].deps && d < |t.rob|
      ensures Started(t.rob[d]) && t.rob[d].left == 0
    {
      assert Started(s.rob[i]) && d in s.rob[i].deps;
    }
  }

  lemma StepKeepsFaithful(b: Block, s: Sim)
    requires b.Valid() && Faithful(b, s) && !Stops(b, s)
    ensures Faithful(b, Step(b, s))
  {
    StepKeepsInv(b, s);
    if CanDecode(b, s) {
      if b.ops[s.next].Move? {
        MoveIsOwned(b, s);
        MoveKeepsFlow(b, s);
      } else {
        WorkIsPlaced(b, s);
        WorkIsOwned(b, s);
        WorkIsTracked(b, s);
        WorkIsSupplied(b, s);
      }
    } else if CanStart(s) {
      StartKeepsFlow(b, s);
    } else {
      TickKeepsFlow(b, s);
    }
  }

  lemma {:induction false} ReachableFaithful(b: Block, n: nat)
    requires b.Valid()
    ensures Faithful(b, After(b, n))
  {
    if n == 0 {
      InitialInv(b);
    } else {
      ReachableFaithful(b, n - 1);
      if !Stops(b, After(b, n - 1)) {
        StepKeepsFaithful(b, After(b, n - 1));
      }
    }
  }

  // ---------------------------------------------------------------- the theorems

  lemma OneOwner(b: Block, s: Sim, i: nat, j: nat, r: nat)
    requires Placed(b, s) && Owned(b, s)
    requires i < |s.rob| && j < |s.rob| && r in s.rob[i].regs && r in s.rob[j].regs
    ensures i == j
  {
    assert ValueOf(b.ops, s.next, r) == Made(s.rob[i].op);
    assert ValueOf(b.ops, s.next, r) == Made(s.rob[j].op);
  }

  /**
   At every point of every run: a register has at most one owner, and the owner is
   the instruction that made the register's current value, through any chain of moves.
   */
  lemma OwnerMadeTheValue(b: Block, n: nat, i: nat, r: nat)
    requires b.Valid()
    requires i < |After(b, n).rob|
    ensures After(b, n).next <= |b.ops|
    ensures r in After(b, n).rob[i].regs <==>
            ValueOf(b.ops, After(b, n).next, r) == Made(After(b, n).rob[i].op)
    ensures r in After(b, n).rob[i].regs ==>
            forall j :: 0 <= j < |After(b, n).rob| && r in After(b, n).rob[j].regs ==> j == i
  {
    ReachableFaithful(b, n);
    var s := After(b, n);
    if r in s.rob[i].regs {
      forall j | 0 <= j < |s.rob| && r in s.rob[j].regs
        ensures j == i
      {
        OneOwner(b, s, i, j, r);
      }
    }
  }

  /**
   At every point of every run: if an instruction has begun executing, then each
   instruction whose result it reads has an entry with no cycles left.
   */
  lemma OperandsAreReady(b: Block, n: nat, i: nat, p: nat)
    requires b.Valid()
    requires i < |After(b, n).rob| && Started(After(b, n).rob[i])
    requires After(b, n).rob[i].op < |b.ops| && b.ops[After(b, n).rob[i].op].Work?
    requires p in Producers(b.ops, After(b, n).rob[i].op)
    ensures exists d :: 0 <= d < i && After(b, n).rob[d].op == p && After(b, n).rob[d].left == 0
  {
    ReachableFaithful(b, n);
    var s := After(b, n);
    ProducersComeBefore(b.ops, s.rob[i].op);
    var d := Works(b.ops, p);
    assert InPlace(b, s, p);
    assert d in s.rob[i].deps;
    assert SlotShape(b, s.rob[i], i);
  }
}
