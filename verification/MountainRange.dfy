/** The Merkle mountain range: its insertion in place against the recursive append. */
module MountainRange {
  import opened Options
  import opened Powers

  type Peaks<D> = seq<Option<D>>
  type Join<!D> = (D, D) -> D

  // ---------------------------------------------------------------- the recursive append

  /** A leaf takes the first free place, joining the peaks before it on the way. */
  function Append<D>(join: Join<D>, peaks: Peaks<D>, leaf: D): Peaks<D> {
    if peaks == [] then [Some(leaf)]
    else if peaks[0].None? then [Some(leaf)] + peaks[1..]
    else [None] + Append(join, peaks[1..], join(peaks[0].value, leaf))
  }

  /** The number of leaves: an occupied place is a binary digit. */
  function ItemCount<D>(peaks: Peaks<D>): nat {
    if peaks == [] then 0 else (if peaks[0].Some? then 1 else 0) + 2 * ItemCount(peaks[1..])
  }

  /** No free place at the end. */
  predicate Trimmed<D>(peaks: Peaks<D>) {
    peaks != [] ==> peaks[|peaks| - 1].Some?
  }

  // ---------------------------------------------------------------- carries

  /** How many places a new leaf passes. */
  function Carry<D>(peaks: Peaks<D>): (t: nat)
    ensures t <= |peaks|
    ensures forall i :: 0 <= i < t ==> peaks[i].Some?
    ensures t < |peaks| ==> peaks[t].None?
  {
    if peaks == [] || peaks[0].None? then 0 else 1 + Carry(peaks[1..])
  }

  /** The leaf after it has been joined with the first `t` peaks. */
  function Carried<D>(join: Join<D>, peaks: Peaks<D>, leaf: D, t: nat): D
    requires t <= Carry(peaks)
  {
    if t == 0 then leaf else join(peaks[t - 1].value, Carried(join, peaks, leaf, t - 1))
  }

  function Free<D>(n: nat): Peaks<D> {
    seq(n, _ => None)
  }

  /** `j` free places, then `x`, then the rest. */
  function Form<D>(j: nat, x: D, rest: Peaks<D>): (r: Peaks<D>)
    ensures |r| == j + 1 + |rest| && r[j] == Some(x) && r[j + 1..] == rest
    ensures j > 0 ==> r[0] == None
    ensures rest != [] ==> r[j + 1] == rest[0]
  {
    Free(j) + [Some(x)] + rest
  }

  lemma FormMoves<D>(j: nat, x: D, rest: Peaks<D>, y: D)
    requires rest != []
    ensures Form(j, x, rest)[j + 1 := Some(y)][j := None] == Form(j + 1, y, rest[1..])
  {
  }

  lemma {:induction false} AppendCarries<D>(join: Join<D>, peaks: Peaks<D>, leaf: D)
    ensures var t := Carry(peaks);
            Append(join, peaks, leaf) ==
            Form(t, Carried(join, peaks, leaf, t), peaks[if t < |peaks| then t + 1 else t..])
  {
    var t := Carry(peaks);
    if t > 0 {
      var first := join(peaks[0].value, leaf);
      AppendCarries(join, peaks[1..], first);
      CarriedFromTail(join, peaks, leaf, t);
      assert [None] + Free<D>(t - 1) == Free(t);
    }
  }

  lemma {:induction false} CarriedFromTail<D>(join: Join<D>, peaks: Peaks<D>, leaf: D, t: nat)
    requires 0 < t <= Carry(peaks)
    ensures Carried(join, peaks, leaf, t) == Carried(join, peaks[1..], join(peaks[0].value, leaf), t - 1)
  {
    if t > 1 {
      CarriedFromTail(join, peaks, leaf, t - 1);
    }
  }

  /** The count after the insertion is divisible by just the powers of two that are carried over. */
  lemma {:induction false} CarryDivides<D>(peaks: Peaks<D>, j: nat)
    ensures (ItemCount(peaks) + 1) % Pow2(j) == 0 <==> j <= Carry(peaks)
  {
    if j > 0 {
      if Carry(peaks) > 0 {
        CarryDivides(peaks[1..], j - 1);
        DoubleMod(ItemCount(peaks[1..]) + 1, Pow2(j - 1));
      } else {
        OddHasNoEvenDivisor(ItemCount(peaks) + 1, Pow2(j - 1));
      }
    }
  }

  lemma OddHasNoEvenDivisor(n: nat, y: nat)
    requires n % 2 == 1 && y >= 1
    ensures n % (2 * y) != 0
  {
    var q := n / (2 * y);
    assert (2 * y) * q == 2 * (y * q);
    assert n == (2 * y) * q + n % (2 * y);
  }

  lemma {:induction false} LengthIsBits<D>(peaks: Peaks<D>)
    requires Trimmed(peaks)
    ensures BitLength(ItemCount(peaks)) == |peaks|
    ensures BitLength(ItemCount(peaks) + 1) == |peaks| + if Carry(peaks) == |peaks| then 1 else 0
  {
    if peaks != [] {
      LengthIsBits(peaks[1..]);
      assert peaks != [] && |peaks| > 1 ==> ItemCount(peaks[1..]) > 0;
    }
  }

  class MerkleMountainRange<D> {
    var peaks: Peaks<D>
    const join: Join<D>

    constructor (initial: Peaks<D>, join: Join<D>)
      ensures peaks == initial && this.join == join
    {
      peaks, this.join := initial, join;
    }

    /** The digits of the occupied places, added up. */
    method GetItemCount() returns (n: nat)
      ensures n == ItemCount(peaks)
    {
      n := 0;
      var i := |peaks|;
      while i > 0
        invariant 0 <= i <= |peaks| && n == ItemCount(peaks[i..])
      {
        i := i - 1;
        assert peaks[i..][1..] == peaks[i + 1..];
        n := 2 * n + if peaks[i].Some? then 1 else 0;
      }
    }

    method Insert(leaf: D)
      requires Trimmed(peaks)
      modifies this
      ensures peaks == Append(join, old(peaks), leaf)
    {
      hide Append, ItemCount, Halfway, Trimmed, BitLength;
      ghost var was := peaks;
      var count := GetItemCount();
      LengthIsBits(was);
      if Carry(was) == 0 {
        AppendToFree(join, was, leaf);
      } else {
        HalfwayStarts(join, was, leaf);
      }
      if BitLength(count + 1) > BitLength(count) {
        peaks := [None] + peaks;
      }
      if (count + 1) % 2 == 1 {
        OddCount(was);
        peaks := peaks[0 := Some(leaf)];
      } else {
        OddCount(was);
        if peaks[0].None? {
          peaks := peaks[0 := Some(leaf)];
        } else {
          if peaks[1].Some? {
            peaks := peaks[0 := Some(join(peaks[0].value, leaf))];
            peaks := peaks[1 := Some(join(peaks[1].value, peaks[0].value))];
          } else {
            peaks := peaks[1 := Some(join(peaks[0].value, leaf))];
          }
          peaks := peaks[0 := None];
        }
        CarryUp(count + 1, was, leaf);
      }
    }

    /** The loop over neighbouring places: each passes its peak on while the new count allows. */
    method CarryUp(count: nat, ghost was: Peaks<D>, ghost leaf: D)
      requires Carry(was) > 0 && count == ItemCount(was) + 1
      requires peaks == Halfway(join, was, leaf, 0)
      modifies this
      ensures peaks == Append(join, was, leaf)
    {
      hide Append, Carried, Form, ItemCount, Halfway;
      ghost var t := Carry(was);
      HalfwayLength(join, was, leaf, 0);
      for idx := 0 to |peaks| - 1
        invariant |peaks| == |was| + if t == |was| then 1 else 0
        invariant peaks == Halfway(join, was, leaf, idx)
      {
        CarryDivides(was, idx + 1);
        MergeStep(join, was, leaf, idx, peaks);
        if peaks[idx].Some? && count % Pow2(idx + 1) == 0 {
          if peaks[idx + 1].Some? {
            peaks := peaks[idx + 1 := Some(join(peaks[idx + 1].value, peaks[idx].value))];
          } else {
            peaks := peaks[idx + 1 := peaks[idx]];
          }
          peaks := peaks[idx := None];
        }
      }
      HalfwayEnds(join, was, leaf);
    }
  }

  lemma HalfwayLength<D>(join: Join<D>, was: Peaks<D>, leaf: D, idx: nat)
    requires Carry(was) > 0 && idx < |was| + (if Carry(was) == |was| then 1 else 0)
    ensures |Halfway(join, was, leaf, idx)| == |was| + if Carry(was) == |was| then 1 else 0
  {
  }

  lemma HalfwayEnds<D>(join: Join<D>, was: Peaks<D>, leaf: D)
    requires Carry(was) > 0
    ensures Halfway(join, was, leaf, if Carry(was) == |was| then |was| else |was| - 1) == Append(join, was, leaf)
  {
    AppendCarries(join, was, leaf);
    hide Form, Append;
  }

  /** What one round of the loop makes of the peaks, when the count is divisible if `carry` says so. */
  ghost function Merged<D>(join: Join<D>, peaks: Peaks<D>, idx: nat, carry: nat): Peaks<D>
    requires idx + 1 < |peaks|
  {
    if peaks[idx].Some? && idx + 1 <= carry then
      var next := if peaks[idx + 1].Some? then Some(join(peaks[idx + 1].value, peaks[idx].value)) else peaks[idx];
      peaks[idx + 1 := next][idx := None]
    else peaks
  }

  /** One round takes the peaks from one halfway form to the next. */
  lemma MergeStep<D>(join: Join<D>, was: Peaks<D>, leaf: D, idx: nat, peaks: Peaks<D>)
    requires Carry(was) > 0 && idx < |was| - (if Carry(was) == |was| then 0 else 1)
    requires peaks == Halfway(join, was, leaf, idx)
    ensures |peaks| > idx + 1
    ensures Halfway(join, was, leaf, idx + 1) == Merged(join, peaks, idx, Carry(was))
  {
    if Carry(was) == |was| {
      MergeShifted(join, was, leaf, idx, peaks);
    } else {
      MergeJoined(join, was, leaf, idx, peaks);
    }
  }

  lemma MergeShifted<D>(join: Join<D>, was: Peaks<D>, leaf: D, idx: nat, peaks: Peaks<D>)
    requires Carry(was) == |was| > idx
    requires peaks == Halfway(join, was, leaf, idx)
    ensures |peaks| > idx + 1
    ensures Halfway(join, was, leaf, idx + 1) == Merged(join, peaks, idx, Carry(was))
  {
    var c, d := Carried(join, was, leaf, idx), Carried(join, was, leaf, idx + 1);
    hide Form;
    assert d == join(was[idx].value, c);
    FormMoves(idx, c, was[idx..], d);
  }

  lemma MergeJoined<D>(join: Join<D>, was: Peaks<D>, leaf: D, idx: nat, peaks: Peaks<D>)
    requires 0 < Carry(was) < |was| && idx < |was| - 1
    requires peaks == Halfway(join, was, leaf, idx)
    ensures |peaks| > idx + 1
    ensures Halfway(join, was, leaf, idx + 1) == Merged(join, peaks, idx, Carry(was))
  {
    hide Form;
    var t := Carry(was);
    if 0 < idx < t {
      var c := Carried(join, was, leaf, idx + 1);
      if idx + 1 < t {
        var d := Carried(join, was, leaf, idx + 2);
        assert d == join(was[idx + 1].value, c);
        FormMoves(idx, c, was[idx + 1..], d);
      } else {
        FormMoves(idx, c, was[idx + 1..], c);
      }
    }
  }

  lemma AppendToFree<D>(join: Join<D>, was: Peaks<D>, leaf: D)
    requires Carry(was) == 0
    ensures Append(join, was, leaf) == (if was == [] then [None] else was)[0 := Some(leaf)]
  {
  }

  /** What the insertion does before the loop. */
  lemma HalfwayStarts<D>(join: Join<D>, was: Peaks<D>, leaf: D)
    requires Carry(was) > 0
    ensures var p := if Carry(was) == |was| then [None] + was else was;
            Halfway(join, was, leaf, 0) ==
            if p[0].None? then p[0 := Some(leaf)]
            else if p[1].Some? then p[1 := Some(join(p[1].value, join(p[0].value, leaf)))][0 := None]
            else p[1 := Some(join(p[0].value, leaf))][0 := None]
  {
    hide Carried, Form;
    FirstCarries(join, was, leaf);
    FirstForms(leaf, was);
    if Carry(was) < |was| {
      var x := Carried(join, was, leaf, if Carry(was) > 1 then 2 else 1);
      FirstForms(x, was[2..]);
      PutSecond(was, x);
    }
  }

  lemma FirstForms<D>(x: D, rest: Peaks<D>)
    ensures Form(0, x, rest) == [Some(x)] + rest == ([None] + rest)[0 := Some(x)]
    ensures Form(1, x, rest) == [None, Some(x)] + rest
  {
    assert Free<D>(0) == [] && Free<D>(1) == [None];
  }

  lemma PutSecond<D>(was: Peaks<D>, x: D)
    requires |was| >= 2
    ensures [None, Some(x)] + was[2..] == was[1 := Some(x)][0 := None]
  {
  }

  lemma FirstCarries<D>(join: Join<D>, peaks: Peaks<D>, leaf: D)
    ensures Carried(join, peaks, leaf, 0) == leaf
    ensures Carry(peaks) > 0 ==> Carried(join, peaks, leaf, 1) == join(peaks[0].value, leaf)
    ensures Carry(peaks) > 1 ==> Carried(join, peaks, leaf, 2) == join(peaks[1].value, join(peaks[0].value, leaf))
  {
    if Carry(peaks) > 1 {
      assert Carried(join, peaks, leaf, 2) == join(peaks[1].value, Carried(join, peaks, leaf, 1));
    }
  }

  lemma OddCount<D>(peaks: Peaks<D>)
    ensures (ItemCount(peaks) + 1) % 2 == 0 <==> Carry(peaks) > 0
  {
    CarryDivides(peaks, 1);
    assert Pow2(1) == 2;
    hide ItemCount, Carry;
  }

  /**
   The peaks before round `idx` of the merging loop.  If a place was added, the peaks are
   shifted by one and the carried leaf stands before them; otherwise it has already been
   joined with one peak more and stands in that peak's place.
   */
  ghost function Halfway<D>(join: Join<D>, was: Peaks<D>, leaf: D, idx: nat): Peaks<D>
    requires Carry(was) > 0 && idx <= |was|
  {
    var t := Carry(was);
    if t == |was| then Form(idx, Carried(join, was, leaf, idx), was[idx..])
    else
      var j := if idx == 0 then 1 else idx;
      if j < t then Form(j, Carried(join, was, leaf, j + 1), was[j + 1..])
      else Form(t, Carried(join, was, leaf, t), was[t + 1..])
  }
}
