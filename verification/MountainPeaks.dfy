/** What the peaks are after any number of insertions. */
module MountainPeaks {
  import opened Options
  import opened Powers
  import opened MountainRange

  /** The peaks after inserting the leaves one by one. */
  function AppendAll<D>(join: Join<D>, leaves: seq<D>): Peaks<D> {
    if leaves == [] then []
    else Append(join, AppendAll(join, leaves[..|leaves| - 1]), leaves[|leaves| - 1])
  }

  /** The root of the perfect tree over two to the `k` leaves. */
  function TreeRoot<D>(join: Join<D>, leaves: seq<D>, k: nat): D
    requires |leaves| == Pow2(k)
  {
    if k == 0 then leaves[0]
    else join(TreeRoot(join, leaves[..Pow2(k - 1)], k - 1), TreeRoot(join, leaves[Pow2(k - 1)..], k - 1))
  }

  // ---------------------------------------------------------------- level by level

  function Pairs<D>(join: Join<D>, leaves: seq<D>): seq<D> {
    seq(|leaves| / 2, i requires 0 <= i < |leaves| / 2 => join(leaves[2 * i], leaves[2 * i + 1]))
  }

  /** A lone last leaf is a peak by itself; the others are joined in pairs. */
  function Levels<D>(join: Join<D>, leaves: seq<D>): Peaks<D>
    decreases |leaves|
  {
    if leaves == [] then []
    else
      [if |leaves| % 2 == 1 then Some(leaves[|leaves| - 1]) else None] + Levels(join, Pairs(join, leaves))
  }

  lemma {:induction false} AppendToLevels<D>(join: Join<D>, leaves: seq<D>, leaf: D)
    ensures Append(join, Levels(join, leaves), leaf) == Levels(join, leaves + [leaf])
    decreases |leaves|
  {
    var longer, n := leaves + [leaf], |leaves|;
    if n % 2 == 0 {
      assert Pairs(join, longer) == Pairs(join, leaves);
      assert Levels(join, longer) == [Some(leaf)] + Levels(join, Pairs(join, leaves));
      if n == 0 {
        assert Pairs(join, leaves) == [];
      }
    } else {
      var joined := join(leaves[n - 1], leaf);
      assert Pairs(join, longer) == Pairs(join, leaves) + [joined];
      AppendToLevels(join, Pairs(join, leaves), joined);
    }
  }

  lemma {:induction false} AppendAllIsLevels<D>(join: Join<D>, leaves: seq<D>)
    ensures AppendAll(join, leaves) == Levels(join, leaves)
  {
    if leaves != [] {
      var front, last := leaves[..|leaves| - 1], leaves[|leaves| - 1];
      AppendAllIsLevels(join, front);
      AppendToLevels(join, front, last);
      assert leaves == front + [last];
    }
  }

  lemma PairsOfHalves<D>(join: Join<D>, leaves: seq<D>, quarter: nat)
    requires |leaves| == 4 * quarter
    ensures |Pairs(join, leaves)| == 2 * quarter
    ensures Pairs(join, leaves)[..quarter] == Pairs(join, leaves[..2 * quarter])
    ensures Pairs(join, leaves)[quarter..] == Pairs(join, leaves[2 * quarter..])
  {
  }

  lemma PairsOfRun<D>(join: Join<D>, leaves: seq<D>, start: nat, size: nat)
    requires 2 * start + 2 * size <= |leaves|
    ensures Pairs(join, leaves[2 * start..2 * start + 2 * size]) == Pairs(join, leaves)[start..start + size]
  {
  }

  /** Joining the pairs first does not change the root. */
  lemma {:induction false} TreeOfPairs<D>(join: Join<D>, leaves: seq<D>, k: nat)
    requires |leaves| == Pow2(k + 1)
    ensures |Pairs(join, leaves)| == Pow2(k)
    ensures TreeRoot(join, leaves, k + 1) == TreeRoot(join, Pairs(join, leaves), k)
  {
    hide Pairs, TreeRoot, Pow2;
    if k > 0 {
      TreeUnfolds(join, leaves, k);
      var half, quarter := Pow2(k), Pow2(k - 1);
      assert half == 2 * quarter by {
        PowDoubles(k - 1);
      }
      PairsOfHalves(join, leaves, quarter);
      TreeOfPairs(join, leaves[..half], k - 1);
      TreeOfPairs(join, leaves[half..], k - 1);
      TreeUnfolds(join, Pairs(join, leaves), k - 1);
    } else {
      TreeOfOnePair(join, leaves);
    }
  }

  lemma TreeUnfolds<D>(join: Join<D>, leaves: seq<D>, k: nat)
    requires |leaves| == Pow2(k + 1)
    ensures Pow2(k) < |leaves| == 2 * Pow2(k)
    ensures TreeRoot(join, leaves, k + 1) ==
            join(TreeRoot(join, leaves[..Pow2(k)], k), TreeRoot(join, leaves[Pow2(k)..], k))
  {
  }

  lemma TreeOfOnePair<D>(join: Join<D>, leaves: seq<D>)
    requires |leaves| == Pow2(1)
    ensures |Pairs(join, leaves)| == Pow2(0)
    ensures TreeRoot(join, leaves, 1) == TreeRoot(join, Pairs(join, leaves), 0)
  {
    assert leaves[..1] == [leaves[0]] && leaves[1..] == [leaves[1]];
  }

  lemma HalfFirst(n: nat, y: nat)
    requires y >= 1
    ensures n / (2 * y) == n / 2 / y
    ensures n % (2 * y) == 2 * (n / 2 % y) + n % 2
  {
    var h := n / 2;
    var q, r := h / y, h % y;
    assert h == y * q + r;
    assert n == (2 * y) * q + (2 * r + n % 2);
    ModIs(n, 2 * y, q, 2 * r + n % 2);
  }

  /** Where the leaves under place `i` begin: after all that the higher places cover. */
  function RunStart(n: nat, i: nat): nat {
    ModAtMost(n, Pow2(i + 1));
    n - n % Pow2(i + 1)
  }

  /** The binary digit of `n` at place `i`. */
  predicate Digit(n: nat, i: nat) {
    n / Pow2(i) % 2 == 1
  }

  lemma RunStartHalves(n: nat, i: nat)
    requires i > 0
    ensures RunStart(n, i) == 2 * RunStart(n / 2, i - 1)
    ensures Digit(n, i) <==> Digit(n / 2, i - 1)
  {
    HalfFirst(n, Pow2(i - 1));
    HalfFirst(n, Pow2(i));
  }

  /** A place whose digit is one covers the next run of leaves after the higher places. */
  ghost predicate PeakIsRun<D>(join: Join<D>, leaves: seq<D>, peaks: Peaks<D>, i: nat)
    requires i < |peaks|
  {
    var n, start := |leaves|, RunStart(|leaves|, i);
    && (peaks[i].Some? <==> Digit(n, i))
    && (peaks[i].Some? ==>
          && start + Pow2(i) <= n
          && peaks[i].value == TreeRoot(join, leaves[start..start + Pow2(i)], i))
  }

  lemma {:induction false} LevelIsRun<D>(join: Join<D>, leaves: seq<D>, i: nat)
    requires i < |Levels(join, leaves)|
    ensures PeakIsRun(join, leaves, Levels(join, leaves), i)
    decreases i
  {
    hide TreeRoot;
    var n := |leaves|;
    if i == 0 {
      LastLeafIsRun(join, leaves);
    } else {
      var pairs := Pairs(join, leaves);
      LevelIsRun(join, pairs, i - 1);
      NextLevelIsRun(join, leaves, Levels(join, leaves), i);
    }
  }

  lemma LastLeafIsRun<D>(join: Join<D>, leaves: seq<D>)
    requires leaves != []
    ensures PeakIsRun(join, leaves, Levels(join, leaves), 0)
  {
    var n := |leaves|;
    assert Pow2(0) == 1 && Pow2(1) == 2;
    assert RunStart(n, 0) == n - n % 2;
    if n % 2 == 1 {
      assert leaves[n - 1..n - 1 + 1] == [leaves[n - 1]];
    }
  }

  lemma NextLevelIsRun<D>(join: Join<D>, leaves: seq<D>, peaks: Peaks<D>, i: nat)
    requires 0 < i < |peaks| && PeakIsRun(join, Pairs(join, leaves), peaks[1..], i - 1)
    ensures PeakIsRun(join, leaves, peaks, i)
  {
    hide RunStart, Pairs, TreeRoot, Digit, Pow2;
    var half := RunStart(|leaves| / 2, i - 1);
    RunStartHalves(|leaves|, i);
    PairsLength(join, leaves);
    if peaks[i].Some? {
      assert peaks[i] == peaks[1..][i - 1];
      RunOfPairs(join, leaves, half, i);
    }
  }

  lemma RunOfPairs<D>(join: Join<D>, leaves: seq<D>, half: nat, i: nat)
    requires i > 0 && half + Pow2(i - 1) <= |leaves| / 2
    ensures |Pairs(join, leaves)| == |leaves| / 2
    ensures 2 * half + Pow2(i) <= |leaves|
    ensures TreeRoot(join, leaves[2 * half..2 * half + Pow2(i)], i) ==
            TreeRoot(join, Pairs(join, leaves)[half..half + Pow2(i - 1)], i - 1)
  {
    hide TreeRoot, Pairs;
    PairsLength(join, leaves);
    PairsOfRun(join, leaves, half, Pow2(i - 1));
    TreeOfPairs(join, leaves[2 * half..2 * half + Pow2(i)], i - 1);
  }

  lemma PairsLength<D>(join: Join<D>, leaves: seq<D>)
    ensures |Pairs(join, leaves)| == |leaves| / 2
  {
  }

  lemma {:induction false} LevelsLength<D>(join: Join<D>, leaves: seq<D>)
    ensures |Levels(join, leaves)| == BitLength(|leaves|)
    ensures ItemCount(Levels(join, leaves)) == |leaves|
    ensures Trimmed(Levels(join, leaves))
    decreases |leaves|
  {
    if leaves != [] {
      LevelsLength(join, Pairs(join, leaves));
      var rest := Levels(join, Pairs(join, leaves));
      assert Levels(join, leaves)[1..] == rest;
      assert rest == [] ==> |leaves| == 1;
    }
  }

  /**
   After inserting any leaves, the occupied places are the binary digits of their number,
   and the peak at each is the root of the perfect tree over its run of leaves, the
   highest place first.
   */
  lemma PeaksAreRuns<D>(join: Join<D>, leaves: seq<D>)
    ensures var peaks := AppendAll(join, leaves);
            && |peaks| == BitLength(|leaves|) && Trimmed(peaks) && ItemCount(peaks) == |leaves|
            && forall i :: 0 <= i < |peaks| ==> PeakIsRun(join, leaves, peaks, i)
  {
    AppendAllIsLevels(join, leaves);
    LevelsLength(join, leaves);
    forall i | 0 <= i < |Levels(join, leaves)|
      ensures PeakIsRun(join, leaves, Levels(join, leaves), i)
    {
      LevelIsRun(join, leaves, i);
    }
  }

  /** Inserting into the empty range, leaf after leaf. */
  method InsertAll<D>(join: Join<D>, leaves: seq<D>) returns (m: MerkleMountainRange<D>)
    ensures m.peaks == AppendAll(join, leaves)
  {
    m := new MerkleMountainRange([], join);
    for n := 0 to |leaves|
      invariant fresh(m) && m.join == join
      invariant m.peaks == AppendAll(join, leaves[..n])
    {
      PeaksAreRuns(join, leaves[..n]);
      m.Insert(leaves[n]);
      assert leaves[..n + 1][..n] == leaves[..n];
    }
    assert leaves[..|leaves|] == leaves;
  }
}
