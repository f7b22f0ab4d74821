/** Decoding of a code blob into instructions, and the basic block met from a start. */
module BasicBlocks {
  import opened Octets
  import opened Options
  import opened ReorderBuffer
  import opened Instructions

  /** The number of argument bytes after `pc`, at least `length`, at most 24. */
  function SkipFrom(bitmask: seq<bool>, pc: nat, length: nat): (r: nat)
    requires length <= MAX_SKIP
    ensures length <= r <= MAX_SKIP
    decreases MAX_SKIP - length
  {
    if length < MAX_SKIP && pc + length + 1 < |bitmask| && !bitmask[pc + length + 1]
    then SkipFrom(bitmask, pc, length + 1)
    else length
  }

  function Skip(bitmask: seq<bool>, pc: nat): nat {
    SkipFrom(bitmask, pc, 0)
  }

  predicate Begins(code: seq<Byte>, bitmask: seq<bool>, pc: nat)
    requires |code| == |bitmask|
  {
    pc < |code| && bitmask[pc] && ValidOpcode(code[pc])
  }

  /** The instruction starts from `pc` on, up to the first that is invalid. */
  function Starts(code: seq<Byte>, bitmask: seq<bool>, pc: nat): seq<nat>
    requires |code| == |bitmask|
    decreases |code| - pc
  {
    if !Begins(code, bitmask, pc) then [] else [pc] + Starts(code, bitmask, pc + Skip(bitmask, pc) + 1)
  }

  /** From `pc` the instructions reach exactly the end of the code, the last a terminator. */
  predicate Accepted(code: seq<Byte>, bitmask: seq<bool>, pc: nat)
    requires |code| == |bitmask|
    decreases |code| - pc
  {
    && Begins(code, bitmask, pc)
    && var next := pc + Skip(bitmask, pc) + 1;
       if next >= |code| then Terminator(code[pc]) else Accepted(code, bitmask, next)
  }

  /** The tables a decoder hands to the gas model. */
  datatype Listing = Listing(positions: map<int, nat>, lengths: seq<int>, valid: bool)

  predicate Tabulates(bitmask: seq<bool>, starts: seq<nat>, d: Listing) {
    Listed(bitmask, starts, d.positions, d.lengths)
  }

  predicate Listed(bitmask: seq<bool>, starts: seq<nat>, positions: map<int, nat>, lengths: seq<int>) {
    && |lengths| == |starts|
    && (forall k :: 0 <= k < |starts| ==> starts[k] in positions && positions[starts[k]] == k)
    && (forall pc :: pc in positions ==> positions[pc] < |starts| && starts[positions[pc]] == pc)
    && (forall k :: 0 <= k < |starts| ==> lengths[k] == Skip(bitmask, starts[k]))
  }

  lemma OneMoreListed(bitmask: seq<bool>, done: seq<nat>, positions: map<int, nat>, lengths: seq<int>, pc: nat)
    requires Listed(bitmask, done, positions, lengths)
    requires forall k :: 0 <= k < |done| ==> done[k] < pc
    ensures Listed(bitmask, done + [pc], positions[pc := |lengths|], lengths + [Skip(bitmask, pc)])
  {
    hide Skip;
  }

  lemma StartsUnfold(code: seq<Byte>, bitmask: seq<bool>, done: seq<nat>, pc: nat)
    requires |code| == |bitmask|
    ensures !Begins(code, bitmask, pc) ==> done + Starts(code, bitmask, pc) == done
    ensures Begins(code, bitmask, pc) ==>
              done + Starts(code, bitmask, pc) == (done + [pc]) + Starts(code, bitmask, pc + Skip(bitmask, pc) + 1)
  {
    hide Begins, Skip;
  }

  method DecodeInstructions(code: seq<Byte>, bitmask: seq<bool>) returns (d: Listing)
    ensures |code| != |bitmask| ==> !d.valid
    ensures |code| == |bitmask| ==> (d.valid <==> Accepted(code, bitmask, 0))
    ensures |code| == |bitmask| ==> Tabulates(bitmask, Starts(code, bitmask, 0), d)
  {
    hide Listed, Starts, ValidOpcode, Terminator;
    if |code| == 0 || |code| != |bitmask| {
      NothingListed(code, bitmask);
      return Listing(map[], [], false);
    }
    var positions: map<int, nat>, lengths: seq<int> := map[], [];
    var pc, last := 0, code[0];
    ghost var done: seq<nat> := [];
    NothingListed([], bitmask);
    while pc < |code|
      invariant done + Starts(code, bitmask, pc) == Starts(code, bitmask, 0)
      invariant Listed(bitmask, done, positions, lengths)
      invariant forall k :: 0 <= k < |done| ==> done[k] < pc
      invariant if pc < |code| then Accepted(code, bitmask, pc) == Accepted(code, bitmask, 0)
                else Accepted(code, bitmask, 0) == Terminator(last)
    {
      StartsUnfold(code, bitmask, done, pc);
      if !bitmask[pc] || !ValidOpcode(code[pc]) {
        return Listing(positions, lengths, false);
      }
      var length := 0;
      while length < MAX_SKIP && pc + length + 1 < |code| && !bitmask[pc + length + 1]
        invariant length <= MAX_SKIP
        invariant SkipFrom(bitmask, pc, length) == Skip(bitmask, pc)
      {
        length := length + 1;
      }
      OneMoreListed(bitmask, done, positions, lengths, pc);
      positions := positions[pc := |lengths|];
      lengths := lengths + [length];
      last := code[pc];
      done := done + [pc];
      pc := pc + length + 1;
    }
    StartsUnfold(code, bitmask, done, pc);
    d := Listing(positions, lengths, Terminator(last));
  }

  lemma NothingListed(code: seq<Byte>, bitmask: seq<bool>)
    ensures Listed(bitmask, [], map[], [])
    ensures |code| == |bitmask| == 0 ==> Starts(code, bitmask, 0) == []
  {
  }

  // ---------------------------------------------------------------- basic blocks

  function Length(d: Listing, pc: int): Option<nat> {
    if pc in d.positions && d.positions[pc] < |d.lengths| && 0 <= d.lengths[d.positions[pc]] <= MAX_SKIP
    then Some(d.lengths[d.positions[pc]])
    else None
  }

  /** The instruction at `pc`, or none where the gas model raises. */
  function Fetch(code: seq<Byte>, d: Listing, pc: int, polkavmCmov: bool): Option<Op> {
    match Length(d, pc)
    case None => None
    case Some(length) => OpAt(code, pc, length, polkavmCmov)
  }

  function Ahead(d: Listing, pc: int): set<int> {
    set p | p in d.positions && p >= pc
  }

  lemma AheadShrinks(d: Listing, pc: int)
    requires pc in d.positions
    ensures forall next :: next > pc ==> Ahead(d, next) < Ahead(d, pc)
  {
    forall next | next > pc
      ensures Ahead(d, next) < Ahead(d, pc)
    {
      assert pc in Ahead(d, pc) && pc !in Ahead(d, next);
    }
  }

  /** The instructions from `pc` up to a terminator, or up to the first that cannot be fetched. */
  ghost function BlockAt(code: seq<Byte>, d: Listing, pc: int, polkavmCmov: bool): Block
    decreases Ahead(d, pc)
  {
    match Fetch(code, d, pc, polkavmCmov)
    case None => Block([], false)
    case Some(op) =>
      if Terminator(ByteAt(code, pc)) then Block([op], true)
      else
        var next := pc + Length(d, pc).value + 1;
        assert Ahead(d, pc + Length(d, pc).value + 1) < Ahead(d, pc) by { AheadShrinks(d, pc); }
        var rest := BlockAt(code, d, next, polkavmCmov);
        Block([op] + rest.ops, rest.closed)
  }

  lemma FetchedIsValid(code: seq<Byte>, d: Listing, pc: int, polkavmCmov: bool)
    requires Fetch(code, d, pc, polkavmCmov).Some?
    ensures pc in d.positions && Length(d, pc).Some? && Fetch(code, d, pc, polkavmCmov).value.Valid()
  {
    OpAtIsValid(code, pc, Length(d, pc).value, polkavmCmov);
  }

  lemma {:induction false} BlockIsValid(code: seq<Byte>, d: Listing, pc: int, polkavmCmov: bool)
    ensures BlockAt(code, d, pc, polkavmCmov).Valid()
    decreases Ahead(d, pc)
  {
    hide Fetch, Length, Terminator, Ahead;
    match Fetch(code, d, pc, polkavmCmov)
    case None =>
    case Some(op) =>
      FetchedIsValid(code, d, pc, polkavmCmov);
      if !Terminator(ByteAt(code, pc)) {
        AheadShrinks(d, pc);
        BlockIsValid(code, d, pc + Length(d, pc).value + 1, polkavmCmov);
      }
  }

  lemma {:induction false} StartsCover(code: seq<Byte>, bitmask: seq<bool>, from: nat, pc: nat)
    requires |code| == |bitmask|
    requires Accepted(code, bitmask, from)
    requires pc in Starts(code, bitmask, from)
    ensures Accepted(code, bitmask, pc)
    ensures pc == from || pc in Starts(code, bitmask, from + Skip(bitmask, from) + 1)
    ensures pc + Skip(bitmask, pc) + 1 >= |code| || pc + Skip(bitmask, pc) + 1 in Starts(code, bitmask, from)
    decreases |code| - from
  {
    var next := from + Skip(bitmask, from) + 1;
    if pc == from {
      if next < |code| {
        assert Starts(code, bitmask, next)[0] == next;
      }
    } else {
      StartsCover(code, bitmask, next, pc);
    }
  }

  lemma ListedIsFetched(code: seq<Byte>, bitmask: seq<bool>, d: Listing, pc: nat, polkavmCmov: bool)
    requires |code| == |bitmask| && Accepted(code, bitmask, 0)
    requires Tabulates(bitmask, Starts(code, bitmask, 0), d)
    requires pc in d.positions
    ensures pc < |code| && Length(d, pc) == Some(Skip(bitmask, pc)) && Fetch(code, d, pc, polkavmCmov).Some?
    ensures Terminator(ByteAt(code, pc)) || pc + Skip(bitmask, pc) + 1 in d.positions
  {
    StartsCover(code, bitmask, 0, pc);
    OpAtIsValid(code, pc, Skip(bitmask, pc), polkavmCmov);
    hide Starts;
  }

  /** From every instruction start of an accepted blob the block is non-empty and ends in a terminator. */
  lemma {:induction false} AcceptedBlocksClose(code: seq<Byte>, bitmask: seq<bool>, d: Listing, pc: nat,
      polkavmCmov: bool)
    requires |code| == |bitmask| && Accepted(code, bitmask, 0)
    requires Tabulates(bitmask, Starts(code, bitmask, 0), d)
    requires pc in d.positions
    ensures BlockAt(code, d, pc, polkavmCmov).Valid()
    ensures BlockAt(code, d, pc, polkavmCmov).closed && |BlockAt(code, d, pc, polkavmCmov).ops| > 0
    decreases |code| - pc
  {
    hide Fetch, Length, Terminator, Tabulates, Starts, Accepted, Skip;
    BlockIsValid(code, d, pc, polkavmCmov);
    ListedIsFetched(code, bitmask, d, pc, polkavmCmov);
    if !Terminator(ByteAt(code, pc)) {
      AheadShrinks(d, pc);
      AcceptedBlocksClose(code, bitmask, d, pc + Skip(bitmask, pc) + 1, polkavmCmov);
    }
  }
}
