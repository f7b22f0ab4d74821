/** The ring of public service ids, and the search for an unused one. */
module ServiceIds {
  import opened Options
  import opened Services

  /** How many public ids there are; the last 256 numbers stay reserved. */
  const RING_SIZE := 0x1_0000_0000 - FIRST_PUBLIC_ID - 0x100

  predicate IsPublic(id: Id) {
    FIRST_PUBLIC_ID <= id < FIRST_PUBLIC_ID + RING_SIZE
  }

  /** The id `k` places after the first one, around the ring. */
  function Ring(k: int): (id: Id)
    ensures IsPublic(id)
  {
    FIRST_PUBLIC_ID + k % RING_SIZE
  }

  /** Where the search for the next id starts. */
  function IdAfter(id: Id): Id {
    Ring(id - FIRST_PUBLIC_ID + 42)
  }

  function NextOnRing(id: Id): Id {
    Ring(id - FIRST_PUBLIC_ID + 1)
  }

  ghost predicate SomeIdIsFree(used: set<Id>) {
    exists id: Id :: IsPublic(id) && id !in used
  }

  /** How far ahead of `id` the id `target` is, around the ring. */
  function Ahead(id: Id, target: Id): (k: nat)
    requires IsPublic(id) && IsPublic(target)
    ensures k < RING_SIZE
  {
    if target >= id then target - id else target - id + RING_SIZE
  }

  lemma AheadShrinks(id: Id, target: Id)
    requires IsPublic(id) && IsPublic(target) && id != target
    ensures Ahead(NextOnRing(id), target) == Ahead(id, target) - 1
  {
    if id == FIRST_PUBLIC_ID + RING_SIZE - 1 {
      assert NextOnRing(id) == FIRST_PUBLIC_ID;
    } else {
      assert NextOnRing(id) == id + 1;
    }
  }

  ghost function AFreeId(used: set<Id>): (id: Id)
    requires SomeIdIsFree(used)
    ensures IsPublic(id) && id !in used
  {
    var id: Id :| IsPublic(id) && id !in used;
    id
  }

  /** The first unused id from `id` on. */
  function CheckServiceId(used: set<Id>, id: Id): (r: Id)
    requires IsPublic(id) && SomeIdIsFree(used)
    ensures IsPublic(r) && r !in used
    decreases Ahead(id, AFreeId(used))
  {
    if id in used then
      AheadShrinks(id, AFreeId(used));
      CheckServiceId(used, NextOnRing(id))
    else id
  }

  /** The same search, given up after `fuel` ids. */
  function SearchWithin(used: set<Id>, id: Id, fuel: nat): Option<Id>
    decreases fuel
  {
    if id !in used then Some(id)
    else if fuel == 0 then None
    else SearchWithin(used, NextOnRing(id), fuel - 1)
  }

  lemma {:induction false} SearchFinds(used: set<Id>, id: Id, fuel: nat)
    requires IsPublic(id) && SomeIdIsFree(used) && Ahead(id, AFreeId(used)) <= fuel
    ensures SearchWithin(used, id, fuel) == Some(CheckServiceId(used, id))
    decreases fuel
  {
    if id in used {
      AheadShrinks(id, AFreeId(used));
      SearchFinds(used, NextOnRing(id), fuel - 1);
    }
  }

  lemma {:induction false} FoundIsFree(used: set<Id>, id: Id, fuel: nat)
    requires IsPublic(id)
    ensures SearchWithin(used, id, fuel).Some? ==>
              IsPublic(SearchWithin(used, id, fuel).value) && SearchWithin(used, id, fuel).value !in used
    decreases fuel
  {
    if id in used && fuel > 0 {
      FoundIsFree(used, NextOnRing(id), fuel - 1);
    }
  }

  /** The search for an unused id ends if and only if there is one. */
  lemma SearchEndsExactly(used: set<Id>, id: Id)
    requires IsPublic(id)
    ensures (exists fuel :: SearchWithin(used, id, fuel).Some?) <==> SomeIdIsFree(used)
  {
    if SomeIdIsFree(used) {
      SearchFinds(used, id, RING_SIZE);
      assert SearchWithin(used, id, RING_SIZE).Some?;
    }
    if fuel :| SearchWithin(used, id, fuel).Some? {
      FoundIsFree(used, id, fuel);
    }
  }

  /** Everything the search passes before it ends is in use. */
  lemma {:induction false} SearchPasses(used: set<Id>, id: Id, x: Id)
    requires IsPublic(id) && IsPublic(x) && SomeIdIsFree(used)
    requires Ahead(id, x) < Ahead(id, CheckServiceId(used, id))
    ensures x in used
    decreases Ahead(id, AFreeId(used))
  {
    if id in used && x != id {
      AheadShrinks(id, AFreeId(used));
      AheadShrinks(id, x);
      var r := CheckServiceId(used, id);
      AheadShrinks(id, r);
      SearchPasses(used, NextOnRing(id), x);
    }
  }

  /** An id the search reaches before it comes back to `id`. */
  ghost predicate RoomAfter(used: set<Id>, id: Id)
    requires IsPublic(id)
  {
    exists x: Id :: IsPublic(x) && x !in used && Ahead(IdAfter(id), x) < Ahead(IdAfter(id), id)
  }

  lemma {:induction false} SearchIsFirst(used: set<Id>, id: Id, x: Id)
    requires IsPublic(id) && IsPublic(x) && x !in used
    requires SomeIdIsFree(used)
    ensures Ahead(id, CheckServiceId(used, id)) <= Ahead(id, x)
  {
    if Ahead(id, x) < Ahead(id, CheckServiceId(used, id)) {
      SearchPasses(used, id, x);
    }
  }

  /**
   The id kept for the next account differs from the one just given away exactly if some
   id is free other than that one and the 41 ids that follow it.
   */
  lemma NextIdIsNewExactly(used: set<Id>, id: Id)
    requires IsPublic(id) && id !in used
    ensures SomeIdIsFree(used)
    ensures CheckServiceId(used, IdAfter(id)) !in used + {id} <==> RoomAfter(used, id)
  {
    var start := IdAfter(id);
    var r := CheckServiceId(used, start);
    if r != id {
      SearchIsFirst(used, start, id);
      AheadIsInjective(start, r, id);
    }
    if RoomAfter(used, id) {
      var x: Id :| IsPublic(x) && x !in used && Ahead(start, x) < Ahead(start, id);
      SearchIsFirst(used, start, x);
    }
  }

  /** When all other public ids are taken, the id just given away is kept for the next account too. */
  lemma LastIdIsKept(id: Id)
    requires IsPublic(id)
    ensures var used := set x: Id | x < 0x1_0000_0000 && IsPublic(x) && x != id;
            && id !in used && SomeIdIsFree(used)
            && CheckServiceId(used, IdAfter(id)) == id && !RoomAfter(used, id)
  {
    var used := set x: Id | x < 0x1_0000_0000 && IsPublic(x) && x != id;
    assert id !in used;
    NextIdIsNewExactly(used, id);
    assert CheckServiceId(used, IdAfter(id)) !in used;
  }

  lemma AheadIsInjective(id: Id, a: Id, b: Id)
    requires IsPublic(id) && IsPublic(a) && IsPublic(b) && a != b
    ensures Ahead(id, a) != Ahead(id, b)
  {
  }

  /** Fewer accounts than places leave one of the places free. */
  lemma {:induction false} OneOfManyIsFree(used: set<Id>, start: Id, k: nat) returns (x: Id)
    requires IsPublic(start) && |used| < k <= RING_SIZE
    ensures IsPublic(x) && x !in used && Ahead(start, x) < k
    decreases k
  {
    var last := Ring(start - FIRST_PUBLIC_ID + (k - 1));
    assert Ahead(start, last) == k - 1 by {
      RingAhead(start, k - 1);
    }
    if last !in used {
      x := last;
    } else {
      x := OneOfManyIsFree(used - {last}, start, k - 1);
    }
  }

  lemma RingAhead(start: Id, j: nat)
    requires IsPublic(start) && j < RING_SIZE
    ensures Ahead(start, Ring(start - FIRST_PUBLIC_ID + j)) == j
  {
    var k := start - FIRST_PUBLIC_ID + j;
    if k < RING_SIZE {
      assert Ring(k) == FIRST_PUBLIC_ID + k;
    } else {
      assert Ring(k) == FIRST_PUBLIC_ID + k - RING_SIZE;
    }
  }

  lemma FewAccountsLeaveRoom(used: set<Id>, id: Id)
    requires IsPublic(id) && |used| + 42 < RING_SIZE
    ensures RoomAfter(used, id) && SomeIdIsFree(used)
  {
    var start := IdAfter(id);
    RingAhead(id, 42);
    assert Ahead(start, id) == RING_SIZE - 42;
    var x := OneOfManyIsFree(used, start, RING_SIZE - 42);
  }
}
