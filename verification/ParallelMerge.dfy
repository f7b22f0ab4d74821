/** Joining what the invocations of one round changed: own and new accounts, then deletions win. */
module ParallelMerge {
  import opened Octets
  import opened Options
  import opened Services

  /** The changes pending at the end of one service's invocation. */
  datatype Output = Output(writer: Id, pending: PendingChanges)

  predicate OneEach(outputs: seq<Output>) {
    forall i, j :: 0 <= i < j < |outputs| ==> outputs[i].writer != outputs[j].writer
  }

  // ---------------------------------------------------------------- which changes count

  function Touched(p: PendingChanges): set<Id> {
    p.accounts.Keys + (set k | k in p.storage :: k.id) + (set k | k in p.blobs :: k.id)
    + (set k | k in p.requests :: k.id)
  }

  /** The accounts there were before the round, among those that any output touches. */
  function Existing(before: World, outputs: seq<Output>): set<Id> {
    set o, id | o in outputs && id in Touched(o.pending) && id in before.accounts :: id
  }

  function Deleted(existing: set<Id>, outputs: seq<Output>): set<Id> {
    set o, id | o in outputs && id in o.pending.accounts && o.pending.accounts[id].None? && id in existing :: id
  }

  predicate Takes(existing: set<Id>, deleted: set<Id>, o: Output, id: Id) {
    && id in o.pending.accounts && o.pending.accounts[id].Some?
    && id !in deleted && (id in existing ==> id == o.writer)
  }

  /** Whether entries of account `id` count when `o` wrote them. */
  predicate Owner(existing: set<Id>, o: Output, id: Id) {
    || (id == o.writer && id in existing)
    || (id !in existing && id in o.pending.accounts && o.pending.accounts[id].Some?)
  }

  // ---------------------------------------------------------------- the merge

  /** The accounts taken so far, and who made each new one. */
  datatype Taken = Taken(accounts: map<Id, Option<Account>>, makers: map<Id, Id>)

  predicate Clashes(existing: set<Id>, deleted: set<Id>, makers: map<Id, Id>, o: Output, id: Id) {
    Takes(existing, deleted, o, id) && id !in existing && id in makers && makers[id] != o.writer
  }

  function TakeAccounts(existing: set<Id>, deleted: set<Id>, outputs: seq<Output>): Option<Taken> {
    if outputs == [] then Some(Taken(map[], map[]))
    else
      var o := outputs[|outputs| - 1];
      match TakeAccounts(existing, deleted, outputs[..|outputs| - 1])
      case None => None
      case Some(t) =>
        if exists id :: id in o.pending.accounts && Clashes(existing, deleted, t.makers, o, id) then None
        else Some(AllTaken(existing, deleted, t, o))
  }

  function Kept(existing: set<Id>, deleted: set<Id>, o: Output, ids: set<Id>): map<Id, Option<Account>>
    requires ids <= o.pending.accounts.Keys
  {
    map id | id in ids && Takes(existing, deleted, o, id) :: o.pending.accounts[id]
  }

  function Made(existing: set<Id>, deleted: set<Id>, o: Output, ids: set<Id>): map<Id, Id> {
    map id | id in ids && Takes(existing, deleted, o, id) && id !in existing :: o.writer
  }

  /** After the accounts `ids` of one more output. */
  function TakenFrom(existing: set<Id>, deleted: set<Id>, t: Taken, o: Output, ids: set<Id>): Taken
    requires ids <= o.pending.accounts.Keys
  {
    Taken(t.accounts + Kept(existing, deleted, o, ids), t.makers + Made(existing, deleted, o, ids))
  }

  function AllTaken(existing: set<Id>, deleted: set<Id>, t: Taken, o: Output): Taken {
    TakenFrom(existing, deleted, t, o, o.pending.accounts.Keys)
  }

  /** One of the three maps of entries; `of` picks it from an output and `id` tells whose an entry is. */
  function MergeMap<K(!new), V>(existing: set<Id>, deleted: set<Id>, outputs: seq<Output>,
      of: Output -> map<K, Option<V>>, id: K -> Id): map<K, Option<V>> {
    if outputs == [] then map[]
    else
      var o := outputs[|outputs| - 1];
      MergeMap(existing, deleted, outputs[..|outputs| - 1], of, id) + Counting(existing, deleted, o, of, id)
  }

  function Counting<K(!new), V>(existing: set<Id>, deleted: set<Id>, o: Output, of: Output -> map<K, Option<V>>,
      id: K -> Id): map<K, Option<V>> {
    map k | k in of(o) && (id(k) in deleted || Owner(existing, o, id(k))) :: if id(k) in deleted then None else of(o)[k]
  }

  function StorageOf(o: Output): map<ItemKey, Option<Bytes>> { o.pending.storage }
  function BlobsOf(o: Output): map<BlobKey, Option<Bytes>> { o.pending.blobs }
  function RequestsBy(o: Output): map<RequestKey, Option<History>> { o.pending.requests }

  function Merge(before: World, outputs: seq<Output>): Option<PendingChanges> {
    var existing := Existing(before, outputs);
    var deleted := Deleted(existing, outputs);
    match TakeAccounts(existing, deleted, outputs)
    case None => None
    case Some(t) =>
      Some(PendingChanges(
        t.accounts + (map id | id in deleted :: None),
        MergeMap(existing, deleted, outputs, StorageOf, (k: ItemKey) => k.id),
        MergeMap(existing, deleted, outputs, BlobsOf, (k: BlobKey) => k.id),
        MergeMap(existing, deleted, outputs, RequestsBy, (k: RequestKey) => k.id)))
  }

  // ---------------------------------------------------------------- the merge as it runs

  method TakeOutput(existing: set<Id>, deleted: set<Id>, t: Taken, o: Output) returns (r: Option<Taken>)
    ensures r == if exists id :: id in o.pending.accounts && Clashes(existing, deleted, t.makers, o, id) then None
                 else Some(AllTaken(existing, deleted, t, o))
  {
    hide Clashes, TakenFrom;
    var accounts: map<Id, Option<Account>>, makers: map<Id, Id>, left := t.accounts, t.makers, o.pending.accounts.Keys;
    NoneTaken(existing, deleted, t, o);
    while left != {}
      invariant left <= o.pending.accounts.Keys
      invariant forall id :: id in o.pending.accounts.Keys - left ==> !Clashes(existing, deleted, t.makers, o, id)
      invariant Taken(accounts, makers) == TakenFrom(existing, deleted, t, o, o.pending.accounts.Keys - left)
      decreases left
    {
      var id :| id in left;
      TakeOne(existing, deleted, t, o, o.pending.accounts.Keys - left, id);
      assert o.pending.accounts.Keys - left + {id} == o.pending.accounts.Keys - (left - {id});
      if o.pending.accounts[id].Some? && id !in deleted && (id !in existing || id == o.writer) {
        if id !in existing {
          if id in makers && makers[id] != o.writer {
            return None;
          }
          makers := makers[id := o.writer];
        }
        accounts := accounts[id := o.pending.accounts[id]];
      }
      left := left - {id};
    }
    assert o.pending.accounts.Keys - left == o.pending.accounts.Keys;
    r := Some(Taken(accounts, makers));
  }

  lemma NoneTaken(existing: set<Id>, deleted: set<Id>, t: Taken, o: Output)
    ensures TakenFrom(existing, deleted, t, o, o.pending.accounts.Keys - o.pending.accounts.Keys) == t
  {
  }

  lemma TakeOne(existing: set<Id>, deleted: set<Id>, t: Taken, o: Output, ids: set<Id>, id: Id)
    requires ids <= o.pending.accounts.Keys && id in o.pending.accounts && id !in ids
    ensures var u := TakenFrom(existing, deleted, t, o, ids);
            && TakenFrom(existing, deleted, t, o, ids + {id}) ==
               Taken(if Takes(existing, deleted, o, id) then u.accounts[id := o.pending.accounts[id]] else u.accounts,
                     if Takes(existing, deleted, o, id) && id !in existing then u.makers[id := o.writer] else u.makers)
            && (Clashes(existing, deleted, t.makers, o, id) <==>
                Takes(existing, deleted, o, id) && id !in existing && id in u.makers && u.makers[id] != o.writer)
  {
    KeptOne(existing, deleted, o, ids, id);
    MadeOne(existing, deleted, o, ids, id);
    var k, m := Kept(existing, deleted, o, ids), Made(existing, deleted, o, ids);
    UnionPut(t.accounts, k, id, o.pending.accounts[id]);
    UnionPut(t.makers, m, id, o.writer);
    hide Kept, Made;
  }

  lemma UnionPut<K, V>(a: map<K, V>, b: map<K, V>, k: K, v: V)
    ensures a + b[k := v] == (a + b)[k := v]
  {
  }

  lemma KeptOne(existing: set<Id>, deleted: set<Id>, o: Output, ids: set<Id>, id: Id)
    requires ids <= o.pending.accounts.Keys && id in o.pending.accounts && id !in ids
    ensures var k := Kept(existing, deleted, o, ids);
            Kept(existing, deleted, o, ids + {id}) ==
            if Takes(existing, deleted, o, id) then k[id := o.pending.accounts[id]] else k
  {
    hide Takes;
  }

  lemma MadeOne(existing: set<Id>, deleted: set<Id>, o: Output, ids: set<Id>, id: Id)
    requires id !in ids
    ensures var m := Made(existing, deleted, o, ids);
            && id !in m
            && Made(existing, deleted, o, ids + {id}) ==
               if Takes(existing, deleted, o, id) && id !in existing then m[id := o.writer] else m
  {
    hide Takes;
  }

  /** The entries that count among the given keys. */
  function CountingAmong<K(!new), V>(existing: set<Id>, deleted: set<Id>, o: Output, of: Output -> map<K, Option<V>>,
      id: K -> Id, keys: set<K>): map<K, Option<V>> {
    map k | k in keys && k in of(o) && (id(k) in deleted || Owner(existing, o, id(k))) ::
      if id(k) in deleted then None else of(o)[k]
  }

  lemma CountOne<K(!new), V>(existing: set<Id>, deleted: set<Id>, o: Output, of: Output -> map<K, Option<V>>,
      id: K -> Id, keys: set<K>, k: K)
    requires k in of(o) && k !in keys
    ensures var c := CountingAmong(existing, deleted, o, of, id, keys);
            CountingAmong(existing, deleted, o, of, id, keys + {k}) ==
            if id(k) in deleted then c[k := None] else if Owner(existing, o, id(k)) then c[k := of(o)[k]] else c
  {
    hide Owner;
  }

  lemma CountAll<K(!new), V>(existing: set<Id>, deleted: set<Id>, o: Output, of: Output -> map<K, Option<V>>,
      id: K -> Id)
    ensures CountingAmong(existing, deleted, o, of, id, {}) == map[]
    ensures CountingAmong(existing, deleted, o, of, id, of(o).Keys) == Counting(existing, deleted, o, of, id)
  {
    hide Owner;
  }

  method AddEntries<K(!new, ==), V>(existing: set<Id>, deleted: set<Id>, target: map<K, Option<V>>, o: Output,
      of: Output -> map<K, Option<V>>, id: K -> Id)
    returns (r: map<K, Option<V>>)
    ensures r == target + Counting(existing, deleted, o, of, id)
  {
    hide CountingAmong, Counting;
    CountAll(existing, deleted, o, of, id);
    r := target;
    var left := of(o).Keys;
    assert of(o).Keys - left == {} && target + map[] == target;
    while left != {}
      invariant left <= of(o).Keys
      invariant r == target + CountingAmong(existing, deleted, o, of, id, of(o).Keys - left)
      decreases left
    {
      var k :| k in left;
      CountOne(existing, deleted, o, of, id, of(o).Keys - left, k);
      ghost var among := CountingAmong(existing, deleted, o, of, id, of(o).Keys - left);
      assert of(o).Keys - left + {k} == of(o).Keys - (left - {k});
      if id(k) in deleted {
        UnionPut(target, among, k, None);
        r := r[k := None];
      } else if (id(k) == o.writer && id(k) in existing)
             || (id(k) !in existing && id(k) in o.pending.accounts && o.pending.accounts[id(k)].Some?) {
        UnionPut(target, among, k, of(o)[k]);
        r := r[k := of(o)[k]];
      }
      left := left - {k};
    }
    assert of(o).Keys - left == of(o).Keys;
  }

  method MergeServiceChanges(before: World, outputs: seq<Output>) returns (r: Option<PendingChanges>)
    ensures r == Merge(before, outputs)
  {
    hide Existing, Deleted, AllTaken, Counting, Clashes;
    var existing := Existing(before, outputs);
    var deleted := Deleted(existing, outputs);
    var t := Taken(map[], map[]);
    var storage: map<ItemKey, Option<Bytes>> := map[];
    var blobs: map<BlobKey, Option<Bytes>> := map[];
    var requests: map<RequestKey, Option<History>> := map[];
    for n := 0 to |outputs|
      invariant TakeAccounts(existing, deleted, outputs[..n]) == Some(t)
      invariant storage == MergeMap(existing, deleted, outputs[..n], StorageOf, (k: ItemKey) => k.id)
      invariant blobs == MergeMap(existing, deleted, outputs[..n], BlobsOf, (k: BlobKey) => k.id)
      invariant requests == MergeMap(existing, deleted, outputs[..n], RequestsBy, (k: RequestKey) => k.id)
    {
      assert outputs[..n + 1][..n] == outputs[..n];
      var next := TakeOutput(existing, deleted, t, outputs[n]);
      if next.None? {
        NoneStays(existing, deleted, outputs, n + 1);
        return None;
      }
      t := next.value;
      storage := AddEntries(existing, deleted, storage, outputs[n], StorageOf, (k: ItemKey) => k.id);
      blobs := AddEntries(existing, deleted, blobs, outputs[n], BlobsOf, (k: BlobKey) => k.id);
      requests := AddEntries(existing, deleted, requests, outputs[n], RequestsBy, (k: RequestKey) => k.id);
    }
    assert outputs[..|outputs|] == outputs;
    r := Some(PendingChanges(t.accounts + (map id | id in deleted :: None), storage, blobs, requests));
  }

  lemma {:induction false} NoneStays(existing: set<Id>, deleted: set<Id>, outputs: seq<Output>, n: nat)
    requires n <= |outputs| && TakeAccounts(existing, deleted, outputs[..n]) == None
    ensures TakeAccounts(existing, deleted, outputs) == None
    decreases |outputs|
  {
    if n < |outputs| {
      assert outputs[..|outputs| - 1][..n] == outputs[..n];
      NoneStays(existing, deleted, outputs[..|outputs| - 1], n);
    } else {
      assert outputs[..n] == outputs;
    }
  }

  // ---------------------------------------------------------------- what the merge is, without its order

  /** Two different outputs make the same new account. */
  ghost predicate Conflict(existing: set<Id>, deleted: set<Id>, outputs: seq<Output>) {
    exists o, p, id :: o in outputs && p in outputs && o.writer != p.writer
      && id !in existing && Takes(existing, deleted, o, id) && Takes(existing, deleted, p, id)
  }

  /** What has been taken from the outputs, whatever their order. */
  ghost predicate TakenExactly(existing: set<Id>, deleted: set<Id>, outputs: seq<Output>, t: Taken) {
    && (forall id :: id in t.accounts <==> exists o :: o in outputs && Takes(existing, deleted, o, id))
    && (forall id, o :: o in outputs && Takes(existing, deleted, o, id) ==> t.accounts[id] == o.pending.accounts[id])
    && (forall id :: id in t.makers <==> id !in existing && id in t.accounts)
    && (forall id, o :: o in outputs && Takes(existing, deleted, o, id) && id !in existing ==> t.makers[id] == o.writer)
  }

  lemma {:induction false} TakenAre(existing: set<Id>, deleted: set<Id>, outputs: seq<Output>)
    requires OneEach(outputs)
    ensures TakeAccounts(existing, deleted, outputs).None? <==> Conflict(existing, deleted, outputs)
    ensures TakeAccounts(existing, deleted, outputs).Some? ==>
              TakenExactly(existing, deleted, outputs, TakeAccounts(existing, deleted, outputs).value)
  {
    hide TakenExactly, Takes, AllTaken, Clashes, Conflict;
    if outputs == [] {
      NothingTaken(existing, deleted);
    } else {
      var front, o := outputs[..|outputs| - 1], outputs[|outputs| - 1];
      assert outputs == front + [o];
      TakenAre(existing, deleted, front);
      var before := TakeAccounts(existing, deleted, front);
      if before.None? {
        ConflictStays(existing, deleted, front, o);
      } else {
        OneMoreConflict(existing, deleted, front, o, before.value);
        if forall id :: id in o.pending.accounts ==> !Clashes(existing, deleted, before.value.makers, o, id) {
          OneMoreTaken(existing, deleted, front, o, before.value);
        }
      }
    }
  }

  lemma NothingTaken(existing: set<Id>, deleted: set<Id>)
    ensures !Conflict(existing, deleted, []) && TakenExactly(existing, deleted, [], Taken(map[], map[]))
  {
  }

  lemma ConflictStays(existing: set<Id>, deleted: set<Id>, front: seq<Output>, o: Output)
    requires Conflict(existing, deleted, front)
    ensures Conflict(existing, deleted, front + [o])
  {
    hide Takes;
    var p, q, id :| p in front && q in front && p.writer != q.writer
      && id !in existing && Takes(existing, deleted, p, id) && Takes(existing, deleted, q, id);
    assert p in front + [o] && q in front + [o];
  }

  lemma OneMoreConflict(existing: set<Id>, deleted: set<Id>, front: seq<Output>, o: Output, t: Taken)
    requires OneEach(front + [o]) && TakenExactly(existing, deleted, front, t) && !Conflict(existing, deleted, front)
    ensures Conflict(existing, deleted, front + [o]) <==>
            exists id :: id in o.pending.accounts && Clashes(existing, deleted, t.makers, o, id)
  {
    hide Takes;
    if id :| id in o.pending.accounts && Clashes(existing, deleted, t.makers, o, id) {
      var p :| p in front && Takes(existing, deleted, p, id);
      assert p in front + [o] && o in front + [o];
    }
    if Conflict(existing, deleted, front + [o]) {
      var p, q, id :| p in front + [o] && q in front + [o] && p.writer != q.writer
        && id !in existing && Takes(existing, deleted, p, id) && Takes(existing, deleted, q, id);
      OneIsOld(existing, deleted, front, o, t, p, q, id);
    }
  }

  lemma OneIsOld(existing: set<Id>, deleted: set<Id>, front: seq<Output>, o: Output, t: Taken, p: Output, q: Output,
      id: Id)
    requires TakenExactly(existing, deleted, front, t) && !Conflict(existing, deleted, front)
    requires p in front + [o] && q in front + [o] && p.writer != q.writer && id !in existing
    requires Takes(existing, deleted, p, id) && Takes(existing, deleted, q, id)
    ensures Takes(existing, deleted, o, id) && Clashes(existing, deleted, t.makers, o, id)
  {
    assert p in front || q in front;
  }

  lemma OneMoreTaken(existing: set<Id>, deleted: set<Id>, front: seq<Output>, o: Output, t: Taken)
    requires OneEach(front + [o]) && TakenExactly(existing, deleted, front, t)
    requires forall id :: id in o.pending.accounts ==> !Clashes(existing, deleted, t.makers, o, id)
    ensures TakenExactly(existing, deleted, front + [o], AllTaken(existing, deleted, t, o))
  {
    var all, u := front + [o], AllTaken(existing, deleted, t, o);
    hide AllTaken, Clashes;
    forall id
      ensures id in u.accounts <==> exists p :: p in all && Takes(existing, deleted, p, id)
      ensures id in u.makers <==> id !in existing && id in u.accounts
    {
      OneMoreId(existing, deleted, front, o, t, id);
    }
    forall id, p | p in all && Takes(existing, deleted, p, id)
      ensures u.accounts[id] == p.pending.accounts[id] && (id !in existing ==> u.makers[id] == p.writer)
    {
      OneMoreValue(existing, deleted, front, o, t, p, id);
    }
  }

  lemma OneMoreId(existing: set<Id>, deleted: set<Id>, front: seq<Output>, o: Output, t: Taken, id: Id)
    requires TakenExactly(existing, deleted, front, t)
    ensures var u := AllTaken(existing, deleted, t, o);
            && (id in u.accounts <==> exists p :: p in front + [o] && Takes(existing, deleted, p, id))
            && (id in u.makers <==> id !in existing && id in u.accounts)
  {
    hide Takes;
    TakesIsPending(existing, deleted, o, id);
    assert forall p :: p in front + [o] <==> p in front || p == o;
  }

  lemma OneMoreValue(existing: set<Id>, deleted: set<Id>, front: seq<Output>, o: Output, t: Taken, p: Output, id: Id)
    requires OneEach(front + [o]) && TakenExactly(existing, deleted, front, t)
    requires forall id :: id in o.pending.accounts ==> !Clashes(existing, deleted, t.makers, o, id)
    requires p in front + [o] && Takes(existing, deleted, p, id)
    ensures var u := AllTaken(existing, deleted, t, o);
            && id in u.accounts && u.accounts[id] == p.pending.accounts[id]
            && (id !in existing ==> id in u.makers && u.makers[id] == p.writer)
  {
    if p in front {
      NotBoth(existing, deleted, front, o, t, p, id);
    }
    hide TakenExactly;
    assert p in front || p == o;
    if p in front {
      KeptFromBefore(existing, deleted, front, o, t, p, id);
    }
  }

  lemma KeptFromBefore(existing: set<Id>, deleted: set<Id>, front: seq<Output>, o: Output, t: Taken, p: Output, id: Id)
    requires TakenExactly(existing, deleted, front, t) && p in front
    requires Takes(existing, deleted, p, id) && !Takes(existing, deleted, o, id)
    ensures var u := AllTaken(existing, deleted, t, o);
            && id in u.accounts && u.accounts[id] == p.pending.accounts[id]
            && (id !in existing ==> id in u.makers && u.makers[id] == p.writer)
  {
    hide Takes;
  }

  lemma TakesIsPending(existing: set<Id>, deleted: set<Id>, o: Output, id: Id)
    ensures Takes(existing, deleted, o, id) ==> id in o.pending.accounts
  {
  }

  lemma NotBoth(existing: set<Id>, deleted: set<Id>, front: seq<Output>, o: Output, t: Taken, p: Output, id: Id)
    requires OneEach(front + [o]) && TakenExactly(existing, deleted, front, t)
    requires forall id :: id in o.pending.accounts ==> !Clashes(existing, deleted, t.makers, o, id)
    requires p in front && Takes(existing, deleted, p, id)
    ensures !Takes(existing, deleted, o, id)
  {
    var all := front + [o];
    var i :| 0 <= i < |front| && front[i] == p;
    assert all[i].writer != all[|front|].writer;
    assert id !in existing && Takes(existing, deleted, o, id) ==> Clashes(existing, deleted, t.makers, o, id);
  }

  lemma {:induction false} EntriesAre<K(!new), V>(existing: set<Id>, deleted: set<Id>, outputs: seq<Output>,
      of: Output -> map<K, Option<V>>, id: K -> Id)
    ensures var m := MergeMap(existing, deleted, outputs, of, id);
            && (forall k :: k in m <==>
                  exists o :: o in outputs && k in of(o) && (id(k) in deleted || Owner(existing, o, id(k))))
            && (forall k :: k in m && id(k) in deleted ==> m[k] == None)
            && (forall k :: k in m && id(k) !in deleted ==>
                  exists o :: o in outputs && k in of(o) && Owner(existing, o, id(k)) && m[k] == of(o)[k])
  {
    if outputs != [] {
      var front, o := outputs[..|outputs| - 1], outputs[|outputs| - 1];
      assert outputs == front + [o];
      EntriesAre(existing, deleted, front, of, id);
    }
  }

  /** Without a conflict an account that is not deleted has at most one owner. */
  lemma OwnerIsUnique(existing: set<Id>, deleted: set<Id>, outputs: seq<Output>, o: Output, p: Output, id: Id)
    requires OneEach(outputs) && !Conflict(existing, deleted, outputs) && id !in deleted
    requires o in outputs && p in outputs && Owner(existing, o, id) && Owner(existing, p, id)
    ensures o == p
  {
    if o.writer != p.writer {
      assert Takes(existing, deleted, o, id) && Takes(existing, deleted, p, id);
      assert false;
    }
    SameWriterSame(outputs, o, p);
  }

  lemma SameWriterSame(outputs: seq<Output>, o: Output, p: Output)
    requires OneEach(outputs) && o in outputs && p in outputs && o.writer == p.writer
    ensures o == p
  {
    var i :| 0 <= i < |outputs| && outputs[i] == o;
    var j :| 0 <= j < |outputs| && outputs[j] == p;
  }

  lemma SameEntries<K(!new), V>(existing: set<Id>, deleted: set<Id>, a: seq<Output>, b: seq<Output>,
      of: Output -> map<K, Option<V>>, id: K -> Id)
    requires OneEach(a) && !Conflict(existing, deleted, a) && forall o :: o in a <==> o in b
    ensures MergeMap(existing, deleted, a, of, id) == MergeMap(existing, deleted, b, of, id)
  {
    hide MergeMap, Conflict, Owner, OneEach;
    SameKeys(existing, deleted, a, b, of, id);
    var m, n := MergeMap(existing, deleted, a, of, id), MergeMap(existing, deleted, b, of, id);
    forall k | k in m
      ensures m[k] == n[k]
    {
      SameValue(existing, deleted, a, b, of, id, k);
    }
  }

  lemma SameKeys<K(!new), V>(existing: set<Id>, deleted: set<Id>, a: seq<Output>, b: seq<Output>,
      of: Output -> map<K, Option<V>>, id: K -> Id)
    requires forall o :: o in a <==> o in b
    ensures MergeMap(existing, deleted, a, of, id).Keys == MergeMap(existing, deleted, b, of, id).Keys
  {
    hide MergeMap, Owner;
    EntriesAre(existing, deleted, a, of, id);
    EntriesAre(existing, deleted, b, of, id);
  }

  lemma SameValue<K(!new), V>(existing: set<Id>, deleted: set<Id>, a: seq<Output>, b: seq<Output>,
      of: Output -> map<K, Option<V>>, id: K -> Id, k: K)
    requires OneEach(a) && !Conflict(existing, deleted, a) && forall o :: o in a <==> o in b
    requires k in MergeMap(existing, deleted, a, of, id) && k in MergeMap(existing, deleted, b, of, id)
    ensures MergeMap(existing, deleted, a, of, id)[k] == MergeMap(existing, deleted, b, of, id)[k]
  {
    hide MergeMap, Conflict, Owner, OneEach;
    EntriesAre(existing, deleted, a, of, id);
    EntriesAre(existing, deleted, b, of, id);
    if id(k) !in deleted {
      var m, n := MergeMap(existing, deleted, a, of, id), MergeMap(existing, deleted, b, of, id);
      var o :| o in a && k in of(o) && Owner(existing, o, id(k)) && m[k] == of(o)[k];
      var p :| p in b && k in of(p) && Owner(existing, p, id(k)) && n[k] == of(p)[k];
      OwnerIsUnique(existing, deleted, a, o, p, id(k));
    }
  }

  lemma SameTaken(existing: set<Id>, deleted: set<Id>, a: seq<Output>, b: seq<Output>)
    requires OneEach(a) && OneEach(b) && forall o :: o in a <==> o in b
    ensures TakeAccounts(existing, deleted, a).None? <==> TakeAccounts(existing, deleted, b).None?
    ensures TakeAccounts(existing, deleted, a).Some? ==>
              TakeAccounts(existing, deleted, a).value.accounts == TakeAccounts(existing, deleted, b).value.accounts
  {
    hide TakeAccounts, Takes;
    TakenAre(existing, deleted, a);
    TakenAre(existing, deleted, b);
    if TakeAccounts(existing, deleted, a).Some? {
      var t, u := TakeAccounts(existing, deleted, a).value, TakeAccounts(existing, deleted, b).value;
      assert t.accounts.Keys == u.accounts.Keys;
    }
  }

  /** The order in which the outputs are merged does not matter: the same maps, or a conflict in every order. */
  lemma MergeIsOrderFree(before: World, a: seq<Output>, b: seq<Output>)
    requires OneEach(a) && OneEach(b) && forall o :: o in a <==> o in b
    ensures Merge(before, a) == Merge(before, b)
  {
    hide TakeAccounts, MergeMap, OneEach, Conflict;
    var existing := Existing(before, a);
    assert existing == Existing(before, b);
    var deleted := Deleted(existing, a);
    assert deleted == Deleted(existing, b);
    SameTaken(existing, deleted, a, b);
    TakenAre(existing, deleted, a);
    if TakeAccounts(existing, deleted, a).Some? {
      SameEntries(existing, deleted, a, b, StorageOf, (k: ItemKey) => k.id);
      SameEntries(existing, deleted, a, b, BlobsOf, (k: BlobKey) => k.id);
      SameEntries(existing, deleted, a, b, RequestsBy, (k: RequestKey) => k.id);
    }
  }
}
