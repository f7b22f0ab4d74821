/** What the services look like after a round's changes are merged. */
module MergeLaws {
  import opened Options
  import opened FiniteSums
  import opened Services
  import opened HostCalls
  import opened Footprints
  import opened Balances
  import opened ParallelMerge

  // ---------------------------------------------------------------- one account in two worlds

  ghost predicate SameEntriesFor<K(!new), V>(a: map<K, V>, b: map<K, V>, of: K -> Id, id: Id) {
    forall k :: of(k) == id ==> (k in a <==> k in b) && (k in a ==> a[k] == b[k])
  }

  ghost predicate SameFor(v: World, w: World, id: Id) {
    && (id in v.accounts <==> id in w.accounts) && (id in v.accounts ==> v.accounts[id] == w.accounts[id])
    && SameEntriesFor(v.storage, w.storage, (k: ItemKey) => k.id, id)
    && SameEntriesFor(v.blobs, w.blobs, (k: BlobKey) => k.id, id)
    && SameEntriesFor(v.requests, w.requests, (k: RequestKey) => k.id, id)
  }

  ghost predicate SoundAt(env: Env, w: World, id: Id) {
    && (id in w.accounts ==> ExactFor(w, id, w.accounts[id]) && w.accounts[id].balance >= w.accounts[id].Threshold())
    && (forall k :: k in w.storage && k.id == id ==> w.storage[k] != [] && id in w.accounts)
    && (forall k :: k in w.requests && k.id == id ==> id in w.accounts)
    && (forall k :: k in w.blobs && k.id == id ==>
          id in w.accounts && env.hash(w.blobs[k]) == k.hash && RequestKey(id, k.hash, |w.blobs[k]|) in w.requests)
  }

  lemma SoundEverywhere(env: Env, w: World)
    ensures Sound(env, w) && Solvent(w) <==> forall id :: SoundAt(env, w, id)
  {
    if forall id :: SoundAt(env, w, id) {
      SoundFromParts(env, w);
    }
    if Sound(env, w) && Solvent(w) {
      forall id
        ensures SoundAt(env, w, id)
      {
        hide ExactFor;
      }
    }
  }

  lemma SoundFromParts(env: Env, w: World)
    requires forall id :: SoundAt(env, w, id)
    ensures Sound(env, w) && Solvent(w)
  {
    hide ExactFor;
    forall k | k in w.storage
      ensures w.storage[k] != [] && k.id in w.accounts
    {
      assert SoundAt(env, w, k.id);
    }
    forall k | k in w.requests
      ensures k.id in w.accounts
    {
      assert SoundAt(env, w, k.id);
    }
    forall k | k in w.blobs
      ensures k.id in w.accounts && env.hash(w.blobs[k]) == k.hash &&
              RequestKey(k.id, k.hash, |w.blobs[k]|) in w.requests
    {
      assert SoundAt(env, w, k.id);
    }
    assert forall id :: id in w.accounts ==> SoundAt(env, w, id);
  }

  lemma SameExact(v: World, w: World, id: Id, a: Account)
    requires SameFor(v, w, id) && ExactFor(v, id, a)
    ensures ExactFor(w, id, a)
  {
    assert ItemsOf(v.storage, id) == ItemsOf(w.storage, id);
    assert RequestsOf(v.requests, id) == RequestsOf(w.requests, id);
    SumOverSame(ItemsOf(v.storage, id), k => ItemOctets(v.storage, k), k => ItemOctets(w.storage, k));
  }

  lemma SameIsSound(env: Env, v: World, w: World, id: Id)
    requires SameFor(v, w, id) && SoundAt(env, v, id)
    ensures SoundAt(env, w, id)
  {
    if id in v.accounts {
      SameExact(v, w, id, v.accounts[id]);
    }
    hide ExactFor;
  }

  // ---------------------------------------------------------------- where each account comes from

  ghost predicate Merged(before: World, outputs: seq<Output>, p: PendingChanges) {
    OneEach(outputs) && Merge(before, outputs) == Some(p)
  }

  ghost function DeletedIn(before: World, outputs: seq<Output>): set<Id> {
    Deleted(Existing(before, outputs), outputs)
  }

  lemma MergedIs(before: World, outputs: seq<Output>, p: PendingChanges)
    requires Merged(before, outputs, p)
    ensures var existing, deleted := Existing(before, outputs), DeletedIn(before, outputs);
            && OneEach(outputs) && !Conflict(existing, deleted, outputs)
            && (forall id :: id in p.accounts <==>
                  id in deleted || exists o :: o in outputs && Takes(existing, deleted, o, id))
            && (forall id :: id in deleted ==> p.accounts[id] == None)
            && (forall id, o :: o in outputs && id !in deleted && Takes(existing, deleted, o, id) ==>
                  p.accounts[id] == o.pending.accounts[id])
            && p.storage == MergeMap(existing, deleted, outputs, StorageOf, (k: ItemKey) => k.id)
            && p.blobs == MergeMap(existing, deleted, outputs, BlobsOf, (k: BlobKey) => k.id)
            && p.requests == MergeMap(existing, deleted, outputs, RequestsBy, (k: RequestKey) => k.id)
  {
    hide MergeMap, Conflict, OneEach, TakeAccounts, Takes, Existing, Deleted;
    TakenAre(Existing(before, outputs), DeletedIn(before, outputs), outputs);
  }

  /** What the merge does to the entries of an account that stays: its owner's changes, or none. */
  lemma EntriesFrom<K(!new), V>(base: map<K, V>, existing: set<Id>, deleted: set<Id>, outputs: seq<Output>,
      of: Output -> map<K, Option<V>>, id: K -> Id, x: Id, o: Output)
    requires OneEach(outputs) && !Conflict(existing, deleted, outputs) && x !in deleted
    requires o in outputs && Owner(existing, o, x)
    ensures SameEntriesFor(Overlay(base, of(o)), Overlay(base, MergeMap(existing, deleted, outputs, of, id)), id, x)
  {
    hide MergeMap, Conflict, OneEach, Owner;
    var m := MergeMap(existing, deleted, outputs, of, id);
    EntriesAre(existing, deleted, outputs, of, id);
    forall k | id(k) == x
      ensures k in m <==> k in of(o)
      ensures k in m ==> m[k] == of(o)[k]
    {
      if k in m {
        var p :| p in outputs && k in of(p) && Owner(existing, p, id(k)) && m[k] == of(p)[k];
        OwnerIsUnique(existing, deleted, outputs, o, p, x);
      }
    }
  }

  lemma EntriesUnchanged<K(!new), V>(base: map<K, V>, existing: set<Id>, deleted: set<Id>, outputs: seq<Output>,
      of: Output -> map<K, Option<V>>, id: K -> Id, x: Id)
    requires x !in deleted && forall o :: o in outputs ==> !Owner(existing, o, x)
    ensures SameEntriesFor(base, Overlay(base, MergeMap(existing, deleted, outputs, of, id)), id, x)
  {
    hide MergeMap, Owner;
    EntriesAre(existing, deleted, outputs, of, id);
  }

  /** An account that stays, and all its entries, are as its only owner left them. */
  lemma ComesFromOwner(before: World, outputs: seq<Output>, p: PendingChanges, o: Output, id: Id)
    requires Merged(before, outputs, p) && id !in DeletedIn(before, outputs)
    requires o in outputs && Owner(Existing(before, outputs), o, id)
    ensures SameFor(View(before, o.pending), View(before, p), id)
  {
    var existing, deleted := Existing(before, outputs), DeletedIn(before, outputs);
    MergedIs(before, outputs, p);
    hide MergeMap, Conflict, OneEach, Merged, DeletedIn, Existing, Owner, Takes, SameEntriesFor;
    EntriesFrom(before.storage, existing, deleted, outputs, StorageOf, (k: ItemKey) => k.id, id, o);
    EntriesFrom(before.blobs, existing, deleted, outputs, BlobsOf, (k: BlobKey) => k.id, id, o);
    EntriesFrom(before.requests, existing, deleted, outputs, RequestsBy, (k: RequestKey) => k.id, id, o);
    AccountFromOwner(before, outputs, p, o, id);
  }

  lemma AccountFromOwner(before: World, outputs: seq<Output>, p: PendingChanges, o: Output, id: Id)
    requires Merged(before, outputs, p) && id !in DeletedIn(before, outputs)
    requires o in outputs && Owner(Existing(before, outputs), o, id)
    ensures id in p.accounts <==> id in o.pending.accounts
    ensures id in p.accounts ==> p.accounts[id] == o.pending.accounts[id]
  {
    var existing, deleted := Existing(before, outputs), DeletedIn(before, outputs);
    MergedIs(before, outputs, p);
    hide Merged, MergeMap, OneEach, Conflict, Existing;
    if q :| q in outputs && Takes(existing, deleted, q, id) {
      assert Owner(existing, q, id);
      OwnerIsUnique(existing, deleted, outputs, o, q, id);
    }
    assert id in o.pending.accounts && o.pending.accounts[id].Some? ==> Takes(existing, deleted, o, id);
  }

  /** An account that nobody owns is as it was. */
  lemma Unowned(before: World, outputs: seq<Output>, p: PendingChanges, id: Id)
    requires Merged(before, outputs, p) && id !in DeletedIn(before, outputs)
    requires forall o :: o in outputs ==> !Owner(Existing(before, outputs), o, id)
    ensures SameFor(before, View(before, p), id)
  {
    var existing, deleted := Existing(before, outputs), DeletedIn(before, outputs);
    MergedIs(before, outputs, p);
    assert forall o :: o in outputs && Takes(existing, deleted, o, id) ==> Owner(existing, o, id);
    hide Merged, MergeMap, Conflict, OneEach, Owner, Takes, Existing, DeletedIn, SameEntriesFor;
    EntriesUnchanged(before.storage, existing, deleted, outputs, StorageOf, (k: ItemKey) => k.id, id);
    EntriesUnchanged(before.blobs, existing, deleted, outputs, BlobsOf, (k: BlobKey) => k.id, id);
    EntriesUnchanged(before.requests, existing, deleted, outputs, RequestsBy, (k: RequestKey) => k.id, id);
  }

  lemma NoEntriesLeft<K(!new), V>(base: map<K, V>, existing: set<Id>, deleted: set<Id>, outputs: seq<Output>,
      of: Output -> map<K, Option<V>>, id: K -> Id, x: Id, o: Output)
    requires x in deleted && o in outputs
    requires forall k :: k in Overlay(base, of(o)) ==> id(k) != x
    ensures forall k :: k in Overlay(base, MergeMap(existing, deleted, outputs, of, id)) ==> id(k) != x
  {
    hide MergeMap, Owner;
    EntriesAre(existing, deleted, outputs, of, id);
  }

  /**
   No entry of a deleted account survives: whoever deleted it saw none left, and what others
   wrote for it is dropped.
   */
  lemma DeletedLeavesNothing(before: World, outputs: seq<Output>, p: PendingChanges, id: Id)
    requires Merged(before, outputs, p) && id in DeletedIn(before, outputs)
    requires forall o :: o in outputs ==> Owned(View(before, o.pending))
    ensures var w := View(before, p);
            && id !in w.accounts
            && (forall k :: k in w.storage ==> k.id != id)
            && (forall k :: k in w.blobs ==> k.id != id)
            && (forall k :: k in w.requests ==> k.id != id)
  {
    var existing, deleted := Existing(before, outputs), DeletedIn(before, outputs);
    var o :| o in outputs && id in o.pending.accounts && o.pending.accounts[id].None? && id in existing;
    assert id !in View(before, o.pending).accounts;
    MergedIs(before, outputs, p);
    hide Merged, MergeMap, Conflict, OneEach, Owner, Takes, Existing, DeletedIn;
    NoEntriesLeft(before.storage, existing, deleted, outputs, StorageOf, (k: ItemKey) => k.id, id, o);
    NoEntriesLeft(before.blobs, existing, deleted, outputs, BlobsOf, (k: BlobKey) => k.id, id, o);
    NoEntriesLeft(before.requests, existing, deleted, outputs, RequestsBy, (k: RequestKey) => k.id, id, o);
  }

  /**
   If the services were in order before the round and each invocation left what it saw in
   order, the merged services are in order: footprints exact, deposits kept, nothing orphaned.
   */
  lemma MergeKeepsSound(env: Env, before: World, outputs: seq<Output>, p: PendingChanges)
    requires Merged(before, outputs, p)
    requires Sound(env, before) && Solvent(before)
    requires forall o :: o in outputs ==> Sound(env, View(before, o.pending)) && Solvent(View(before, o.pending))
    ensures Sound(env, View(before, p)) && Solvent(View(before, p))
  {
    var w := View(before, p);
    forall id
      ensures SoundAt(env, w, id)
    {
      MergedAt(env, before, outputs, p, id);
    }
    SoundFromParts(env, w);
  }

  lemma MergedAt(env: Env, before: World, outputs: seq<Output>, p: PendingChanges, id: Id)
    requires Merged(before, outputs, p)
    requires Sound(env, before) && Solvent(before)
    requires forall o :: o in outputs ==> Sound(env, View(before, o.pending)) && Solvent(View(before, o.pending))
    ensures SoundAt(env, View(before, p), id)
  {
    if id in DeletedIn(before, outputs) {
      hide *;
      forall o | o in outputs
        ensures Owned(View(before, o.pending))
      {
        SoundIsOwned(env, View(before, o.pending));
      }
      DeletedLeavesNothing(before, outputs, p, id);
      GoneIsSound(env, View(before, p), id);
    } else {
      hide DeletedIn, SoundAt, View, Sound, Solvent, Merged, Owner, Existing, SameFor;
      if o :| o in outputs && Owner(Existing(before, outputs), o, id) {
        SoundEverywhere(env, View(before, o.pending));
        ComesFromOwner(before, outputs, p, o, id);
        SameIsSound(env, View(before, o.pending), View(before, p), id);
      } else {
        SoundEverywhere(env, before);
        Unowned(before, outputs, p, id);
        SameIsSound(env, before, View(before, p), id);
      }
    }
  }

  lemma GoneIsSound(env: Env, w: World, id: Id)
    requires id !in w.accounts
    requires forall k :: k in w.storage ==> k.id != id
    requires forall k :: k in w.blobs ==> k.id != id
    requires forall k :: k in w.requests ==> k.id != id
    ensures SoundAt(env, w, id)
  {
  }

  lemma SoundIsOwned(env: Env, w: World)
    requires Sound(env, w)
    ensures Owned(w)
  {
  }
}
