/** The footprint counters of an account against the sums over what its service really stores. */
module Footprints {
  import opened Octets
  import opened Options
  import opened FiniteSums
  import opened Services
  import opened HostCalls

  // ---------------------------------------------------------------- the sums

  ghost function ItemsOf(storage: map<ItemKey, Bytes>, s: Id): set<ItemKey> {
    set k | k in storage && k.id == s
  }

  ghost function ItemOctets(storage: map<ItemKey, Bytes>, k: ItemKey): nat {
    if k in storage then 34 + |k.key| + |storage[k]| else 0
  }

  ghost function StorageOctets(storage: map<ItemKey, Bytes>, s: Id): nat {
    SumOver(ItemsOf(storage, s), k => ItemOctets(storage, k))
  }

  ghost function RequestsOf(requests: map<RequestKey, History>, s: Id): set<RequestKey> {
    set k | k in requests && k.id == s
  }

  ghost function RequestOctets(requests: map<RequestKey, History>, s: Id): nat {
    SumOver(RequestsOf(requests, s), (k: RequestKey) => 81 + k.size)
  }

  /** A request counts for two items. */
  ghost predicate ExactFor(w: World, s: Id, a: Account) {
    && a.items == |ItemsOf(w.storage, s)| + 2 * |RequestsOf(w.requests, s)|
    && a.octets == StorageOctets(w.storage, s) + RequestOctets(w.requests, s)
  }

  ghost predicate Exact(w: World) {
    forall s :: s in w.accounts ==> ExactFor(w, s, w.accounts[s])
  }

  ghost predicate NoEmptyValues(w: World) {
    forall k :: k in w.storage ==> w.storage[k] != []
  }

  /** Whatever is stored, is stored by an account that exists. */
  ghost predicate Owned(w: World) {
    && (forall k :: k in w.storage ==> k.id in w.accounts)
    && (forall k :: k in w.blobs ==> k.id in w.accounts)
    && (forall k :: k in w.requests ==> k.id in w.accounts)
  }

  /** Every blob answers a request for its hash and its length. */
  ghost predicate Backed(env: Env, w: World) {
    forall k :: k in w.blobs ==> env.hash(w.blobs[k]) == k.hash && RequestKey(k.id, k.hash, |w.blobs[k]|) in w.requests
  }

  ghost predicate Sound(env: Env, w: World) {
    Exact(w) && NoEmptyValues(w) && Owned(w) && Backed(env, w)
  }

  // ---------------------------------------------------------------- how the sums change

  lemma OthersKeepItems(storage: map<ItemKey, Bytes>, k: ItemKey, v: Bytes, s: Id)
    requires s != k.id
    ensures ItemsOf(storage[k := v], s) == ItemsOf(storage, s)
    ensures StorageOctets(storage[k := v], s) == StorageOctets(storage, s)
  {
    var after := storage[k := v];
    assert ItemsOf(after, s) == ItemsOf(storage, s);
    SumOverSame(ItemsOf(storage, s), x => ItemOctets(after, x), x => ItemOctets(storage, x));
  }

  lemma StoragePut(storage: map<ItemKey, Bytes>, k: ItemKey, v: Bytes)
    ensures forall s :: s != k.id ==> ItemsOf(storage[k := v], s) == ItemsOf(storage, s)
    ensures forall s :: s != k.id ==> StorageOctets(storage[k := v], s) == StorageOctets(storage, s)
    ensures |ItemsOf(storage[k := v], k.id)| == |ItemsOf(storage, k.id)| + if k in storage then 0 else 1
    ensures StorageOctets(storage[k := v], k.id) ==
            StorageOctets(storage, k.id) - ItemOctets(storage, k) + 34 + |k.key| + |v|
  {
    hide ItemsOf, StorageOctets, ItemOctets;
    var after := storage[k := v];
    forall s | s != k.id
      ensures ItemsOf(after, s) == ItemsOf(storage, s)
      ensures StorageOctets(after, s) == StorageOctets(storage, s)
    {
      OthersKeepItems(storage, k, v, s);
    }
    PutOwn(storage, k, v);
  }

  lemma PutOwn(storage: map<ItemKey, Bytes>, k: ItemKey, v: Bytes)
    ensures |ItemsOf(storage[k := v], k.id)| == |ItemsOf(storage, k.id)| + if k in storage then 0 else 1
    ensures StorageOctets(storage[k := v], k.id) ==
            StorageOctets(storage, k.id) - ItemOctets(storage, k) + 34 + |k.key| + |v|
  {
    var after, own := storage[k := v], ItemsOf(storage, k.id);
    var rest := own - {k};
    assert ItemsOf(after, k.id) == rest + {k};
    assert own == if k in storage then rest + {k} else rest;
    assert forall x :: x in rest ==> ItemOctets(after, x) == ItemOctets(storage, x);
    assert ItemOctets(after, k) == 34 + |k.key| + |v|;
    hide ItemsOf, ItemOctets;
    SumOverSame(rest, x => ItemOctets(after, x), x => ItemOctets(storage, x));
    SumOverAdd(rest, x => ItemOctets(after, x), k);
    if k in storage {
      SumOverAdd(rest, x => ItemOctets(storage, x), k);
    } else {
      NoItem(storage, k);
    }
  }

  lemma NoItem(storage: map<ItemKey, Bytes>, k: ItemKey)
    requires k !in storage
    ensures ItemOctets(storage, k) == 0
  {
  }

  lemma StorageRemove(storage: map<ItemKey, Bytes>, k: ItemKey)
    requires k in storage
    ensures forall s :: s != k.id ==> ItemsOf(storage - {k}, s) == ItemsOf(storage, s)
    ensures forall s :: s != k.id ==> StorageOctets(storage - {k}, s) == StorageOctets(storage, s)
    ensures |ItemsOf(storage - {k}, k.id)| == |ItemsOf(storage, k.id)| - 1
    ensures StorageOctets(storage - {k}, k.id) == StorageOctets(storage, k.id) - ItemOctets(storage, k)
  {
    StoragePut(storage - {k}, k, storage[k]);
    assert (storage - {k})[k := storage[k]] == storage;
  }

  lemma RequestPut(requests: map<RequestKey, History>, k: RequestKey, h: History)
    ensures forall s :: s != k.id || k in requests ==> RequestsOf(requests[k := h], s) == RequestsOf(requests, s)
    ensures forall s :: s != k.id || k in requests ==> RequestOctets(requests[k := h], s) == RequestOctets(requests, s)
    ensures k !in requests ==> |RequestsOf(requests[k := h], k.id)| == |RequestsOf(requests, k.id)| + 1
    ensures k !in requests ==> RequestOctets(requests[k := h], k.id) == RequestOctets(requests, k.id) + 81 + k.size
  {
    forall s | s != k.id || k in requests
      ensures RequestsOf(requests[k := h], s) == RequestsOf(requests, s)
      ensures RequestOctets(requests[k := h], s) == RequestOctets(requests, s)
    {
      assert RequestsOf(requests[k := h], s) == RequestsOf(requests, s);
    }
    if k !in requests {
      assert RequestsOf(requests[k := h], k.id) == RequestsOf(requests, k.id) + {k};
      SumOverAdd(RequestsOf(requests, k.id), (x: RequestKey) => 81 + x.size, k);
    }
  }

  lemma RequestRemove(requests: map<RequestKey, History>, k: RequestKey)
    requires k in requests
    ensures forall s :: s != k.id ==> RequestsOf(requests - {k}, s) == RequestsOf(requests, s)
    ensures forall s :: s != k.id ==> RequestOctets(requests - {k}, s) == RequestOctets(requests, s)
    ensures |RequestsOf(requests - {k}, k.id)| == |RequestsOf(requests, k.id)| - 1
    ensures RequestOctets(requests - {k}, k.id) == RequestOctets(requests, k.id) - (81 + k.size)
  {
    RequestPut(requests - {k}, k, requests[k]);
    assert (requests - {k})[k := requests[k]] == requests;
  }

  // ---------------------------------------------------------------- each call keeps them exact

  lemma Written(env: Env, w: World, k: ItemKey, v: Bytes, a: Account)
    requires Sound(env, w) && k.id in w.accounts && v != []
    requires a.items == w.accounts[k.id].items + if k in w.storage then 0 else 1
    requires a.octets == w.accounts[k.id].octets - ItemOctets(w.storage, k) + 34 + |k.key| + |v|
    ensures Sound(env, World(w.accounts[k.id := a], w.storage[k := v], w.blobs, w.requests))
  {
    hide StorageOctets, RequestOctets, ItemsOf, RequestsOf, Backed, ItemOctets;
    StoragePut(w.storage, k, v);
    assert Backed(env, World(w.accounts[k.id := a], w.storage[k := v], w.blobs, w.requests)) by {
      SameBacking(env, w, World(w.accounts[k.id := a], w.storage[k := v], w.blobs, w.requests));
    }
  }

  lemma Unwritten(env: Env, w: World, k: ItemKey, a: Account)
    requires Sound(env, w) && k in w.storage && k.id in w.accounts
    requires a.items == w.accounts[k.id].items - 1
    requires a.octets == w.accounts[k.id].octets - ItemOctets(w.storage, k)
    ensures Sound(env, World(w.accounts[k.id := a], w.storage - {k}, w.blobs, w.requests))
  {
    hide StorageOctets, RequestOctets, ItemsOf, RequestsOf, Backed, ItemOctets;
    StorageRemove(w.storage, k);
    assert Backed(env, World(w.accounts[k.id := a], w.storage - {k}, w.blobs, w.requests)) by {
      SameBacking(env, w, World(w.accounts[k.id := a], w.storage - {k}, w.blobs, w.requests));
    }
  }

  lemma SameBacking(env: Env, w: World, after: World)
    requires Backed(env, w) && after.blobs == w.blobs && after.requests == w.requests
    ensures Backed(env, after)
  {
  }

  lemma WriteKeeps(env: Env, c: Context, key: Bytes, value: Bytes)
    requires Live(c) && Sound(env, c.world)
    ensures Sound(env, WriteCall(c, key, value).0.world)
  {
    var k, w, r := ItemKey(c.self, key), c.world, WriteCall(c, key, value);
    assert k in w.storage ==> w.storage[k] != [];
    hide Sound;
    if r.1 != Full {
      var a := r.0.world.accounts[c.self];
      if value != [] {
        Written(env, w, k, value, a);
      } else if k in w.storage {
        Unwritten(env, w, k, a);
      } else {
        assert w.storage - {k} == w.storage;
        AccountChanged(env, w, c.self, a);
      }
    }
  }

  /** An id without an account has nothing stored. */
  lemma NothingStored(w: World, id: Id)
    requires Owned(w) && id !in w.accounts
    ensures ItemsOf(w.storage, id) == {} && RequestsOf(w.requests, id) == {}
    ensures StorageOctets(w.storage, id) == 0 && RequestOctets(w.requests, id) == 0
  {
    assert ItemsOf(w.storage, id) == {} && RequestsOf(w.requests, id) == {};
  }

  /** The account `a` counts one request of this size more than before. */
  predicate CountsRequest(w: World, k: RequestKey, a: Account) {
    && a.items == (if k.id in w.accounts then w.accounts[k.id].items else 0) + 2
    && a.octets == (if k.id in w.accounts then w.accounts[k.id].octets else 0) + 81 + k.size
  }

  lemma Requested(env: Env, w: World, k: RequestKey, a: Account)
    requires Sound(env, w) && k !in w.requests && CountsRequest(w, k, a)
    ensures Sound(env, World(w.accounts[k.id := a], w.storage, w.blobs, w.requests[k := []]))
  {
    RequestedExact(w, k, a);
    hide Exact;
  }

  lemma RequestedExact(w: World, k: RequestKey, a: Account)
    requires Exact(w) && Owned(w) && k !in w.requests && CountsRequest(w, k, a)
    ensures Exact(World(w.accounts[k.id := a], w.storage, w.blobs, w.requests[k := []]))
  {
    RequestPut(w.requests, k, []);
    if k.id !in w.accounts {
      NothingStored(w, k.id);
    }
    hide StorageOctets, RequestOctets, ItemsOf, RequestsOf;
  }

  lemma HistoryChanged(env: Env, w: World, k: RequestKey, h: History)
    requires Sound(env, w) && k in w.requests
    ensures Sound(env, w.(requests := w.requests[k := h]))
  {
    hide StorageOctets, ItemsOf, RequestsOf;
    RequestPut(w.requests, k, h);
  }

  lemma Forgotten(env: Env, w: World, k: RequestKey, a: Account)
    requires Sound(env, w) && k in w.requests
    requires CountsRequest(w.(accounts := w.accounts[k.id := a]), k, w.accounts[k.id])
    ensures Sound(env, World(w.accounts[k.id := a], w.storage, w.blobs - {BlobKey(k.id, k.hash)}, w.requests - {k}))
  {
    hide Exact, NoEmptyValues, Owned, Backed, CountsRequest;
    ForgottenRest(env, w, k, a);
    IsExact(env, w, k);
    ForgottenExact(w, k, a);
  }

  lemma IsExact(env: Env, w: World, k: RequestKey)
    requires Sound(env, w) && k in w.requests
    ensures Exact(w) && k.id in w.accounts
  {
    hide Exact;
  }

  lemma ForgottenRest(env: Env, w: World, k: RequestKey, a: Account)
    requires Sound(env, w) && k in w.requests
    ensures var r := World(w.accounts[k.id := a], w.storage, w.blobs - {BlobKey(k.id, k.hash)}, w.requests - {k});
            NoEmptyValues(r) && Owned(r) && Backed(env, r)
  {
    hide Exact;
  }

  lemma ForgottenExact(w: World, k: RequestKey, a: Account)
    requires Exact(w) && k in w.requests && k.id in w.accounts
    requires CountsRequest(w.(accounts := w.accounts[k.id := a]), k, w.accounts[k.id])
    ensures Exact(World(w.accounts[k.id := a], w.storage, w.blobs - {BlobKey(k.id, k.hash)}, w.requests - {k}))
  {
    RequestRemove(w.requests, k);
    hide StorageOctets, RequestOctets, ItemsOf, RequestsOf;
  }

  /** What an account's other fields are does not matter. */
  lemma AccountChanged(env: Env, w: World, s: Id, a: Account)
    requires Sound(env, w) && s in w.accounts
    requires a.items == w.accounts[s].items && a.octets == w.accounts[s].octets
    ensures Sound(env, w.(accounts := w.accounts[s := a]))
  {
    hide StorageOctets, RequestOctets, ItemsOf, RequestsOf;
  }

  lemma NoRequests(env: Env, w: World, k: RequestKey)
    requires Sound(env, w) && k.id !in w.accounts
    ensures k !in w.requests
  {
  }

  lemma NewKeeps(env: Env, c: Context, call: Call)
    requires Callable(c) && Sound(env, c.world) && call.New?
    requires c.nextId !in c.world.accounts
    ensures Sound(env, NewCall(env, c, call).0.world)
  {
    hide Sound;
    var r := NewCall(env, c, call);
    if r.1.Created? {
      var k, made := RequestKey(r.1.id, call.code.value, call.size), NewAccount(env, c, call);
      var paid := Self(c).(balance := Self(c).balance - made.Threshold());
      AccountChanged(env, c.world, c.self, paid);
      var before := c.world.(accounts := c.world.accounts[c.self := paid]);
      NoRequests(env, before, k);
      Requested(env, before, k, made);
      assert r.0.world == World(before.accounts[k.id := made], before.storage, before.blobs, before.requests[k := []]);
    }
  }

  lemma SolicitKeeps(env: Env, c: Context, hash: Option<Hash>, size: nat)
    requires Live(c) && Sound(env, c.world)
    ensures Sound(env, SolicitCall(env, c, hash, size).0.world)
  {
    hide Sound, SolicitCall, CountsRequest;
    var w := SolicitCall(env, c, hash, size).0.world;
    SolicitIs(env, c, hash, size);
    if w != c.world {
      var k := RequestKey(c.self, hash.value, size);
      if k in c.world.requests {
        HistoryChanged(env, c.world, k, c.world.requests[k] + [env.slot]);
      } else {
        Requested(env, c.world, k, Self(c).WithRequest(size));
      }
    }
  }

  lemma SolicitIs(env: Env, c: Context, hash: Option<Hash>, size: nat)
    requires Live(c)
    ensures var w, v := c.world, SolicitCall(env, c, hash, size).0.world;
            || v == w
            || (hash.Some? && var k := RequestKey(c.self, hash.value, size);
                  if k in w.requests then v == w.(requests := w.requests[k := w.requests[k] + [env.slot]])
                  else
                    && CountsRequest(w, k, Self(c).WithRequest(size))
                    && v == World(w.accounts[c.self := Self(c).WithRequest(size)], w.storage, w.blobs,
                                  w.requests[k := []]))
  {
    assert c.world.accounts[c.self := Self(c)] == c.world.accounts;
  }

  lemma ForgetKeeps(env: Env, c: Context, hash: Option<Hash>, size: nat)
    requires Live(c) && Sound(env, c.world)
    ensures Sound(env, ForgetCall(env, c, hash, size).0.world)
  {
    hide Sound;
    if ForgetCall(env, c, hash, size).1 == Done {
      var k := RequestKey(c.self, hash.value, size);
      var h := c.world.requests[k];
      if |h| == 0 || |h| == 2 {
        Forgotten(env, c.world, k, Self(c).WithoutRequest(size));
      } else if |h| == 1 {
        HistoryChanged(env, c.world, k, h + [env.slot]);
      } else {
        HistoryChanged(env, c.world, k, [h[2], env.slot]);
      }
    }
  }

  /** Its account stores nothing but this request and the blob that answers it. */
  ghost predicate SoleEntry(w: World, k: RequestKey) {
    && (forall x :: x in w.storage ==> x.id != k.id)
    && (forall x :: x in w.requests && x.id == k.id ==> x == k)
    && (forall b :: b in w.blobs && b.id == k.id ==> b == BlobKey(k.id, k.hash))
  }

  /** An account with two items and a request has just that request, of that size, and no more. */
  lemma OnlyEntry(env: Env, w: World, k: RequestKey)
    requires Sound(env, w) && k in w.requests
    requires w.accounts[k.id].items == 2
    ensures ItemsOf(w.storage, k.id) == {} && RequestsOf(w.requests, k.id) == {k}
    ensures w.accounts[k.id].octets == 81 + k.size
    ensures SoleEntry(w, k)
  {
    var rest := RequestsOf(w.requests, k.id) - {k};
    assert k in RequestsOf(w.requests, k.id);
    assert ExactFor(w, k.id, w.accounts[k.id]);
    assert |rest| == |RequestsOf(w.requests, k.id)| - 1;
    assert rest == {};
    assert RequestsOf(w.requests, k.id) == {k};
    assert ItemsOf(w.storage, k.id) == {};
    SumOverRemove(RequestsOf(w.requests, k.id), (x: RequestKey) => 81 + x.size, k);
    assert {k} - {k} == {};
    forall x | x in w.storage
      ensures x.id != k.id
    {
      assert x.id == k.id ==> x in ItemsOf(w.storage, k.id);
    }
    forall x | x in w.requests && x.id == k.id
      ensures x == k
    {
      assert x in RequestsOf(w.requests, k.id);
    }
    forall b | b in w.blobs && b.id == k.id
      ensures b == BlobKey(k.id, k.hash)
    {
      assert RequestKey(b.id, b.hash, |w.blobs[b]|) in RequestsOf(w.requests, k.id);
    }
  }

  lemma Ejected(env: Env, w: World, k: RequestKey)
    requires Sound(env, w) && k in w.requests && w.accounts[k.id].items == 2
    ensures Sound(env, World(w.accounts - {k.id}, w.storage, w.blobs - {BlobKey(k.id, k.hash)}, w.requests - {k}))
  {
    OnlyEntry(env, w, k);
    EjectedExact(w, k);
    EjectedRest(env, w, k);
    hide Exact, NoEmptyValues, Owned, Backed, SoleEntry, ItemsOf, RequestsOf;
  }

  lemma EjectedRest(env: Env, w: World, k: RequestKey)
    requires NoEmptyValues(w) && Owned(w) && Backed(env, w) && SoleEntry(w, k)
    ensures var r := World(w.accounts - {k.id}, w.storage, w.blobs - {BlobKey(k.id, k.hash)}, w.requests - {k});
            NoEmptyValues(r) && Owned(r) && Backed(env, r)
  {
  }

  lemma EjectedExact(w: World, k: RequestKey)
    requires Exact(w) && k in w.requests
    ensures Exact(World(w.accounts - {k.id}, w.storage, w.blobs - {BlobKey(k.id, k.hash)}, w.requests - {k}))
  {
    hide StorageOctets, RequestOctets, ItemsOf, RequestsOf;
    RequestRemove(w.requests, k);
  }

  /** What a successful ejection does. */
  lemma EjectIs(env: Env, c: Context, target: nat, hash: Option<Hash>)
    requires Live(c) && EjectCall(env, c, target, hash).1 == Done
    ensures hash.Some? && target in c.world.accounts && target != c.self && c.world.accounts[target].items == 2
    ensures var w, ejected, a := c.world, c.world.accounts[target], Self(c);
            var k := RequestKey(target, hash.value, if ejected.octets < 81 then 0 else ejected.octets - 81);
            && k in w.requests
            && EjectCall(env, c, target, hash).0.world ==
               World((w.accounts - {target})[c.self := a.(balance := a.balance + ejected.balance)], w.storage,
                     w.blobs - {BlobKey(target, hash.value)}, w.requests - {k})
  {
    hide EjectorCode;
  }

  lemma EjectKeeps(env: Env, c: Context, target: nat, hash: Option<Hash>)
    requires Live(c) && Sound(env, c.world)
    ensures Sound(env, EjectCall(env, c, target, hash).0.world)
  {
    hide Sound;
    var r := EjectCall(env, c, target, hash);
    if r.1 == Done {
      var ejected, a := c.world.accounts[target], Self(c);
      var k := RequestKey(target, hash.value, if ejected.octets < 81 then 0 else ejected.octets - 81);
      Ejected(env, c.world, k);
      var left := World(c.world.accounts - {target}, c.world.storage, c.world.blobs - {BlobKey(target, hash.value)},
        c.world.requests - {k});
      assert left.accounts[c.self] == a;
      AccountChanged(env, left, c.self, a.(balance := a.balance + ejected.balance));
      assert r.0.world == left.(accounts := left.accounts[c.self := a.(balance := a.balance + ejected.balance)]);
    }
  }

  /** A successful ejection takes away everything the ejected account stored, which was one request and its blob. */
  lemma EjectOrphansNothing(env: Env, c: Context, target: nat, hash: Option<Hash>)
    requires Live(c) && Sound(env, c.world)
    requires EjectCall(env, c, target, hash).1 == Done
    ensures var w := EjectCall(env, c, target, hash).0.world;
            && target !in w.accounts
            && (forall k :: k in w.storage <==> k in c.world.storage) && (forall k :: k in w.storage ==> k.id != target)
            && (forall k :: k in w.blobs <==> k in c.world.blobs && k.id != target)
            && (forall k :: k in w.requests <==> k in c.world.requests && k.id != target)
    ensures |RequestsOf(c.world.requests, target)| == 1
  {
    hide EjectCall, Sound, ItemsOf, RequestsOf;
    EjectIs(env, c, target, hash);
    var ejected := c.world.accounts[target];
    OnlyEntry(env, c.world, RequestKey(target, hash.value, if ejected.octets < 81 then 0 else ejected.octets - 81));
  }

  /** Every call keeps the counters exact, no value empty, nothing orphaned and every blob requested. */
  lemma CallKeepsSound(env: Env, c: Context, call: Call)
    requires Callable(c) && Sound(env, c.world) && c.nextId !in c.world.accounts
    ensures Sound(env, Apply(env, c, call).0.world)
  {
    hide Sound, WriteCall, NewCall, EjectCall, SolicitCall, ForgetCall;
    match call {
      case Write(key, value) =>
        if key.Some? && value.Some? {
          WriteKeeps(env, c, key.value, value.value);
        }
      case New(_, _, _, _, _, _, _, _) =>
        NewKeeps(env, c, call);
      case Eject(target, hash) =>
        EjectKeeps(env, c, target, hash);
      case Solicit(hash, size) =>
        SolicitKeeps(env, c, hash, size);
      case Forget(hash, size) =>
        ForgetKeeps(env, c, hash, size);
      case Upgrade(code, g, m) =>
        if code.Some? {
          AccountChanged(env, c.world, c.self, Self(c).(code := code.value, accumulateGas := g, transferGas := m));
        }
      case Send(to, amount, gas, readable) =>
        if SendCall(c, to, amount, gas, readable).1 == Done {
          AccountChanged(env, c.world, c.self, Self(c).(balance := Self(c).balance - amount));
        }
      case Provide(_, _) =>
      case Other =>
    }
  }
}
