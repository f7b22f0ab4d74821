/**
 The host calls as they run: methods on objects that record pending changes over a base
 state and are copied at a checkpoint.  Each is proved against HostCalls.Apply, and the
 whole against Invocation.Step.
 */
module AccumulateContext {
  import opened Octets
  import opened Options
  import opened Services
  import opened ServiceIds
  import opened HostCalls
  import Invocation

  /** The services of an invocation: what was there before, and the changes pending on top. */
  class ServicesState {
    const base: World
    var pending: PendingChanges

    constructor (base: World, pending: PendingChanges)
      ensures this.base == base && this.pending == pending
    {
      this.base, this.pending := base, pending;
    }

    ghost function Seen(): World
      reads this
    {
      View(base, pending)
    }

    method RetrieveAccount(id: Id) returns (a: Option<Account>)
      ensures a == if id in Seen().accounts then Some(Seen().accounts[id]) else None
    {
      if id in pending.accounts {
        return pending.accounts[id];
      }
      a := if id in base.accounts then Some(base.accounts[id]) else None;
    }

    method StoreAccount(id: Id, a: Account)
      modifies this
      ensures Seen() == old(Seen()).(accounts := old(Seen()).accounts[id := a])
    {
      OverlayPut(base.accounts, pending.accounts, id, a);
      pending := pending.(accounts := pending.accounts[id := Some(a)]);
    }

    method DeleteAccount(id: Id)
      modifies this
      ensures Seen() == old(Seen()).(accounts := old(Seen()).accounts - {id})
    {
      OverlayDelete(base.accounts, pending.accounts, id);
      pending := pending.(accounts := pending.accounts[id := None]);
    }

    method RetrieveItem(k: ItemKey) returns (v: Option<Bytes>)
      ensures v == if k in Seen().storage then Some(Seen().storage[k]) else None
    {
      if k in pending.storage {
        return pending.storage[k];
      }
      v := if k in base.storage then Some(base.storage[k]) else None;
    }

    method StoreItem(k: ItemKey, v: Bytes)
      modifies this
      ensures Seen() == old(Seen()).(storage := old(Seen()).storage[k := v])
    {
      OverlayPut(base.storage, pending.storage, k, v);
      pending := pending.(storage := pending.storage[k := Some(v)]);
    }

    method DeleteItem(k: ItemKey)
      modifies this
      ensures Seen() == old(Seen()).(storage := old(Seen()).storage - {k})
    {
      OverlayDelete(base.storage, pending.storage, k);
      pending := pending.(storage := pending.storage[k := None]);
    }

    method DeleteBlob(k: BlobKey)
      modifies this
      ensures Seen() == old(Seen()).(blobs := old(Seen()).blobs - {k})
    {
      OverlayDelete(base.blobs, pending.blobs, k);
      pending := pending.(blobs := pending.blobs[k := None]);
    }

    method RetrieveRequest(k: RequestKey) returns (h: Option<History>)
      ensures h == if k in Seen().requests then Some(Seen().requests[k]) else None
    {
      if k in pending.requests {
        return pending.requests[k];
      }
      h := if k in base.requests then Some(base.requests[k]) else None;
    }

    method StoreRequest(k: RequestKey, h: History)
      modifies this
      ensures Seen() == old(Seen()).(requests := old(Seen()).requests[k := h])
    {
      OverlayPut(base.requests, pending.requests, k, h);
      pending := pending.(requests := pending.requests[k := Some(h)]);
    }

    method DeleteRequest(k: RequestKey)
      modifies this
      ensures Seen() == old(Seen()).(requests := old(Seen()).requests - {k})
    {
      OverlayDelete(base.requests, pending.requests, k);
      pending := pending.(requests := pending.requests[k := None]);
    }

    method FindUnusedId(id: Id) returns (r: Id)
      requires IsPublic(id) && SomeIdIsFree(Seen().accounts.Keys)
      ensures r == CheckServiceId(Seen().accounts.Keys, id)
      decreases Ahead(id, AFreeId(Seen().accounts.Keys))
    {
      var a := RetrieveAccount(id);
      if a.None? {
        return id;
      }
      AheadShrinks(id, AFreeId(Seen().accounts.Keys));
      r := FindUnusedId(NextOnRing(id));
    }
  }

  class AccumulateContext {
    const self: Id
    const services: ServicesState
    var nextId: Id
    var transfers: seq<Transfer>
    var provided: seq<(Id, Bytes)>

    constructor (self: Id, services: ServicesState, nextId: Id, transfers: seq<Transfer>, provided: seq<(Id, Bytes)>)
      ensures this.self == self && this.services == services
      ensures this.nextId == nextId && this.transfers == transfers && this.provided == provided
    {
      this.self, this.services, this.nextId := self, services, nextId;
      this.transfers, this.provided := transfers, provided;
    }

    ghost function Value(): Context
      reads this, services
    {
      Context(self, services.Seen(), nextId, transfers, provided)
    }

    /** A deep copy, which shares nothing with this context. */
    method Copy() returns (c: AccumulateContext)
      ensures fresh(c) && fresh(c.services) && c.Value() == Value()
    {
      var s := new ServicesState(services.base, services.pending);
      c := new AccumulateContext(self, s, nextId, transfers, provided);
    }

    method Write(key: Option<Bytes>, value: Option<Bytes>) returns (reply: Reply)
      requires Live(Value())
      modifies services
      ensures (Value(), reply) ==
              if key.None? || value.None? then (old(Value()), Panic)
              else WriteCall(old(Value()), key.value, value.value)
    {
      if key.None? || value.None? {
        return Panic;
      }
      var retrieved := services.RetrieveAccount(self);
      var account, k := retrieved.value, ItemKey(self, key.value);
      var item := services.RetrieveItem(k);
      var before := if item.Some? then item.value else [];
      if value.value == [] {
        if item.Some? {
          account := account.WithoutItem(|key.value|, |before|);
        }
      } else if before == [] {
        account := account.WithItem(|key.value|, |value.value|);
      } else {
        account := account.WithValue(|before|, |value.value|);
      }
      if account.Threshold() > account.balance {
        return Full;
      }
      if value.value == [] {
        services.DeleteItem(k);
      } else {
        services.StoreItem(k, value.value);
      }
      services.StoreAccount(self, account);
      reply := if item.Some? then Was(|before|) else Nothing;
    }

    method New(env: Env, call: Call) returns (reply: Reply)
      requires Callable(Value()) && call.New?
      modifies this, services
      ensures (Value(), reply) == NewCall(env, old(Value()), call)
    {
      hide View, CheckServiceId, Ring, SomeIdIsFree;
      if call.code.None? || call.size == 0 || call.size >= 0x1_0000_0000 {
        return Panic;
      }
      var made := Account(call.code.value, 0, call.accumulateGas, call.transferGas, 0, 0, call.gratis, env.slot, 0,
        self);
      made := made.WithRequest(call.size);
      made := made.(balance := made.Threshold());
      var id := nextId;
      var retrieved := services.RetrieveAccount(self);
      var account := retrieved.value;
      var left := account.balance - made.Threshold();
      if call.gratis != 0 && !call.isManager {
        return Huh;
      }
      if left < account.Threshold() {
        return Cash;
      }
      var reserved := call.isRegistrar && call.wanted < FIRST_PUBLIC_ID;
      if reserved {
        var taken := services.RetrieveAccount(call.wanted);
        if taken.Some? {
          return Full;
        }
        id := call.wanted;
      } else {
        nextId := services.FindUnusedId(IdAfter(id));
      }
      services.StoreAccount(self, account.(balance := left));
      services.StoreAccount(id, made);
      services.StoreRequest(RequestKey(id, call.code.value, call.size), []);
      reply := Created(id);
    }

    method Upgrade(code: Option<Hash>, accumulateGas: nat, transferGas: nat) returns (reply: Reply)
      requires Live(Value())
      modifies services
      ensures (Value(), reply) == UpgradeCall(old(Value()), code, accumulateGas, transferGas)
    {
      if code.None? {
        return Panic;
      }
      var retrieved := services.RetrieveAccount(self);
      var upgraded :=
        retrieved.value.(code := code.value, accumulateGas := accumulateGas, transferGas := transferGas);
      services.StoreAccount(self, upgraded);
      reply := Done;
    }

    /** What the transfer costs comes first: the forwarded gas counts only if the transfer is valid. */
    method Send(to: nat, amount: nat, gas: nat, readable: bool, gasLeft: int) returns (reply: Reply, left: int)
      requires Live(Value())
      modifies this, services
      ensures left == gasLeft - Invocation.Price(old(Value()), 0, Call.Send(to, amount, gas, readable))
      ensures left < 0 ==> Value() == old(Value())
      ensures left >= 0 ==> (Value(), reply) == SendCall(old(Value()), to, amount, gas, readable)
    {
      var retrieved := services.RetrieveAccount(self);
      var account := retrieved.value;
      var dest := services.RetrieveAccount(to);
      var b := account.balance - amount;
      var valid := readable && dest.Some? && gas >= dest.value.transferGas && b >= account.Threshold();
      var forwarded := if valid then gas else 0;
      left := gasLeft - TRANSFER_COST - forwarded;
      reply := Panic;
      if left < 0 || !readable {
        return;
      }
      if dest.None? {
        return Who, left;
      }
      if gas < dest.value.transferGas {
        return Low, left;
      }
      if b < account.Threshold() {
        return Cash, left;
      }
      transfers := transfers + [Transfer(self, to, amount, gas)];
      services.StoreAccount(self, account.(balance := b));
      reply := Done;
    }

    method Eject(env: Env, target: nat, hash: Option<Hash>) returns (reply: Reply)
      requires Live(Value())
      modifies services
      ensures (Value(), reply) == EjectCall(env, old(Value()), target, hash)
    {
      hide View, EjectorCode;
      if hash.None? {
        return Panic;
      }
      var retrieved := services.RetrieveAccount(self);
      var account, ejected := retrieved.value, None;
      if target != self {
        ejected := services.RetrieveAccount(target);
      }
      if ejected.None? || ejected.value.code != EjectorCode(self) {
        return Who;
      }
      var size: nat := if ejected.value.octets < 81 then 0 else ejected.value.octets - 81;
      var request := RequestKey(target, hash.value, size);
      var history := services.RetrieveRequest(request);
      if ejected.value.items != 2 || history.None? {
        return Huh;
      }
      if |history.value| != 2 || !Expired(env, history.value[1]) {
        return Huh;
      }
      services.DeleteBlob(BlobKey(target, hash.value));
      services.DeleteRequest(request);
      services.DeleteAccount(target);
      services.StoreAccount(self, account.(balance := account.balance + ejected.value.balance));
      reply := Done;
    }

    method Solicit(env: Env, hash: Option<Hash>, size: nat) returns (reply: Reply)
      requires Live(Value())
      modifies services
      ensures (Value(), reply) == SolicitCall(env, old(Value()), hash, size)
    {
      if size >= 0x1_0000_0000 {
        return Huh;
      }
      if hash.None? {
        return Panic;
      }
      var retrieved := services.RetrieveAccount(self);
      var account, k := retrieved.value, RequestKey(self, hash.value, size);
      var history := services.RetrieveRequest(k);
      if history.None? {
        account := account.WithRequest(size);
      }
      if history.Some? && |history.value| != 2 {
        return Huh;
      }
      if account.balance < account.Threshold() {
        return Full;
      }
      if history.None? {
        services.StoreRequest(k, []);
      } else {
        services.StoreRequest(k, history.value + [env.slot]);
      }
      services.StoreAccount(self, account);
      reply := Done;
    }

    method Forget(env: Env, hash: Option<Hash>, size: nat) returns (reply: Reply)
      requires Live(Value())
      modifies services
      ensures (Value(), reply) == ForgetCall(env, old(Value()), hash, size)
    {
      if size >= 0x1_0000_0000 {
        return Huh;
      }
      if hash.None? {
        return Panic;
      }
      var retrieved := services.RetrieveAccount(self);
      var account, k := retrieved.value, RequestKey(self, hash.value, size);
      var history := services.RetrieveRequest(k);
      if history.None? {
        return Huh;
      }
      var h := history.value;
      if |h| == 0 || (|h| == 2 && Expired(env, h[1])) {
        services.DeleteRequest(k);
        services.DeleteBlob(BlobKey(self, hash.value));
        services.StoreAccount(self, account.WithoutRequest(size));
        reply := Done;
      } else if |h| == 1 {
        services.StoreRequest(k, h + [env.slot]);
        reply := Done;
      } else if |h| == 3 && Expired(env, h[1]) {
        services.StoreRequest(k, [h[2], env.slot]);
        reply := Done;
      } else {
        reply := Huh;
      }
    }

    method Provide(env: Env, target: nat, blob: Read) returns (reply: Reply)
      modifies this
      ensures (Value(), reply) == ProvideCall(env, old(Value()), target, blob)
    {
      if blob.Size() >= 0x1_0000_0000 {
        return Huh;
      }
      var s := if target == ONE_SELF then self else target;
      if blob.Unreadable? {
        return Panic;
      }
      var account := services.RetrieveAccount(s);
      var history := services.RetrieveRequest(RequestKey(s, env.hash(blob.octets), |blob.octets|));
      if account.None? {
        return Who;
      }
      if history != Some([]) || (s, blob.octets) in provided {
        return Huh;
      }
      provided := provided + [(s, blob.octets)];
      reply := Done;
    }

    /** Any call that has its own price in gas. */
    method Perform(env: Env, call: Call) returns (reply: Reply)
      requires Callable(Value()) && !call.Send?
      modifies this, services
      ensures (Value(), reply) == HostCalls.Apply(env, old(Value()), call)
    {
      hide View, WriteCall, NewCall, UpgradeCall, SendCall, EjectCall, SolicitCall, ForgetCall, ProvideCall,
        SomeIdIsFree;
      match call {
        case Write(key, value) =>
          reply := Write(key, value);
        case New(_, _, _, _, _, _, _, _) =>
          reply := New(env, call);
        case Upgrade(code, accumulateGas, transferGas) =>
          reply := Upgrade(code, accumulateGas, transferGas);
        case Eject(target, hash) =>
          reply := Eject(env, target, hash);
        case Solicit(hash, size) =>
          reply := Solicit(env, hash, size);
        case Forget(hash, size) =>
          reply := Forget(env, hash, size);
        case Provide(target, blob) =>
          reply := Provide(env, target, blob);
        case Other =>
          reply := Done;
      }
    }
  }

  lemma NothingPending(w: World)
    ensures View(w, NoChanges()) == w
  {
  }

  /** Both contexts of an invocation, the gas left, and how it ended. */
  class InvocationContext {
    var context: AccumulateContext
    var savepoint: AccumulateContext
    var gas: int
    var exit: Option<Invocation.Exit>

    ghost predicate Valid()
      reads this
    {
      context != savepoint && context.services != savepoint.services
    }

    ghost function Repr(): set<object>
      reads this
    {
      {this, context, context.services, savepoint, savepoint.services}
    }

    ghost function State(): Invocation.Invocation
      reads Repr()
    {
      Invocation.Invocation(context.Value(), savepoint.Value(), gas, exit)
    }

    constructor (world: World, self: Id, nextId: Id, limit: nat)
      ensures Valid() && fresh(Repr())
      ensures State() == Invocation.Started(world, self, nextId, limit)
    {
      hide View, NoChanges;
      var s := new ServicesState(world, NoChanges());
      NothingPending(world);
      var c := new AccumulateContext(self, s, nextId, [], []);
      var saved := c.Copy();
      context, savepoint, gas, exit := c, saved, limit, None;
    }

    /** The savepoint becomes a copy of the regular context, so later changes do not reach it. */
    method Checkpoint(env: Env)
      requires Valid() && Callable(context.Value())
      modifies this
      ensures Valid() && fresh(Repr() - old(Repr()))
      ensures State() == Invocation.Step(env, old(State()), Invocation.Checkpoint)
    {
      if exit.Some? {
        return;
      }
      gas := gas - Invocation.CHECKPOINT_COST;
      if gas < 0 {
        exit := Some(Invocation.OutOfGas);
        return;
      }
      savepoint := context.Copy();
    }

    /** Any other host call: its price first, then its effect on the regular context alone. */
    method Execute(env: Env, cost: nat, call: Call)
      requires Valid() && Callable(context.Value())
      modifies this, context, context.services
      ensures Valid() && Repr() == old(Repr())
      ensures State() == Invocation.Step(env, old(State()), Invocation.Host(cost, call))
    {
      hide View, WriteCall, NewCall, UpgradeCall, SendCall, EjectCall, SolicitCall, ForgetCall, ProvideCall,
        SomeIdIsFree;
      if exit.Some? {
        return;
      }
      var reply;
      if call.Send? {
        reply, gas := context.Send(call.to, call.amount, call.gas, call.readable, gas);
        if gas < 0 {
          exit := Some(Invocation.OutOfGas);
          return;
        }
      } else {
        gas := gas - cost;
        if gas < 0 {
          exit := Some(Invocation.OutOfGas);
          return;
        }
        reply := context.Perform(env, call);
      }
      if reply == Panic {
        exit := Some(Invocation.Panicked);
      }
    }
  }
}
