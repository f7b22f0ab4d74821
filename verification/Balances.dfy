/** Balances: what every call conserves, and the deposit every account keeps. */
module Balances {
  import opened Octets
  import opened Options
  import opened FiniteSums
  import opened Services
  import opened ServiceIds
  import opened HostCalls

  function BalancesOf(accounts: map<Id, Account>): map<nat, nat> {
    map id | id in accounts :: accounts[id].balance
  }

  function Wealth(accounts: map<Id, Account>): nat {
    SumValues(BalancesOf(accounts))
  }

  lemma WealthPut(accounts: map<Id, Account>, id: Id, a: Account)
    ensures Wealth(accounts[id := a]) ==
            Wealth(accounts) + a.balance - (if id in accounts then accounts[id].balance else 0)
  {
    hide SumValues;
    var before, after := BalancesOf(accounts), BalancesOf(accounts[id := a]);
    if id in accounts {
      SumOfRemoved(before, id);
      SumOfRemoved(after, id);
      assert before - {id} == after - {id};
    } else {
      SumOfFresh(before, id, a.balance);
      assert after == before[id := a.balance];
    }
  }

  lemma WealthRemove(accounts: map<Id, Account>, id: Id)
    requires id in accounts
    ensures Wealth(accounts) == Wealth(accounts - {id}) + accounts[id].balance
  {
    hide SumValues;
    SumOfRemoved(BalancesOf(accounts), id);
    assert BalancesOf(accounts - {id}) == BalancesOf(accounts) - {id};
  }

  lemma AmountsOfAppend(ts: seq<Transfer>, t: Transfer)
    ensures Amounts(ts + [t]) == Amounts(ts) + t.amount
  {
    assert (ts + [t])[..|ts|] == ts;
  }

  /** What the services own, and what is on its way. */
  function Supply(c: Context): nat {
    Wealth(c.world.accounts) + Amounts(c.transfers)
  }

  /** Every account has at least the deposit for what it stores. */
  ghost predicate Solvent(w: World) {
    forall id :: id in w.accounts ==> w.accounts[id].balance >= w.accounts[id].Threshold()
  }

  lemma NewConserves(env: Env, c: Context, call: Call)
    requires Callable(c) && c.nextId !in c.world.accounts && call.New?
    ensures Supply(NewCall(env, c, call).0) == Supply(c)
  {
    hide Wealth, Amounts, SomeIdIsFree, CheckServiceId;
    var r := NewCall(env, c, call);
    if r.1.Created? {
      var paid := Self(c).(balance := r.0.world.accounts[c.self].balance);
      WealthPut(c.world.accounts, c.self, paid);
      WealthPut(c.world.accounts[c.self := paid], r.1.id, NewAccount(env, c, call));
    }
  }

  lemma EjectConserves(env: Env, c: Context, target: nat, hash: Option<Hash>)
    requires Live(c)
    ensures Supply(EjectCall(env, c, target, hash).0) == Supply(c)
  {
    hide Wealth, Amounts, EjectorCode;
    var accounts, r := c.world.accounts, EjectCall(env, c, target, hash);
    if r.1 == Done {
      WealthRemove(accounts, target);
      WealthPut(accounts - {target}, c.self, r.0.world.accounts[c.self]);
    }
  }

  lemma SendConserves(c: Context, to: nat, amount: nat, gas: nat, readable: bool)
    requires Live(c)
    ensures Supply(SendCall(c, to, amount, gas, readable).0) == Supply(c)
  {
    hide Wealth, Amounts;
    var accounts, r := c.world.accounts, SendCall(c, to, amount, gas, readable);
    WealthPut(accounts, c.self, r.0.world.accounts[c.self]);
    AmountsOfAppend(c.transfers, Transfer(c.self, to, amount, gas));
    assert accounts[c.self := Self(c)] == accounts;
  }

  /** The other calls leave every balance and every transfer as it was. */
  lemma OthersMoveNothing(env: Env, c: Context, call: Call)
    requires Callable(c) && !call.New? && !call.Eject? && !call.Send?
    ensures var r := Apply(env, c, call).0;
            && r.self == c.self && r.transfers == c.transfers && Live(r) && Self(r).balance == Self(c).balance
            && r.world.accounts == c.world.accounts[c.self := Self(r)]
  {
    hide SomeIdIsFree;
    assert c.world.accounts[c.self := Self(c)] == c.world.accounts;
  }

  /** Any call only moves balances between accounts, or from an account into a transfer. */
  lemma CallConserves(env: Env, c: Context, call: Call)
    requires Callable(c) && c.nextId !in c.world.accounts
    ensures Supply(Apply(env, c, call).0) == Supply(c)
  {
    hide Wealth, Amounts, NewCall, EjectCall, SendCall, WriteCall, UpgradeCall, SolicitCall, ForgetCall, ProvideCall,
      SomeIdIsFree;
    match call {
      case New(_, _, _, _, _, _, _, _) =>
        NewConserves(env, c, call);
      case Eject(target, hash) =>
        EjectConserves(env, c, target, hash);
      case Send(to, amount, gas, readable) =>
        SendConserves(c, to, amount, gas, readable);
      case _ =>
        OthersMoveNothing(env, c, call);
        WealthPut(c.world.accounts, c.self, Self(Apply(env, c, call).0));
    }
  }

  lemma CallKeepsSolvent(env: Env, c: Context, call: Call)
    requires Callable(c) && Solvent(c.world)
    ensures Solvent(Apply(env, c, call).0.world)
  {
  }

  /** The caller has an account, and the next id is one that none has. */
  ghost predicate Named(c: Context) {
    Live(c) && IsPublic(c.nextId) && c.nextId !in c.world.accounts
  }

  lemma NamedIsCallable(c: Context)
    requires Named(c)
    ensures Callable(c)
  {
  }

  /** Whether the call creates an account under the next id. */
  ghost predicate GivesAway(env: Env, c: Context, call: Call)
    requires Callable(c)
  {
    call.New? && NewCall(env, c, call).1 == Created(c.nextId)
  }

  /** When the next id is given away, the search for another one finds one. */
  ghost predicate HasRoomFor(env: Env, c: Context, call: Call)
    requires Callable(c) && IsPublic(c.nextId)
  {
    GivesAway(env, c, call) ==> RoomAfter(c.world.accounts.Keys, c.nextId)
  }

  lemma NewKeepsIds(env: Env, c: Context, call: Call)
    requires Named(c) && call.New? && Callable(c)
    ensures var r := NewCall(env, c, call).0;
            && (Named(r) <==> HasRoomFor(env, c, call))
            && r.self == c.self && |r.world.accounts| <= |c.world.accounts| + 1
  {
    hide RoomAfter, CheckServiceId, NewCall, Ring, SomeIdIsFree;
    var accounts, after := c.world.accounts, NewCall(env, c, call).0.world.accounts;
    NextIdIsNewExactly(accounts.Keys, c.nextId);
    NewIds(env, c, call);
    assert |after| == |after.Keys| && |accounts| == |accounts.Keys|;
  }

  /** What a call of `new` does to the ids. */
  lemma NewIds(env: Env, c: Context, call: Call)
    requires Callable(c) && IsPublic(c.nextId) && call.New?
    ensures var r, used := NewCall(env, c, call), c.world.accounts.Keys;
            && r.0.self == c.self
            && (!r.1.Created? ==> r.0.world.accounts == c.world.accounts && r.0.nextId == c.nextId)
            && (r.1.Created? ==>
                  && r.0.world.accounts.Keys == used + {r.1.id}
                  && r.0.nextId == if r.1.id == c.nextId then CheckServiceId(used, IdAfter(c.nextId)) else c.nextId)
  {
    hide CheckServiceId, NewAccount, SomeIdIsFree;
  }

  lemma OthersKeepIds(env: Env, c: Context, call: Call)
    requires Named(c) && !call.New? && Callable(c)
    ensures var r := Apply(env, c, call).0;
            && r.self == c.self && r.nextId == c.nextId
            && c.self in r.world.accounts && r.world.accounts.Keys <= c.world.accounts.Keys
  {
    hide IsPublic, SomeIdIsFree;
  }

  /** The caller stays, at most one account is added, and the next id stays unused exactly if there is room for it. */
  lemma CallKeepsIds(env: Env, c: Context, call: Call)
    requires Named(c)
    ensures Callable(c)
    ensures var r := Apply(env, c, call).0;
            && (Named(r) <==> HasRoomFor(env, c, call))
            && r.self == c.self && |r.world.accounts| <= |c.world.accounts| + 1
  {
    NamedIsCallable(c);
    hide RoomAfter, IsPublic, SomeIdIsFree, NewCall;
    if call.New? {
      NewKeepsIds(env, c, call);
    } else {
      OthersKeepIds(env, c, call);
      var accounts, after := c.world.accounts, Apply(env, c, call).0.world.accounts;
      hide Apply;
      SubsetIsNoLarger(after.Keys, accounts.Keys);
      assert |after| == |after.Keys| && |accounts| == |accounts.Keys|;
    }
  }

  lemma {:induction false} SubsetIsNoLarger(a: set<Id>, b: set<Id>)
    requires a <= b
    ensures |a| <= |b|
    decreases a
  {
    if a != {} {
      var x :| x in a;
      SubsetIsNoLarger(a - {x}, b - {x});
    }
  }
}
