/** Whole runs of the accumulate code of one service: instructions and host calls under a gas limit. */
module Invocation {
  import opened Octets
  import opened Options
  import opened Services
  import opened ServiceIds
  import opened HostCalls
  import opened Footprints
  import opened Balances
  import opened Availability
  import SequentialAccumulation

  /** What the code does next; `cost` is the price of a host call other than a transfer. */
  datatype Event =
    | Burn(gas: nat)
    | Host(cost: nat, call: Call)
    | Checkpoint
    | Halt
    | Trap

  datatype Exit = Halted | OutOfGas | Panicked

  /** The running state: the regular and the savepoint context, and the gas left. */
  datatype Invocation = Invocation(regular: Context, savepoint: Context, gas: int, exit: Option<Exit>)

  const CHECKPOINT_COST := 103

  /** Before the code runs, the deferred transfers to the service are credited, if it still exists. */
  function Credited(w: World, self: Id, ts: seq<Transfer>): World {
    if self !in w.accounts || ts == [] then w
    else
      var a := w.accounts[self];
      w.(accounts := w.accounts[self := a.(balance := a.balance + Amounts(ts))])
  }

  function Started(w: World, self: Id, nextId: Id, limit: nat): Invocation {
    var c := Context(self, w, nextId, [], []);
    Invocation(c, c, limit, None)
  }

  /** Forwarded gas is charged whenever the transfer is valid, even if it cannot be paid. */
  function Price(c: Context, cost: nat, call: Call): nat
    requires Live(c)
  {
    if call.Send? then TRANSFER_COST + if Sendable(c, call.to, call.amount, call.gas, call.readable) then call.gas
      else 0
    else cost
  }

  function Step(env: Env, i: Invocation, e: Event): Invocation
    requires Callable(i.regular)
  {
    if i.exit.Some? then i
    else
      match e
      case Halt => i.(exit := Some(Halted))
      case Trap => i.(exit := Some(Panicked))
      case Burn(gas) => if i.gas < gas then i.(gas := i.gas - gas, exit := Some(OutOfGas)) else i.(gas := i.gas - gas)
      case Checkpoint =>
        if i.gas < CHECKPOINT_COST then i.(gas := i.gas - CHECKPOINT_COST, exit := Some(OutOfGas))
        else i.(gas := i.gas - CHECKPOINT_COST, savepoint := i.regular)
      case Host(cost, call) =>
        var left := i.gas - Price(i.regular, cost, call);
        if left < 0 then i.(gas := left, exit := Some(OutOfGas))
        else
          var (c, reply) := Apply(env, i.regular, call);
          i.(gas := left, regular := c, exit := if reply == Panic then Some(Panicked) else None)
  }

  /** If the event is a call that is paid for and gives the next id away, there is another one. */
  ghost predicate HasRoom(env: Env, i: Invocation, e: Event)
    requires Named(i.regular)
  {
    NamedIsCallable(i.regular);
    e.Host? && i.exit.None? && i.gas >= Price(i.regular, e.cost, e.call) ==> HasRoomFor(env, i.regular, e.call)
  }

  /** The next id stays unused exactly if there is room. */
  lemma StepKeepsIds(env: Env, i: Invocation, e: Event)
    requires Named(i.regular)
    ensures Callable(i.regular)
    ensures var n := Step(env, i, e);
            && (Named(n.regular) <==> HasRoom(env, i, e)) && n.regular.self == i.regular.self
            && |n.regular.world.accounts| <= |i.regular.world.accounts| + 1
  {
    NamedIsCallable(i.regular);
    hide Apply, SomeIdIsFree, IsPublic, HasRoomFor, Price, Named;
    if e.Host? {
      CallKeepsIds(env, i.regular, e.call);
    }
  }

  /** Every id that the run gives away leaves room for the next one. */
  ghost predicate Spacious(env: Env, start: Invocation, events: seq<Event>)
    decreases |events|, 0
  {
    if events == [] then Named(start.regular)
    else
      && Spacious(env, start, events[..|events| - 1])
      && HasRoom(env, Run(env, start, events[..|events| - 1]), events[|events| - 1])
  }

  ghost function Run(env: Env, start: Invocation, events: seq<Event>): (r: Invocation)
    requires Spacious(env, start, events)
    ensures Named(r.regular) && r.regular.self == start.regular.self
    ensures |r.regular.world.accounts| <= |start.regular.world.accounts| + |events|
    decreases |events|, 1
  {
    if events == [] then start
    else
      var i := Run(env, start, events[..|events| - 1]);
      StepKeepsIds(env, i, events[|events| - 1]);
      Step(env, i, events[|events| - 1])
  }

  /** With so few accounts, no run of so many events lacks room. */
  ghost predicate Roomy(w: World, events: nat) {
    |w.accounts| + events + 42 < RING_SIZE
  }

  lemma {:induction false} RoomyIsSpacious(env: Env, start: Invocation, events: seq<Event>)
    requires Named(start.regular) && Roomy(start.regular.world, |events|)
    ensures Spacious(env, start, events)
  {
    hide Named;
    if events != [] {
      RoomyIsSpacious(env, start, events[..|events| - 1]);
      var i := Run(env, start, events[..|events| - 1]);
      FewLeaveRoom(env, i, events[|events| - 1]);
    }
  }

  lemma FewLeaveRoom(env: Env, i: Invocation, e: Event)
    requires Named(i.regular) && Roomy(i.regular.world, 0)
    ensures HasRoom(env, i, e)
  {
    FewAccountsLeaveRoom(i.regular.world.accounts.Keys, i.regular.nextId);
    hide RoomAfter, GivesAway, Price;
  }

  // ---------------------------------------------------------------- what every step keeps

  /** A context that owns `supply` in all, keeps its books, its deposits, and its answers about the past. */
  ghost predicate InOrder(env: Env, before: World, supply: nat, c: Context) {
    && Sound(env, c.world) && Solvent(c.world) && Supply(c) == supply && Named(c)
    && forall k, t :: Past(env, t) ==> (AvailableAt(c.world, k, t) <==> AvailableAt(before, k, t))
  }

  lemma CallKeepsInOrder(env: Env, before: World, supply: nat, c: Context, call: Call)
    requires InOrder(env, before, supply, c) && Callable(c) && HasRoomFor(env, c, call)
    ensures InOrder(env, before, supply, Apply(env, c, call).0)
  {
    hide Sound, Solvent, Supply, IsPublic, SomeIdIsFree, AvailableAt, Past, Apply, HasRoomFor;
    CallKeepsIds(env, c, call);
    CallKeepsSound(env, c, call);
    CallConserves(env, c, call);
    CallKeepsSolvent(env, c, call);
    var after := Apply(env, c, call).0.world;
    forall k, t | Past(env, t)
      ensures AvailableAt(after, k, t) <==> AvailableAt(before, k, t)
    {
      IsOwned(env, c.world);
      CallKeepsAnswer(env, c, call, k, t);
    }
  }

  lemma IsOwned(env: Env, w: World)
    requires Sound(env, w)
    ensures Owned(w)
  {
  }

  /** The gas left and the charges of all transfers never exceed the limit, in either context. */
  ghost predicate Paid(limit: nat, i: Invocation) {
    var left := if i.gas < 0 then 0 else i.gas;
    && Charges(i.regular.transfers) + left <= limit
    && Charges(i.savepoint.transfers) + left <= limit
    && (i.exit.None? ==> i.gas >= 0)
  }

  lemma CallPays(env: Env, c: Context, cost: nat, call: Call)
    requires Callable(c)
    ensures Charges(Apply(env, c, call).0.transfers) <= Charges(c.transfers) + Price(c, cost, call)
  {
    hide SomeIdIsFree, EjectorCode, NewAccount, CheckServiceId;
    if call.Send? && Sendable(c, call.to, call.amount, call.gas, call.readable) {
      var t := Transfer(c.self, call.to, call.amount, call.gas);
      assert (c.transfers + [t])[..|c.transfers|] == c.transfers;
    }
  }

  lemma StepPays(env: Env, limit: nat, i: Invocation, e: Event)
    requires Paid(limit, i) && Callable(i.regular)
    ensures Paid(limit, Step(env, i, e))
  {
    if e.Host? {
      CallPays(env, i.regular, e.cost, e.call);
    }
    hide Apply, Charges, Price;
  }

  ghost predicate BothInOrder(env: Env, before: World, supply: nat, i: Invocation) {
    InOrder(env, before, supply, i.regular) && InOrder(env, before, supply, i.savepoint)
  }

  /**
   In both contexts, at every moment of every run: footprints are exact and nothing is
   orphaned, the balances and the transfers under way add up to what was there at the
   start, deposits are kept, past availability is as it was, and gas has been paid.
   */
  lemma {:induction false} RunIsSafe(env: Env, before: World, supply: nat, limit: nat, start: Invocation,
      events: seq<Event>)
    requires BothInOrder(env, before, supply, start) && Paid(limit, start)
    requires Spacious(env, start, events)
    ensures BothInOrder(env, before, supply, Run(env, start, events)) && Paid(limit, Run(env, start, events))
  {
    hide InOrder, Paid, Apply, HasRoomFor, Price, Named;
    if events != [] {
      var i, e := Run(env, start, events[..|events| - 1]), events[|events| - 1];
      RunIsSafe(env, before, supply, limit, start, events[..|events| - 1]);
      StepKeepsIds(env, i, e);
      StepPays(env, limit, i, e);
      if e.Host? && i.exit.None? && i.gas >= Price(i.regular, e.cost, e.call) {
        CallKeepsInOrder(env, before, supply, i.regular, e.call);
      }
    }
  }

  // ---------------------------------------------------------------- what the service leaves behind

  /** After running out of gas or a panic the changes since the last checkpoint are dropped. */
  function Outcome(i: Invocation): Context {
    if i.exit == Some(OutOfGas) || i.exit == Some(Panicked) then i.savepoint else i.regular
  }

  function GasUsed(limit: nat, i: Invocation): int {
    limit - if i.gas < 0 then 0 else i.gas
  }

  /** The services at the start of an invocation are in order, and so is the id it may create. */
  ghost predicate Ready(env: Env, w: World, self: Id, nextId: Id) {
    && Sound(env, w) && Solvent(w)
    && self in w.accounts && IsPublic(nextId) && nextId !in w.accounts
  }

  lemma CreditIs(w: World, self: Id, ts: seq<Transfer>)
    requires self in w.accounts
    ensures var a := w.accounts[self].(balance := w.accounts[self].balance + Amounts(ts));
            Credited(w, self, ts) == w.(accounts := w.accounts[self := a])
    ensures Credited(w, self, ts).accounts.Keys == w.accounts.Keys
    ensures |Credited(w, self, ts).accounts| == |w.accounts|
  {
    assert w.accounts[self := w.accounts[self]] == w.accounts;
    var c := Credited(w, self, ts);
    assert c.accounts.Keys == w.accounts.Keys;
    assert |c.accounts| == |c.accounts.Keys| && |w.accounts| == |w.accounts.Keys|;
  }

  lemma CreditedIsInOrder(env: Env, w: World, self: Id, nextId: Id, ts: seq<Transfer>)
    requires Ready(env, w, self, nextId)
    ensures InOrder(env, w, Wealth(w.accounts) + Amounts(ts), Context(self, Credited(w, self, ts), nextId, [], []))
  {
    hide Sound, Wealth, Credited, AvailableAt, Amounts, IsPublic;
    var a := w.accounts[self].(balance := w.accounts[self].balance + Amounts(ts));
    var c := Credited(w, self, ts);
    CreditIs(w, self, ts);
    AccountChanged(env, w, self, a);
    WealthPut(w.accounts, self, a);
    assert Supply(Context(self, c, nextId, [], [])) == Wealth(c.accounts) by {
      NoTransfers();
    }
    forall k, t
      ensures AvailableAt(c, k, t) <==> AvailableAt(w, k, t)
    {
      SameRequests(w, c, k, t);
    }
  }

  lemma NoTransfers()
    ensures Amounts([]) == ForwardedGas([]) == 0
  {
  }

  lemma SameRequests(w: World, v: World, k: RequestKey, t: int)
    requires v.requests == w.requests
    ensures AvailableAt(v, k, t) <==> AvailableAt(w, k, t)
  {
  }

  lemma StartIsSafe(env: Env, w: World, self: Id, nextId: Id, ts: seq<Transfer>, limit: nat)
    requires Ready(env, w, self, nextId)
    ensures var start := Started(Credited(w, self, ts), self, nextId, limit);
            && Named(start.regular) && |start.regular.world.accounts| == |w.accounts|
            && BothInOrder(env, w, Wealth(w.accounts) + Amounts(ts), start) && Paid(limit, start)
  {
    hide Sound, Solvent, Credited, InOrder, Wealth, ForwardedGas, Amounts;
    CreditIs(w, self, ts);
    CreditedIsInOrder(env, w, self, nextId, ts);
    NoTransfers();
  }

  lemma EndIsSafe(env: Env, before: World, supply: nat, limit: nat, i: Invocation)
    requires BothInOrder(env, before, supply, i) && Paid(limit, i)
    ensures InOrder(env, before, supply, Outcome(i))
    ensures Charges(Outcome(i).transfers) <= GasUsed(limit, i) <= limit
  {
    hide InOrder;
  }

  /**
   Whatever the code of a service does: the balances and transfers it leaves add up to the
   balances before and the transfers credited, every account keeps its deposit, footprints
   are exact, past availability has not changed; and the gas used is between what its
   transfers cost and its limit.
   */
  lemma InvocationIsSafe(env: Env, w: World, self: Id, nextId: Id, ts: seq<Transfer>, limit: nat, events: seq<Event>)
    requires Ready(env, w, self, nextId)
    requires Spacious(env, Started(Credited(w, self, ts), self, nextId, limit), events)
    ensures var i := Run(env, Started(Credited(w, self, ts), self, nextId, limit), events);
            && InOrder(env, w, Wealth(w.accounts) + Amounts(ts), Outcome(i))
            && Charges(Outcome(i).transfers) <= GasUsed(limit, i) <= limit
  {
    hide *;
    StartIsSafe(env, w, self, nextId, ts, limit);
    var start := Started(Credited(w, self, ts), self, nextId, limit);
    RunIsSafe(env, w, Wealth(w.accounts) + Amounts(ts), limit, start, events);
    EndIsSafe(env, w, Wealth(w.accounts) + Amounts(ts), limit, Run(env, start, events));
  }

  /** An invocation on services with few enough accounts never lacks room. */
  lemma RoomyInvocationIsSpacious(env: Env, w: World, self: Id, nextId: Id, ts: seq<Transfer>, limit: nat,
      events: seq<Event>)
    requires Ready(env, w, self, nextId) && Roomy(w, |events|)
    ensures Spacious(env, Started(Credited(w, self, ts), self, nextId, limit), events)
  {
    hide Ready, Spacious, Named, BothInOrder, Paid, Credited;
    StartIsSafe(env, w, self, nextId, ts, limit);
    RoomyIsSpacious(env, Started(Credited(w, self, ts), self, nextId, limit), events);
  }

  /** Hence the rounds of an accumulation may rely on what an invocation reports. */
  lemma InvocationIsMetered(
    env: Env, w: World, self: Id, nextId: Id, ts: seq<Transfer>, limit: nat, events: seq<Event>, output: Option<Hash>)
    requires Ready(env, w, self, nextId)
    requires Spacious(env, Started(Credited(w, self, ts), self, nextId, limit), events)
    ensures var i := Run(env, Started(Credited(w, self, ts), self, nextId, limit), events);
            && GasUsed(limit, i) >= 0
            && SequentialAccumulation.MeteredBy(
                 SequentialAccumulation.Invoked(Outcome(i).world, Outcome(i).transfers, GasUsed(limit, i), output),
                 limit)
  {
    InvocationIsSafe(env, w, self, nextId, ts, limit, events);
  }
}
