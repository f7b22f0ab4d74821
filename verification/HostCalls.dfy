/** What each host call of an accumulation does to the services it sees. */
module HostCalls {
  import opened Octets
  import opened Options
  import opened Services
  import opened ServiceIds

  /** The slot of the block, how long unavailable blobs are kept, and the hash of blobs. */
  datatype Env = Env(slot: nat, expunge: nat, hash: Bytes -> Hash)

  /** The state of one invocation: what its service `self` sees, and what it leaves for later. */
  datatype Context = Context(
    self: Id,
    world: World,
    nextId: Id,
    transfers: seq<Transfer>,
    provided: seq<(Id, Bytes)>)

  /** What a stretch of memory holds, or that it cannot be read. */
  datatype Read = Readable(octets: Bytes) | Unreadable(length: nat) {
    function Size(): nat {
      if Readable? then |octets| else length
    }
  }

  /** The register value by which a service names itself. */
  const ONE_SELF := 0xFFFF_FFFF_FFFF_FFFF

  /** Memory that cannot be read is none; an empty value asks for deletion. */
  datatype Call =
    | Write(key: Option<Bytes>, value: Option<Bytes>)
    | New(code: Option<Hash>, size: nat, accumulateGas: nat, transferGas: nat, gratis: nat, wanted: nat,
          isManager: bool, isRegistrar: bool)
    | Upgrade(code: Option<Hash>, accumulateGas: nat, transferGas: nat)
    | Send(to: nat, amount: nat, gas: nat, readable: bool)
    | Eject(target: nat, hash: Option<Hash>)
    | Solicit(hash: Option<Hash>, size: nat)
    | Forget(hash: Option<Hash>, size: nat)
    | Provide(target: nat, blob: Read)
    | Other

  datatype Reply = Panic | Done | Was(size: nat) | Created(id: Id) | Nothing | Full | Cash | Who | Low | Huh

  predicate Live(c: Context) {
    c.self in c.world.accounts
  }

  function Self(c: Context): Account
    requires Live(c)
  {
    c.world.accounts[c.self]
  }

  /** The context with an account stored. */
  function Stored(c: Context, id: Id, a: Account): Context {
    c.(world := c.world.(accounts := c.world.accounts[id := a]))
  }

  // ---------------------------------------------------------------- storage

  function WriteCall(c: Context, key: Bytes, value: Bytes): (Context, Reply)
    requires Live(c)
  {
    var k := ItemKey(c.self, key);
    var present := k in c.world.storage;
    var before := if present then c.world.storage[k] else [];
    var a :=
      if value == [] then if present then Self(c).WithoutItem(|key|, |before|) else Self(c)
      else if before == [] then Self(c).WithItem(|key|, |value|)
      else Self(c).WithValue(|before|, |value|);
    if a.Threshold() > a.balance then (c, Full)
    else
      var storage := if value == [] then c.world.storage - {k} else c.world.storage[k := value];
      var changed := Stored(c, c.self, a);
      (changed.(world := changed.world.(storage := storage)), if present then Was(|before|) else Nothing)
  }

  // ---------------------------------------------------------------- accounts

  function NewAccount(env: Env, c: Context, call: Call): Account
    requires call.New? && call.code.Some?
  {
    var empty := Account(call.code.value, 0, call.accumulateGas, call.transferGas, 0, 0, call.gratis, env.slot, 0,
      c.self);
    var requested := empty.WithRequest(call.size);
    requested.(balance := requested.Threshold())
  }

  function NewCall(env: Env, c: Context, call: Call): (Context, Reply)
    requires Live(c) && call.New? && SomeIdIsFree(c.world.accounts.Keys)
  {
    if call.code.None? || call.size == 0 || call.size >= 0x1_0000_0000 then (c, Panic)
    else
      var made := NewAccount(env, c, call);
      var left := Self(c).balance - made.Threshold();
      var reserved := call.isRegistrar && call.wanted < FIRST_PUBLIC_ID;
      if call.gratis != 0 && !call.isManager then (c, Huh)
      else if left < Self(c).Threshold() then (c, Cash)
      else if reserved && call.wanted in c.world.accounts then (c, Full)
      else
        var id := if reserved then call.wanted else c.nextId;
        var nextId := if reserved then c.nextId else CheckServiceId(c.world.accounts.Keys, IdAfter(c.nextId));
        var accounts := c.world.accounts[c.self := Self(c).(balance := left)][id := made];
        var requests := c.world.requests[RequestKey(id, call.code.value, call.size) := []];
        (c.(nextId := nextId, world := c.world.(accounts := accounts, requests := requests)), Created(id))
  }

  function UpgradeCall(c: Context, code: Option<Hash>, accumulateGas: nat, transferGas: nat): (Context, Reply)
    requires Live(c)
  {
    if code.None? then (c, Panic)
    else
      var a := Self(c).(code := code.value, accumulateGas := accumulateGas, transferGas := transferGas);
      (Stored(c, c.self, a), Done)
  }

  predicate Sendable(c: Context, to: nat, amount: nat, gas: nat, readable: bool)
    requires Live(c)
  {
    && readable && to in c.world.accounts && gas >= c.world.accounts[to].transferGas
    && Self(c).balance - amount >= Self(c).Threshold()
  }

  function SendCall(c: Context, to: nat, amount: nat, gas: nat, readable: bool): (Context, Reply)
    requires Live(c)
  {
    if !readable then (c, Panic)
    else if to !in c.world.accounts then (c, Who)
    else if gas < c.world.accounts[to].transferGas then (c, Low)
    else if Self(c).balance - amount < Self(c).Threshold() then (c, Cash)
    else
      var paid := Stored(c, c.self, Self(c).(balance := Self(c).balance - amount));
      (paid.(transfers := c.transfers + [Transfer(c.self, to, amount, gas)]), Done)
  }

  /** The code hash by which a service lets another one eject it. */
  function EjectorCode(id: Id): Hash {
    seq(32, n requires 0 <= n < 32 => LittleEndianOctet(id, n))
  }

  function LittleEndianOctet(x: nat, n: nat): Byte
    decreases n
  {
    if n == 0 then x % 256 else LittleEndianOctet(x / 256, n - 1)
  }

  predicate Expired(env: Env, since: nat) {
    since < env.slot - env.expunge
  }

  function EjectCall(env: Env, c: Context, target: nat, hash: Option<Hash>): (Context, Reply)
    requires Live(c)
  {
    if hash.None? then (c, Panic)
    else if target == c.self || target !in c.world.accounts then (c, Who)
    else if c.world.accounts[target].code != EjectorCode(c.self) then (c, Who)
    else
      var ejected := c.world.accounts[target];
      var size: nat := if ejected.octets < 81 then 0 else ejected.octets - 81;
      var request := RequestKey(target, hash.value, size);
      if ejected.items != 2 || request !in c.world.requests then (c, Huh)
      else
        var history := c.world.requests[request];
        if |history| != 2 || !Expired(env, history[1]) then (c, Huh)
        else
          var enriched := Self(c).(balance := Self(c).balance + ejected.balance);
          var accounts := (c.world.accounts - {target})[c.self := enriched];
          (c.(world := c.world.(
                accounts := accounts,
                blobs := c.world.blobs - {BlobKey(target, hash.value)},
                requests := c.world.requests - {request})), Done)
  }

  // ---------------------------------------------------------------- preimages

  function SolicitCall(env: Env, c: Context, hash: Option<Hash>, size: nat): (Context, Reply)
    requires Live(c)
  {
    if size >= 0x1_0000_0000 then (c, Huh)
    else if hash.None? then (c, Panic)
    else
      var k := RequestKey(c.self, hash.value, size);
      var present := k in c.world.requests;
      var a := if present then Self(c) else Self(c).WithRequest(size);
      if present && |c.world.requests[k]| != 2 then (c, Huh)
      else if a.balance < a.Threshold() then (c, Full)
      else
        var history := if present then c.world.requests[k] + [env.slot] else [];
        (Stored(c, c.self, a).(world := Stored(c, c.self, a).world.(requests := c.world.requests[k := history])), Done)
  }

  function ForgetCall(env: Env, c: Context, hash: Option<Hash>, size: nat): (Context, Reply)
    requires Live(c)
  {
    if size >= 0x1_0000_0000 then (c, Huh)
    else if hash.None? then (c, Panic)
    else
      var k := RequestKey(c.self, hash.value, size);
      if k !in c.world.requests then (c, Huh)
      else
        var h := c.world.requests[k];
        if |h| == 0 || (|h| == 2 && Expired(env, h[1])) then
          var less := Stored(c, c.self, Self(c).WithoutRequest(size));
          (less.(world := less.world.(
             requests := c.world.requests - {k},
             blobs := c.world.blobs - {BlobKey(c.self, hash.value)})), Done)
        else if |h| == 1 then (c.(world := c.world.(requests := c.world.requests[k := h + [env.slot]])), Done)
        else if |h| == 3 && Expired(env, h[1]) then
          (c.(world := c.world.(requests := c.world.requests[k := [h[2], env.slot]])), Done)
        else (c, Huh)
  }

  function ProvideCall(env: Env, c: Context, target: nat, blob: Read): (Context, Reply) {
    if blob.Size() >= 0x1_0000_0000 then (c, Huh)
    else if blob.Unreadable? then (c, Panic)
    else
      var s := if target == ONE_SELF then c.self else target;
      if s !in c.world.accounts then (c, Who)
      else
        var k := RequestKey(s, env.hash(blob.octets), |blob.octets|);
        if k !in c.world.requests || c.world.requests[k] != [] || (s, blob.octets) in c.provided then (c, Huh)
        else (c.(provided := c.provided + [(s, blob.octets)]), Done)
  }

  // ---------------------------------------------------------------- any call

  ghost predicate Callable(c: Context) {
    Live(c) && SomeIdIsFree(c.world.accounts.Keys)
  }

  function Apply(env: Env, c: Context, call: Call): (Context, Reply)
    requires Callable(c)
  {
    match call
    case Write(key, value) => if key.None? || value.None? then (c, Panic) else WriteCall(c, key.value, value.value)
    case New(_, _, _, _, _, _, _, _) => NewCall(env, c, call)
    case Upgrade(code, accumulateGas, transferGas) => UpgradeCall(c, code, accumulateGas, transferGas)
    case Send(to, amount, gas, readable) => SendCall(c, to, amount, gas, readable)
    case Eject(target, hash) => EjectCall(env, c, target, hash)
    case Solicit(hash, size) => SolicitCall(env, c, hash, size)
    case Forget(hash, size) => ForgetCall(env, c, hash, size)
    case Provide(target, blob) => ProvideCall(env, c, target, blob)
    case Other => (c, Done)
  }
}
