/** Service accounts, what they store, and the transfers between them. */
module Services {
  import opened Octets
  import opened Options

  type Id = nat

  // ---------------------------------------------------------------- transfers

  /** A deferred transfer; `gas` is what the sender sets aside for the receiver. */
  datatype Transfer = Transfer(sender: Id, receiver: Id, amount: nat, gas: nat)

  /** What the transfer call itself costs, before the forwarded gas. */
  const TRANSFER_COST := 575

  function ForwardedGas(ts: seq<Transfer>): nat {
    if ts == [] then 0 else ForwardedGas(ts[..|ts| - 1]) + ts[|ts| - 1].gas
  }

  function Amounts(ts: seq<Transfer>): nat {
    if ts == [] then 0 else Amounts(ts[..|ts| - 1]) + ts[|ts| - 1].amount
  }

  /** What each transfer costs its sender: the call, and the gas set aside. */
  function Charges(ts: seq<Transfer>): nat {
    TRANSFER_COST * |ts| + ForwardedGas(ts)
  }

  lemma {:induction false} ForwardedGasOfConcat(a: seq<Transfer>, b: seq<Transfer>)
    ensures ForwardedGas(a + b) == ForwardedGas(a) + ForwardedGas(b)
  {
    if b == [] {
      assert a + b == a;
    } else {
      var n := |a + b| - 1;
      assert (a + b)[..n] == a + b[..|b| - 1];
      ForwardedGasOfConcat(a, b[..|b| - 1]);
    }
  }

  // ---------------------------------------------------------------- accounts

  const BASIC_DEPOSIT := 100
  const ITEM_DEPOSIT := 10
  const OCTET_DEPOSIT := 1
  /** Public services are numbered from here on. */
  const FIRST_PUBLIC_ID := 0x1_0000

  /** `items` and `octets` are the counters the host calls keep of what the service stores. */
  datatype Account = Account(
    code: Hash,
    balance: nat,
    accumulateGas: nat,
    transferGas: nat,
    items: int,
    octets: int,
    gratis: nat,
    created: nat,
    accumulated: nat,
    parent: Id)
  {
    function Threshold(): nat {
      var deposit := BASIC_DEPOSIT + ITEM_DEPOSIT * items + OCTET_DEPOSIT * octets - gratis;
      if deposit < 0 then 0 else deposit
    }

    function WithItem(key: int, value: int): Account {
      this.(items := items + 1, octets := octets + 34 + key + value)
    }

    function WithoutItem(key: int, value: int): Account {
      this.(items := items - 1, octets := octets - (34 + key + value))
    }

    function WithValue(before: int, after: int): Account {
      this.(octets := octets + after - before)
    }

    function WithRequest(size: int): Account {
      this.(items := items + 2, octets := octets + 81 + size)
    }

    function WithoutRequest(size: int): Account {
      this.(items := items - 2, octets := octets - (81 + size))
    }
  }

  datatype ItemKey = ItemKey(id: Id, key: Bytes)
  datatype BlobKey = BlobKey(id: Id, hash: Hash)
  datatype RequestKey = RequestKey(id: Id, hash: Hash, size: nat)

  /** A request's history: requested, then since when available, unavailable, and again available. */
  type History = seq<nat>

  /** All services as an invocation sees them. */
  datatype World = World(
    accounts: map<Id, Account>,
    storage: map<ItemKey, Bytes>,
    blobs: map<BlobKey, Bytes>,
    requests: map<RequestKey, History>)

  // ---------------------------------------------------------------- pending changes

  /** Changes not yet written; none stands for a deletion. */
  datatype PendingChanges = PendingChanges(
    accounts: map<Id, Option<Account>>,
    storage: map<ItemKey, Option<Bytes>>,
    blobs: map<BlobKey, Option<Bytes>>,
    requests: map<RequestKey, Option<History>>)

  function NoChanges(): PendingChanges {
    PendingChanges(map[], map[], map[], map[])
  }

  /** A map seen through pending changes. */
  function Overlay<K(!new), V>(base: map<K, V>, pending: map<K, Option<V>>): (r: map<K, V>)
    ensures forall k :: k in r <==> if k in pending then pending[k].Some? else k in base
    ensures forall k :: k in r ==> r[k] == if k in pending then pending[k].value else base[k]
  {
    map k | k in base.Keys + pending.Keys && (if k in pending then pending[k].Some? else true) ::
      if k in pending then pending[k].value else base[k]
  }

  function View(base: World, p: PendingChanges): World {
    World(Overlay(base.accounts, p.accounts), Overlay(base.storage, p.storage),
          Overlay(base.blobs, p.blobs), Overlay(base.requests, p.requests))
  }

  lemma OverlayPut<K(!new), V>(base: map<K, V>, pending: map<K, Option<V>>, k: K, v: V)
    ensures Overlay(base, pending[k := Some(v)]) == Overlay(base, pending)[k := v]
  {
  }

  lemma OverlayDelete<K(!new), V>(base: map<K, V>, pending: map<K, Option<V>>, k: K)
    ensures Overlay(base, pending[k := None]) == Overlay(base, pending) - {k}
  {
  }
}
