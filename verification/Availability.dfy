/** Which preimages were available at past slots, and why the answers do not change. */
module Availability {
  import opened Octets
  import opened Options
  import opened Services
  import opened ServiceIds
  import opened HostCalls
  import opened Footprints

  /** Requested, then available from the first slot, not from the second, and again from the third. */
  predicate Available(h: History, t: int) {
    if |h| == 0 then false
    else if |h| == 1 then h[0] <= t
    else if |h| == 2 then h[0] <= t < h[1]
    else if |h| == 3 then h[0] <= t < h[1] || h[2] <= t
    else false
  }

  predicate AvailableAt(w: World, k: RequestKey, t: int) {
    k in w.requests && Available(w.requests[k], t)
  }

  /** The blob with this hash, if it was available at slot `t`. */
  function HistoricalLookup(w: World, k: BlobKey, t: int): Option<Bytes> {
    if k in w.blobs && AvailableAt(w, RequestKey(k.id, k.hash, |w.blobs[k]|), t) then Some(w.blobs[k]) else None
  }

  /** A slot recent enough that nothing unavailable since then has expired. */
  predicate Past(env: Env, t: int) {
    env.slot - env.expunge <= t < env.slot
  }

  // ---------------------------------------------------------------- preimages that arrive

  function Arrived(env: Env, w: World, s: Id, blob: Bytes): World {
    w.(requests := w.requests[RequestKey(s, env.hash(blob), |blob|) := [env.slot]],
       blobs := w.blobs[BlobKey(s, env.hash(blob)) := blob])
  }

  predicate Wanted(env: Env, w: World, s: Id, blob: Bytes) {
    var k := RequestKey(s, env.hash(blob), |blob|);
    k in w.requests && w.requests[k] == []
  }

  /** A preimage provided by an invocation, once the round's changes are merged. */
  function Provided(env: Env, w: World, s: Id, blob: Bytes): World {
    if s in w.accounts && Wanted(env, w, s, blob) then Arrived(env, w, s, blob) else w
  }

  /** A preimage from the block's own list. */
  function Introduced(env: Env, w: World, s: Id, blob: Bytes): World {
    if BlobKey(s, env.hash(blob)) !in w.blobs && Wanted(env, w, s, blob) then Arrived(env, w, s, blob) else w
  }

  /** All that can happen to the services within one slot. */
  datatype Change =
    | Called(self: Id, nextId: Id, call: Call)
    | Provision(s: Id, blob: Bytes)
    | Introduction(s: Id, blob: Bytes)

  ghost predicate Possible(w: World, d: Change) {
    d.Called? ==> d.self in w.accounts && SomeIdIsFree(w.accounts.Keys) && d.nextId !in w.accounts
  }

  ghost function Changed(env: Env, w: World, d: Change): World {
    match d
    case Called(self, nextId, call) =>
      if Possible(w, d) then Apply(env, Context(self, w, nextId, [], []), call).0.world else w
    case Provision(s, blob) => Provided(env, w, s, blob)
    case Introduction(s, blob) => Introduced(env, w, s, blob)
  }

  ghost function ChangedByAll(env: Env, w: World, ds: seq<Change>): World {
    if ds == [] then w else Changed(env, ChangedByAll(env, w, ds[..|ds| - 1]), ds[|ds| - 1])
  }

  lemma BlobAdded(env: Env, w: World, s: Id, blob: Bytes)
    requires Sound(env, w) && RequestKey(s, env.hash(blob), |blob|) in w.requests
    ensures Sound(env, w.(blobs := w.blobs[BlobKey(s, env.hash(blob)) := blob]))
  {
    hide RequestOctets, StorageOctets, ItemsOf, RequestsOf;
  }

  lemma ArrivedKeepsSound(env: Env, w: World, s: Id, blob: Bytes)
    requires Sound(env, w) && Wanted(env, w, s, blob)
    ensures Sound(env, Arrived(env, w, s, blob))
  {
    hide RequestOctets, StorageOctets, ItemsOf, RequestsOf;
    var k := RequestKey(s, env.hash(blob), |blob|);
    HistoryChanged(env, w, k, [env.slot]);
    BlobAdded(env, w.(requests := w.requests[k := [env.slot]]), s, blob);
  }

  lemma ChangeKeepsSound(env: Env, w: World, d: Change)
    requires Sound(env, w)
    ensures Sound(env, Changed(env, w, d))
  {
    hide Sound, Apply, SomeIdIsFree;
    match d {
      case Called(self, nextId, call) =>
        if Possible(w, d) {
          CallKeepsSound(env, Context(self, w, nextId, [], []), call);
        }
      case Provision(s, blob) =>
        if Wanted(env, w, s, blob) {
          ArrivedKeepsSound(env, w, s, blob);
        }
      case Introduction(s, blob) =>
        if Wanted(env, w, s, blob) {
          ArrivedKeepsSound(env, w, s, blob);
        }
    }
  }

  // ---------------------------------------------------------------- the history is stable

  lemma CallKeepsAnswer(env: Env, c: Context, call: Call, k: RequestKey, t: int)
    requires Callable(c) && Owned(c.world) && c.nextId !in c.world.accounts && Past(env, t)
    ensures AvailableAt(Apply(env, c, call).0.world, k, t) <==> AvailableAt(c.world, k, t)
  {
    hide SomeIdIsFree, CheckServiceId, NewAccount, EjectorCode;
  }

  lemma ChangeKeepsAnswer(env: Env, w: World, d: Change, k: RequestKey, t: int)
    requires Sound(env, w) && Past(env, t)
    ensures AvailableAt(Changed(env, w, d), k, t) <==> AvailableAt(w, k, t)
  {
    hide Apply, SomeIdIsFree, Exact, Backed, NoEmptyValues;
    if d.Called? && Possible(w, d) {
      CallKeepsAnswer(env, Context(d.self, w, d.nextId, [], []), d.call, k, t);
    }
  }

  /** Nothing that happens in a slot changes what was available at a slot of the past, up to the expunge period. */
  lemma {:induction false} HistoryIsStable(env: Env, w: World, ds: seq<Change>, k: RequestKey, t: int)
    requires Sound(env, w) && Past(env, t)
    ensures Sound(env, ChangedByAll(env, w, ds))
    ensures AvailableAt(ChangedByAll(env, w, ds), k, t) <==> AvailableAt(w, k, t)
  {
    hide Sound, Changed, AvailableAt;
    if ds != [] {
      var front := ds[..|ds| - 1];
      HistoryIsStable(env, w, front, k, t);
      ChangeKeepsSound(env, ChangedByAll(env, w, front), ds[|ds| - 1]);
      ChangeKeepsAnswer(env, ChangedByAll(env, w, front), ds[|ds| - 1], k, t);
    }
  }

  // ---------------------------------------------------------------- the blobs are stable

  /** Whether forgetting a request deletes it, and with it any blob of that hash. */
  predicate Deletes(env: Env, w: World, k: RequestKey) {
    && k.size < 0x1_0000_0000 && k in w.requests
    && (w.requests[k] == [] || (|w.requests[k]| == 2 && Expired(env, w.requests[k][1])))
  }

  /**
   Forgetting deletes a blob by its hash alone.  So it changes the answer of a past lookup
   exactly if it deletes a request while the blob was available, under another length.
   */
  lemma ForgetChangesLookupExactly(env: Env, c: Context, hash: Hash, size: nat, t: int)
    requires Live(c) && Past(env, t)
    ensures var after, b := ForgetCall(env, c, Some(hash), size).0.world, BlobKey(c.self, hash);
            HistoricalLookup(after, b, t) != HistoricalLookup(c.world, b, t) <==>
            Deletes(env, c.world, RequestKey(c.self, hash, size)) && HistoricalLookup(c.world, b, t).Some?
    ensures var b := BlobKey(c.self, hash);
            Deletes(env, c.world, RequestKey(c.self, hash, size)) && HistoricalLookup(c.world, b, t).Some? ==>
            |c.world.blobs[b]| != size
  {
    hide EjectorCode;
  }

  /** It does happen: a second request, of another length, takes the blob along. */
  lemma WrongLengthLosesBlob(env: Env, c: Context, blob: Bytes, size: nat, t: int)
    requires Live(c) && Past(env, t) && t >= 0 && size != |blob| && size < 0x1_0000_0000
    requires c.world.blobs == map[BlobKey(c.self, env.hash(blob)) := blob]
    requires c.world.requests ==
             map[RequestKey(c.self, env.hash(blob), |blob|) := [0], RequestKey(c.self, env.hash(blob), size) := []]
    ensures HistoricalLookup(c.world, BlobKey(c.self, env.hash(blob)), t) == Some(blob)
    ensures var after := ForgetCall(env, c, Some(env.hash(blob)), size).0.world;
            HistoricalLookup(after, BlobKey(c.self, env.hash(blob)), t) == None
  {
    ForgetChangesLookupExactly(env, c, env.hash(blob), size, t);
  }

  /**
   The two ways a past lookup loses its blob: forgetting deletes it, under a request of
   another length; or a provision overwrites it, with another blob of the same hash.
   */
  ghost predicate LosesBlob(env: Env, w: World, d: Change, b: BlobKey, t: int) {
    && HistoricalLookup(w, b, t).Some? && Possible(w, d)
    && match d
       case Called(self, _, Forget(Some(hash), size)) =>
         b == BlobKey(self, hash) && Deletes(env, w, RequestKey(self, hash, size))
       case Provision(s, blob) =>
         b == BlobKey(s, env.hash(blob)) && s in w.accounts && Wanted(env, w, s, blob)
       case _ => false
  }

  lemma SameLookup(v: World, w: World, b: BlobKey, t: int)
    requires b in v.blobs <==> b in w.blobs
    requires b in w.blobs ==>
               && v.blobs[b] == w.blobs[b]
               && var k := RequestKey(b.id, b.hash, |w.blobs[b]|); (AvailableAt(v, k, t) <==> AvailableAt(w, k, t))
    ensures HistoricalLookup(v, b, t) == HistoricalLookup(w, b, t)
  {
  }

  /** What a lookup finds is backed by an available request, so deleting an expired one does not lose it. */
  lemma EjectedWasNotFound(env: Env, c: Context, target: nat, hash: Option<Hash>, b: BlobKey, t: int)
    requires Live(c) && Sound(env, c.world) && Past(env, t)
    requires EjectCall(env, c, target, hash).1 == Done && b.id == target
    ensures HistoricalLookup(c.world, b, t) == HistoricalLookup(EjectCall(env, c, target, hash).0.world, b, t) == None
  {
    EjectOrphansNothing(env, c, target, hash);
    var ejected := c.world.accounts[target];
    var k := RequestKey(target, hash.value, if ejected.octets < 81 then 0 else ejected.octets - 81);
    OnlyEntry(env, c.world, k);
    hide Exact, ItemsOf, RequestsOf;
    if b in c.world.blobs {
      assert RequestKey(b.id, b.hash, |c.world.blobs[b]|) in c.world.requests;
    }
  }

  /** Which blob a call may take away, if any. */
  predicate TakesBlob(c: Context, call: Call, b: BlobKey) {
    match call
    case Forget(Some(hash), _) => b == BlobKey(c.self, hash)
    case Eject(target, Some(hash)) => b == BlobKey(target, hash)
    case _ => false
  }

  lemma OtherBlobsStay(env: Env, c: Context, call: Call, b: BlobKey)
    requires Callable(c) && !TakesBlob(c, call, b)
    ensures var w := Apply(env, c, call).0.world;
            (b in w.blobs <==> b in c.world.blobs) && (b in w.blobs ==> w.blobs[b] == c.world.blobs[b])
  {
    hide EjectorCode, NewAccount, CheckServiceId, SomeIdIsFree;
  }

  lemma CallLosesExactly(env: Env, c: Context, call: Call, b: BlobKey, t: int)
    requires Callable(c) && Sound(env, c.world) && c.nextId !in c.world.accounts && Past(env, t)
    ensures HistoricalLookup(Apply(env, c, call).0.world, b, t) != HistoricalLookup(c.world, b, t) <==>
            LosesBlob(env, c.world, Called(c.self, c.nextId, call), b, t)
  {
    hide Sound, SomeIdIsFree, HistoricalLookup, Deletes;
    if call.Forget? && TakesBlob(c, call, b) {
      hide ForgetCall;
      ForgetChangesLookupExactly(env, c, b.hash, call.size, t);
    } else if TakesBlob(c, call, b) {
      EjectLosesNothing(env, c, call, b, t);
      hide Apply;
    } else {
      OtherBlobsStay(env, c, call, b);
      OthersKeepLookup(env, c, call, b, t);
      hide Apply;
    }
  }

  lemma EjectLosesNothing(env: Env, c: Context, call: Call, b: BlobKey, t: int)
    requires Callable(c) && Sound(env, c.world) && c.nextId !in c.world.accounts && Past(env, t)
    requires call.Eject? && TakesBlob(c, call, b)
    ensures HistoricalLookup(Apply(env, c, call).0.world, b, t) == HistoricalLookup(c.world, b, t)
  {
    hide Sound, SomeIdIsFree, HistoricalLookup, EjectorCode;
    if EjectCall(env, c, call.target, call.hash).1 == Done {
      EjectedWasNotFound(env, c, call.target, call.hash, b, t);
    }
  }

  /** A call that leaves the blob alone leaves the lookup alone. */
  lemma OthersKeepLookup(env: Env, c: Context, call: Call, b: BlobKey, t: int)
    requires Callable(c) && Sound(env, c.world) && c.nextId !in c.world.accounts && Past(env, t)
    requires var w := Apply(env, c, call).0.world;
             (b in w.blobs <==> b in c.world.blobs) && (b in w.blobs ==> w.blobs[b] == c.world.blobs[b])
    ensures HistoricalLookup(Apply(env, c, call).0.world, b, t) == HistoricalLookup(c.world, b, t)
  {
    var w := Apply(env, c, call).0.world;
    if b in w.blobs {
      CallKeepsAnswer(env, c, call, RequestKey(b.id, b.hash, |w.blobs[b]|), t);
    }
    hide Apply, Sound;
    SameLookup(w, c.world, b, t);
  }

  lemma ArrivalLosesExactly(env: Env, w: World, s: Id, blob: Bytes, b: BlobKey, t: int)
    requires Past(env, t) && Wanted(env, w, s, blob)
    ensures HistoricalLookup(Arrived(env, w, s, blob), b, t) != HistoricalLookup(w, b, t) <==>
            HistoricalLookup(w, b, t).Some? && b == BlobKey(s, env.hash(blob))
    ensures HistoricalLookup(w, b, t).Some? && b == BlobKey(s, env.hash(blob)) ==> w.blobs[b] != blob
  {
    var k := RequestKey(s, env.hash(blob), |blob|);
    if b != BlobKey(s, env.hash(blob)) && b in w.blobs {
      assert RequestKey(b.id, b.hash, |w.blobs[b]|) != k;
    }
  }

  /** In a sound world, whatever happens changes a past lookup exactly if it loses the blob in one of those two ways. */
  lemma ChangeLosesExactly(env: Env, w: World, d: Change, b: BlobKey, t: int)
    requires Sound(env, w) && Past(env, t)
    ensures HistoricalLookup(Changed(env, w, d), b, t) != HistoricalLookup(w, b, t) <==> LosesBlob(env, w, d, b, t)
    ensures LosesBlob(env, w, d, b, t) && d.Called? ==> |w.blobs[b]| != d.call.size
    ensures LosesBlob(env, w, d, b, t) && d.Provision? ==>
              d.blob != w.blobs[b] && env.hash(d.blob) == env.hash(w.blobs[b])
  {
    BlobsHaveTheirHash(env, w);
    hide Sound, Apply, HistoricalLookup, AvailableAt, Past, Wanted, Arrived, SomeIdIsFree, Deletes;
    match d {
      case Called(self, nextId, call) =>
        if Possible(w, d) {
          CallLosesExactly(env, Context(self, w, nextId, [], []), call, b, t);
          LostByForgetting(env, w, d, b, t);
        }
      case Provision(s, blob) =>
        if Wanted(env, w, s, blob) {
          ArrivalLosesExactly(env, w, s, blob, b, t);
        }
        FoundIsThere(w, b, t);
      case Introduction(s, blob) =>
        if Wanted(env, w, s, blob) {
          ArrivalLosesExactly(env, w, s, blob, b, t);
        }
        FoundIsThere(w, b, t);
    }
  }

  lemma FoundIsThere(w: World, b: BlobKey, t: int)
    ensures HistoricalLookup(w, b, t).Some? ==> b in w.blobs
  {
  }

  lemma BlobsHaveTheirHash(env: Env, w: World)
    requires Sound(env, w)
    ensures forall b :: b in w.blobs ==> env.hash(w.blobs[b]) == b.hash
  {
  }

  lemma LostByForgetting(env: Env, w: World, d: Change, b: BlobKey, t: int)
    requires Past(env, t) && d.Called? && Possible(w, d)
    ensures LosesBlob(env, w, d, b, t) ==> b in w.blobs && d.call.Forget? && |w.blobs[b]| != d.call.size
  {
    hide SomeIdIsFree;
    if LosesBlob(env, w, d, b, t) {
      ForgetChangesLookupExactly(env, Context(d.self, w, d.nextId, [], []), b.hash, d.call.size, t);
    }
  }

  /** Each hash is only ever requested at one length, that of the blob. */
  predicate Honest(env: Env, length: Hash -> nat, d: Change) {
    match d
    case Called(_, _, New(code, size, _, _, _, _, _, _)) => code.Some? ==> size == length(code.value)
    case Called(_, _, Solicit(hash, size)) => hash.Some? ==> size == length(hash.value)
    case Called(_, _, _) => true
    case Provision(_, blob) => |blob| == length(env.hash(blob))
    case Introduction(_, blob) => |blob| == length(env.hash(blob))
  }

  ghost predicate TrueLengths(length: Hash -> nat, w: World) {
    && (forall k :: k in w.requests ==> k.size == length(k.hash))
    && (forall b :: b in w.blobs ==> |w.blobs[b]| == length(b.hash))
  }

  /** A blob that is there has answered its request. */
  ghost predicate Answered(length: Hash -> nat, w: World) {
    forall b :: b in w.blobs ==>
      var k := RequestKey(b.id, b.hash, length(b.hash)); k in w.requests && w.requests[k] != []
  }

  ghost predicate Tidy(env: Env, length: Hash -> nat, w: World) {
    Sound(env, w) && TrueLengths(length, w) && Answered(length, w)
  }

  /** The blobs of one world answer as those of another, and as they should. */
  ghost predicate SameBlobs(env: Env, length: Hash -> nat, w: World, after: World, b: BlobKey, t: int) {
    && TrueLengths(length, after) && Answered(length, after)
    && (Past(env, t) ==> HistoricalLookup(after, b, t) == HistoricalLookup(w, b, t))
  }

  lemma HistoryReplaced(env: Env, length: Hash -> nat, w: World, after: World, k: RequestKey, b: BlobKey, t: int)
    requires TrueLengths(length, w) && Answered(length, w) && k.size == length(k.hash)
    requires after.blobs == w.blobs && k in after.requests && after.requests == w.requests[k := after.requests[k]]
    requires k in w.requests && w.requests[k] != [] ==> after.requests[k] != []
    requires Past(env, t) ==> (AvailableAt(after, k, t) <==> AvailableAt(w, k, t))
    ensures SameBlobs(env, length, w, after, b, t)
  {
    hide Available;
  }

  lemma NothingReplaced(env: Env, length: Hash -> nat, w: World, after: World, b: BlobKey, t: int)
    requires TrueLengths(length, w) && Answered(length, w)
    requires after.blobs == w.blobs && after.requests == w.requests
    ensures SameBlobs(env, length, w, after, b, t)
  {
    hide Available;
  }

  lemma EntryRemoved(env: Env, length: Hash -> nat, w: World, after: World, k: RequestKey, b: BlobKey, t: int)
    requires TrueLengths(length, w) && Answered(length, w) && k in w.requests &&
             (Past(env, t) ==> !AvailableAt(w, k, t))
    requires after.requests == w.requests - {k} && after.blobs == w.blobs - {BlobKey(k.id, k.hash)}
    ensures SameBlobs(env, length, w, after, b, t)
  {
    hide Available;
  }

  lemma BlobArrived(env: Env, w: World, s: Id, blob: Bytes, length: Hash -> nat, b: BlobKey, t: int)
    requires TrueLengths(length, w) && Answered(length, w)
    requires Wanted(env, w, s, blob) && |blob| == length(env.hash(blob))
    ensures SameBlobs(env, length, w, Arrived(env, w, s, blob), b, t)
  {
  }

  lemma CallKeepsBlobs(env: Env, c: Context, call: Call, length: Hash -> nat, b: BlobKey, t: int)
    requires Callable(c) && Owned(c.world) && c.nextId !in c.world.accounts
    requires TrueLengths(length, c.world) && Answered(length, c.world) &&
             Honest(env, length, Called(c.self, c.nextId, call))
    ensures SameBlobs(env, length, c.world, Apply(env, c, call).0.world, b, t)
  {
    hide SameBlobs, TrueLengths, Answered, EjectorCode, NewAccount, CheckServiceId, SomeIdIsFree;
    var w, r := c.world, Apply(env, c, call);
    if r.0.world.blobs == w.blobs && r.0.world.requests == w.requests {
      NothingReplaced(env, length, w, r.0.world, b, t);
    } else {
      match call {
        case New(_, _, _, _, _, _, _, _) =>
          NewReplaces(env, c, call, length, b, t);
        case Solicit(hash, size) =>
          SolicitReplaces(env, c, hash.value, size, length, b, t);
        case Forget(hash, size) =>
          ForgetReplaces(env, c, hash.value, size, length, b, t);
        case Eject(target, hash) =>
          EjectRemoves(env, c, target, hash.value, length, b, t);
        case _ =>
      }
    }
  }

  lemma SolicitReplaces(env: Env, c: Context, hash: Hash, size: nat, length: Hash -> nat, b: BlobKey, t: int)
    requires Live(c) && size == length(hash)
    requires TrueLengths(length, c.world) && Answered(length, c.world)
    requires SolicitCall(env, c, Some(hash), size).1 == Done
    ensures SameBlobs(env, length, c.world, SolicitCall(env, c, Some(hash), size).0.world, b, t)
  {
    hide SameBlobs, TrueLengths, Answered;
    HistoryReplaced(env, length, c.world, SolicitCall(env, c, Some(hash), size).0.world, RequestKey(c.self, hash, size),
      b,
      t);
  }

  lemma NewReplaces(env: Env, c: Context, call: Call, length: Hash -> nat, b: BlobKey, t: int)
    requires call.New? && Callable(c) && Owned(c.world) && c.nextId !in c.world.accounts
    requires TrueLengths(length, c.world) && Answered(length, c.world) &&
             Honest(env, length, Called(c.self, c.nextId, call))
    requires NewCall(env, c, call).1.Created?
    ensures SameBlobs(env, length, c.world, NewCall(env, c, call).0.world, b, t)
  {
    hide SomeIdIsFree, CheckServiceId, NewAccount, SameBlobs;
    var r := NewCall(env, c, call);
    HistoryReplaced(env, length, c.world, r.0.world, RequestKey(r.1.id, call.code.value, call.size), b, t);
  }

  lemma ForgetReplaces(env: Env, c: Context, hash: Hash, size: nat, length: Hash -> nat, b: BlobKey, t: int)
    requires Live(c)
    requires TrueLengths(length, c.world) && Answered(length, c.world)
    requires ForgetCall(env, c, Some(hash), size).1 == Done
    ensures SameBlobs(env, length, c.world, ForgetCall(env, c, Some(hash), size).0.world, b, t)
  {
    assert RequestKey(c.self, hash, size) in c.world.requests;
    assert size == length(hash);
    hide SameBlobs, TrueLengths, Answered;
    var k, after := RequestKey(c.self, hash, size), ForgetCall(env, c, Some(hash), size).0.world;
    if Deletes(env, c.world, k) {
      EntryRemoved(env, length, c.world, after, k, b, t);
    } else {
      HistoryReplaced(env, length, c.world, after, k, b, t);
    }
  }

  lemma EjectRemoves(env: Env, c: Context, target: nat, hash: Hash, length: Hash -> nat, b: BlobKey, t: int)
    requires Live(c)
    requires TrueLengths(length, c.world) && Answered(length, c.world)
    requires EjectCall(env, c, target, Some(hash)).1 == Done
    ensures SameBlobs(env, length, c.world, EjectCall(env, c, target, Some(hash)).0.world, b, t)
  {
    hide SameBlobs, TrueLengths, Answered, EjectorCode;
    var ejected := c.world.accounts[target];
    var k := RequestKey(target, hash, if ejected.octets < 81 then 0 else ejected.octets - 81);
    EntryRemoved(env, length, c.world, EjectCall(env, c, target, Some(hash)).0.world, k, b, t);
  }

  lemma ChangeKeepsBlobs(env: Env, w: World, d: Change, length: Hash -> nat, b: BlobKey, t: int)
    requires Tidy(env, length, w) && Honest(env, length, d)
    ensures Tidy(env, length, Changed(env, w, d))
    ensures Past(env, t) ==> HistoricalLookup(Changed(env, w, d), b, t) == HistoricalLookup(w, b, t)
  {
    ChangeKeepsSound(env, w, d);
    hide Apply, SomeIdIsFree, Exact, Backed, NoEmptyValues, HistoricalLookup, TrueLengths, Answered, Honest, Wanted,
      Arrived;
    match d {
      case Called(self, nextId, call) =>
        if Possible(w, d) {
          CallKeepsBlobs(env, Context(self, w, nextId, [], []), call, length, b, t);
        }
      case Provision(s, blob) =>
        if Wanted(env, w, s, blob) {
          HonestBlob(env, length, d);
          BlobArrived(env, w, s, blob, length, b, t);
        }
      case Introduction(s, blob) =>
        if Wanted(env, w, s, blob) {
          HonestBlob(env, length, d);
          BlobArrived(env, w, s, blob, length, b, t);
        }
    }
  }

  lemma HonestBlob(env: Env, length: Hash -> nat, d: Change)
    requires Honest(env, length, d) && !d.Called?
    ensures |d.blob| == length(env.hash(d.blob))
  {
  }

  /** When hashes are requested at their true lengths, past lookups also give the same blob. */
  lemma {:induction false} LookupIsStable(env: Env, w: World, ds: seq<Change>, length: Hash -> nat, b: BlobKey, t: int)
    requires Tidy(env, length, w)
    requires forall d :: d in ds ==> Honest(env, length, d)
    ensures Tidy(env, length, ChangedByAll(env, w, ds))
    ensures Past(env, t) ==> HistoricalLookup(ChangedByAll(env, w, ds), b, t) == HistoricalLookup(w, b, t)
  {
    hide Tidy, Changed, HistoricalLookup, Past;
    if ds != [] {
      var front := ds[..|ds| - 1];
      LookupIsStable(env, w, front, length, b, t);
      ChangeKeepsBlobs(env, ChangedByAll(env, w, front), ds[|ds| - 1], length, b, t);
    }
  }
}
