/** The store itself: fields updated in place, lookups that walk the parents in loops. */
module Storage {
  import opened Octets
  import opened Options
  import opened ForkedStore

  /** The rest of the walk of `Walk`, from a possibly absent block. */
  ghost function WalkFrom(s: Store, cursor: Option<Hash>, seen: set<Hash>): Option<seq<Hash>> {
    match cursor
    case None => Some([])
    case Some(b) => Walk(s, b, seen)
  }

  lemma WalkStep(s: Store, h: Hash, seen: set<Hash>)
    requires h !in seen
    ensures Walk(s, h, seen) == Prefixed([h], WalkFrom(s, ParentOf(s, h), seen + {h}))
  {
    assert [h] + [] == [h];
  }

  ghost function Prefixed(done: seq<Hash>, rest: Option<seq<Hash>>): Option<seq<Hash>> {
    match rest
    case None => None
    case Some(path) => Some(done + path)
  }

  /** `items` on the keys already processed, `m` on the others. */
  ghost function Blend(items: State, processed: set<Bytes>, m: State): State {
    map k | k in items.Keys + m.Keys && (if k in processed then k in items else k in m) ::
      if k in processed then items[k] else m[k]
  }

  predicate AgreesOff(items: State, processed: set<Bytes>, m: State) {
    forall k :: k in items.Keys + m.Keys && k !in processed ==> Lookup(items, k) == Lookup(m, k)
  }

  /** Older changes to keys that a newer block already decided are skipped. */
  function Underlay(items: State, processed: set<Bytes>, c: Changes): State {
    Apply(items, c - processed)
  }

  lemma UnderlayBlends(items: State, processed: set<Bytes>, c: Changes, m: State)
    ensures Blend(Underlay(items, processed, c), processed + c.Keys, m) == Blend(items, processed, Apply(m, c))
  {
  }

  lemma NothingYet(items: State, m: State)
    ensures Blend(items, {}, m) == m
    ensures AgreesOff(items, {}, items)
  {
  }

  lemma NothingLeft(items: State, processed: set<Bytes>, m: State)
    requires AgreesOff(items, processed, m)
    ensures Blend(items, processed, m) == items
  {
    forall k | k in items.Keys + m.Keys
      ensures k in Blend(items, processed, m) <==> k in items
      ensures k in items ==> Blend(items, processed, m)[k] == items[k]
    {
      assert k !in processed ==> Lookup(items, k) == Lookup(m, k);
    }
  }

  /** One block further down: its changes matter only where no newer block decided. */
  lemma OneDown(s: Store, h: Hash, items: State, processed: set<Bytes>, rest: seq<Hash>)
    ensures Blend(Underlay(items, processed, ChangesOf(s, h)), processed + ChangesOf(s, h).Keys, View(s, rest)) ==
            Blend(items, processed, View(s, [h] + rest))
  {
    assert ([h] + rest)[1..] == rest;
    UnderlayBlends(items, processed, ChangesOf(s, h), View(s, rest));
  }

  lemma UnderlayAgrees(items: State, processed: set<Bytes>, c: Changes, m: State)
    requires AgreesOff(items, processed, m)
    ensures AgreesOff(Underlay(items, processed, c), processed + c.Keys, m)
  {
    var after := Underlay(items, processed, c);
    forall k | k in after.Keys + m.Keys && k !in processed + c.Keys
      ensures Lookup(after, k) == Lookup(m, k)
    {
      assert k in items.Keys + m.Keys;
    }
  }

  /** Replaying two change sets one after the other is applying them merged. */
  lemma ApplyMerged(m: State, a: Changes, b: Changes)
    ensures Apply(Apply(m, a), b) == Apply(m, a + b)
  {
  }

  function WriteOne(m: State, key: Bytes, c: Change): State {
    match c
    case Deleted => m - {key}
    case Written(v) => m[key := v]
  }

  /** One key fewer left to write. */
  lemma WriteNext(m: State, c: Changes, left: set<Bytes>, key: Bytes)
    requires key in left && key in c
    ensures Apply(m, c - (left - {key})) == WriteOne(Apply(m, c - left), key, c[key])
  {
    assert c - (left - {key}) == (c - left)[key := c[key]];
  }

  lemma WriteNone(m: State, c: Changes, left: set<Bytes>)
    requires left == c.Keys
    ensures Apply(m, c - left) == m
  {
    assert c - left == map[];
  }

  method ApplyBatch(engine: State, batch: Changes) returns (r: State)
    ensures r == Apply(engine, batch)
  {
    hide Apply;
    r := engine;
    var left := batch.Keys;
    WriteNone(engine, batch, left);
    while left != {}
      invariant left <= batch.Keys
      invariant r == Apply(engine, batch - left)
      decreases left
    {
      var key :| key in left;
      WriteNext(engine, batch, left, key);
      match batch[key] {
        case Deleted => r := r - {key};
        case Written(v) => r := r[key := v];
      }
      left := left - {key};
    }
    assert batch - {} == batch;
  }

  method MergeInto(items: State, processed: set<Bytes>, c: Changes) returns (items': State, processed': set<Bytes>)
    ensures items' == Underlay(items, processed, c)
    ensures processed' == processed + c.Keys
  {
    hide Apply;
    items', processed' := items, processed;
    var left := c.Keys;
    ghost var todo := c - processed;
    assert todo - left == todo - todo.Keys;
    WriteNone(items, todo, todo.Keys);
    while left != {}
      invariant left <= c.Keys
      invariant processed' == processed + (c.Keys - left)
      invariant items' == Apply(items, todo - left)
      decreases left
    {
      var key :| key in left;
      if key !in processed' {
        WriteNext(items, todo, left, key);
        match c[key] {
          case Deleted => items' := items' - {key};
          case Written(v) => items' := items'[key := v];
        }
        processed' := processed' + {key};
      } else {
        assert todo - left == todo - (left - {key});
      }
      assert c.Keys - (left - {key}) == (c.Keys - left) + {key};
      left := left - {key};
    }
    assert todo - {} == todo;
  }

  class StateStorage {
    var engine: State
    var finalizedBlockHash: Option<Hash>
    var blockHash: Option<Hash>
    var changeSets: map<Hash, Changes>
    var transaction: Changes
    var parents: map<Hash, Option<Hash>>

    function Contents(): Store
      reads this
    {
      Store(engine, finalizedBlockHash, blockHash, changeSets, transaction, parents)
    }

    constructor (engine: State)
      ensures Contents() == Store(engine, None, None, map[], map[], map[])
    {
      this.engine, finalizedBlockHash, blockHash := engine, None, None;
      changeSets, transaction, parents := map[], map[], map[];
    }

    // -------------------------------------------------------------- reading

    method Get(key: Bytes) returns (r: Result<Option<Bytes>>)
      ensures r == ForkedStore.Get(Contents(), key)
    {
      if blockHash.Some? {
        if key in transaction {
          return Success(Outcome(transaction[key]));
        }
        var cursor, visited: set<Hash> := blockHash, {};
        while cursor.Some?
          invariant Find(Contents(), cursor, visited, key) == Find(Contents(), blockHash, {}, key)
          decreases parents.Keys - visited, if cursor.None? then 0 else 1
        {
          if cursor.value in visited {
            return Failure(Cycle);
          }
          visited := visited + {cursor.value};
          var changes := ChangesOf(Contents(), cursor.value);
          if key in changes {
            return Success(Outcome(changes[key]));
          }
          cursor := ParentOf(Contents(), cursor.value);
        }
      }
      r := Success(Lookup(engine, key));
    }

    method AsDict() returns (r: Result<State>)
      ensures r == ForkedStore.AsDict(Contents())
    {
      hide Blend, Underlay, Apply;
      if transaction != map[] {
        return Failure(PendingTransaction);
      }
      var items := engine;
      if blockHash.Some? {
        ghost var s := Contents();
        var cursor, visited: set<Hash>, processed: set<Bytes> := blockHash, {}, {};
        ghost var done: seq<Hash> := [];
        assert forall path: seq<Hash> :: [] + path == path;
        if Walk(s, blockHash.value, {}).Some? {
          NothingYet(items, View(s, Walk(s, blockHash.value, {}).value));
        }
        while cursor.Some?
          invariant Prefixed(done, WalkFrom(s, cursor, visited)) == Walk(s, blockHash.value, {})
          invariant AgreesOff(items, processed, s.base)
          invariant WalkFrom(s, cursor, visited).Some? ==>
                      Blend(items, processed, View(s, WalkFrom(s, cursor, visited).value)) ==
                      View(s, Walk(s, blockHash.value, {}).value)
          decreases parents.Keys - visited, if cursor.None? then 0 else 1
        {
          var h := cursor.value;
          if h in visited {
            return Failure(Cycle);
          }
          ghost var rest := WalkFrom(s, ParentOf(s, h), visited + {h});
          WalkStep(s, h, visited);
          if rest.Some? {
            OneDown(s, h, items, processed, rest.value);
            assert done + ([h] + rest.value) == (done + [h]) + rest.value;
          }
          UnderlayAgrees(items, processed, ChangesOf(s, h), s.base);
          visited := visited + {h};
          items, processed := MergeInto(items, processed, ChangesOf(Contents(), h));
          done := done + [h];
          cursor := ParentOf(Contents(), h);
        }
        NothingLeft(items, processed, s.base);
      }
      r := Success(items);
    }
  
    method AsDictAt(hash: Hash) returns (r: Result<State>)
      ensures r == ForkedStore.AsDictAt(Contents(), hash)
    {
      hide Blend, Underlay, Apply, AgreesOff;
      if hash == ZeroHash() {
        return Failure(Unavailable);
      }
      ghost var s := Contents();
      var items := engine;
      if Some(hash) == finalizedBlockHash {
        return Success(items);
      }
      if hash !in changeSets {
        return Failure(Unavailable);
      }
      var cursor, visited: set<Hash>, processed: set<Bytes> := Some(hash), {}, {};
      ghost var done: seq<Hash> := [];
      assert forall path: seq<Hash> :: [] + path == path;
      NothingYet(items, if Branch(s, cursor, {}).Some? then View(s, Branch(s, cursor, {}).value) else items);
      while cursor != finalizedBlockHash
        invariant Prefixed(done, Branch(s, cursor, visited)) == Branch(s, Some(hash), {})
        invariant forall b :: b in done ==> b in s.parents
        invariant AgreesOff(items, processed, s.base)
        invariant Branch(s, cursor, visited).Some? ==>
                    Blend(items, processed, View(s, Branch(s, cursor, visited).value)) ==
                    View(s, Branch(s, Some(hash), {}).value)
        decreases changeSets.Keys - visited
      {
        if cursor.None? || cursor.value in visited || cursor.value !in changeSets {
          return Failure(Unavailable);
        }
        var h := cursor.value;
        ghost var rest := Branch(s, ParentOf(s, h), visited + {h});
        if rest.Some? {
          OneDown(s, h, items, processed, rest.value);
          assert done + ([h] + rest.value) == (done + [h]) + rest.value;
        }
        UnderlayAgrees(items, processed, ChangesOf(s, h), s.base);
        visited := visited + {h};
        items, processed := MergeInto(items, processed, changeSets[h]);
        done := done + [h];
        if h !in parents {
          return Failure(Unavailable);
        }
        cursor := parents[h];
      }
      NothingLeft(items, processed, s.base);
      assert done + [] == done;
      r := Success(items);
    }

    // -------------------------------------------------------------- selecting and writing

    method SetFinalizedBlockHash(hash: Hash)
      modifies this
      ensures Contents() == old(Contents()).(finalized := Some(hash))
    {
      finalizedBlockHash := Some(hash);
    }

    method SetBlockHash(hash: Hash, parent: Hash) returns (r: Result<()>)
      modifies this
      ensures match SetBlock(old(Contents()), hash, parent)
              case Failure(e) => r == Failure(e) && Contents() == old(Contents())
              case Success(t) => r == Success(()) && Contents() == t
    {
      if parent !in parents {
        if Some(parent) != finalizedBlockHash && parent != ZeroHash() {
          return Failure(InvalidParent);
        }
      }
      if transaction != map[] {
        return Failure(PendingTransaction);
      }
      blockHash := Some(hash);
      parents := parents[hash := Some(parent)];
      changeSets := changeSets[hash := map[]];
      r := Success(());
    }

    method SelectBlockHash(hash: Hash) returns (r: Result<()>)
      modifies this
      ensures match SelectBlock(old(Contents()), hash)
              case Failure(e) => r == Failure(e) && Contents() == old(Contents())
              case Success(t) => r == Success(()) && Contents() == t
    {
      if transaction != map[] {
        return Failure(PendingTransaction);
      }
      if Some(hash) != finalizedBlockHash && hash !in changeSets {
        return Failure(Unavailable);
      }
      blockHash := Some(hash);
      r := Success(());
    }

    method Put(key: Bytes, value: Bytes)
      modifies this
      ensures Contents() == ForkedStore.Put(old(Contents()), key, value)
    {
      if blockHash.Some? {
        transaction := transaction[key := Written(value)];
      } else {
        engine := engine[key := value];
      }
    }

    method Delete(key: Bytes)
      modifies this
      ensures Contents() == ForkedStore.Delete(old(Contents()), key)
    {
      if blockHash.Some? {
        transaction := transaction[key := Deleted];
      } else {
        engine := engine - {key};
      }
    }

    method Commit() returns (r: Result<()>)
      modifies this
      ensures match ForkedStore.Commit(old(Contents()))
              case Failure(e) => r == Failure(e) && Contents() == old(Contents())
              case Success(t) => r == Success(()) && Contents() == t
    {
      if blockHash.Some? {
        if blockHash.value == ZeroHash() {
          return Failure(TemporaryHash);
        }
        changeSets := changeSets[blockHash.value := transaction];
      }
      transaction := map[];
      r := Success(());
    }

    method DiscardCandidate(hash: Hash, restore: Option<Hash>) returns (r: Result<()>)
      modifies this
      ensures match Discard(old(Contents()), hash, restore)
              case Failure(e) => r == Failure(e) && Contents() == old(Contents())
              case Success(t) => r == Success(()) && Contents() == t
    {
      if Some(hash) == finalizedBlockHash {
        return Failure(CandidateIsFinalized);
      }
      if blockHash != Some(hash) {
        return Failure(CandidateNotSelected);
      }
      if restore.Some? && restore != finalizedBlockHash && restore.value !in changeSets {
        return Failure(Unavailable);
      }
      changeSets := changeSets - {hash};
      parents := parents - {hash};
      transaction := map[];
      blockHash := restore;
      r := Success(());
    }

    // -------------------------------------------------------------- finalizing

    method DescendsFrom(candidate: Hash, target: Hash) returns (r: bool)
      ensures r == Descends(Contents(), candidate, target, {})
    {
      var cursor, seen: set<Hash> := candidate, {};
      while cursor !in seen
        invariant Descends(Contents(), cursor, target, seen) == Descends(Contents(), candidate, target, {})
        decreases parents.Keys - seen, cursor !in seen
      {
        if cursor == target {
          return true;
        }
        seen := seen + {cursor};
        match ParentOf(Contents(), cursor) {
          case None => return false;
          case Some(p) => cursor := p;
        }
      }
      r := false;
    }

    method FinalizedPath(hash: Hash) returns (r: Option<seq<Hash>>)
      ensures r == Branch(Contents(), Some(hash), {})
    {
      var path: seq<Hash>, cursor, visited: set<Hash> := [], Some(hash), {};
      assert forall rest: seq<Hash> :: [] + rest == rest;
      while cursor != finalizedBlockHash
        invariant Prefixed(path, Branch(Contents(), cursor, visited)) == Branch(Contents(), Some(hash), {})
        decreases changeSets.Keys - visited
      {
        if cursor.None? || cursor.value in visited || cursor.value !in changeSets {
          return None;
        }
        ghost var rest := Branch(Contents(), ParentOf(Contents(), cursor.value), visited + {cursor.value});
        assert rest.Some? ==> path + ([cursor.value] + rest.value) == (path + [cursor.value]) + rest.value;
        visited := visited + {cursor.value};
        path := path + [cursor.value];
        cursor := ParentOf(Contents(), cursor.value);
      }
      assert path + [] == path;
      r := Some(path);
    }

    /** One batch for the whole path, oldest block first, applied when it is complete. */
    method WriteBatch(path: seq<Hash>) returns (base: State)
      ensures base == View(Contents(), path)
    {
      ghost var s := Contents();
      var batch: Changes := map[];
      var n: nat := |path|;
      assert Apply(s.base, map[]) == s.base && path[n..] == [];
      while n > 0
        invariant n <= |path|
        invariant Apply(s.base, batch) == View(s, path[n..])
      {
        n := n - 1;
        assert path[n..][1..] == path[n + 1..];
        ApplyMerged(s.base, batch, ChangesOf(s, path[n]));
        batch := batch + ChangesOf(Contents(), path[n]);
      }
      assert path[0..] == path;
      base := ApplyBatch(engine, batch);
    }

    method RetainedBlocks(hash: Hash, path: seq<Hash>) returns (retained: set<Hash>)
      ensures retained == Retained(Contents(), hash, path)
    {
      retained := {};
      var left := changeSets.Keys;
      while left != {}
        invariant left <= changeSets.Keys
        invariant retained == set c | c in changeSets && c !in left && c !in path && Descends(Contents(), c, hash, {})
        decreases left
      {
        var c :| c in left;
        var descends := DescendsFrom(c, hash);
        if c !in path && descends {
          retained := retained + {c};
        }
        left := left - {c};
      }
    }

    method Finalize(hash: Hash) returns (r: Result<()>)
      modifies this
      ensures match ForkedStore.Finalize(old(Contents()), hash)
              case Failure(e) => r == Failure(e) && Contents() == old(Contents())
              case Success(t) => r == Success(()) && Contents() == t
    {
      hide Branch, Retained, View;
      if transaction != map[] {
        return Failure(PendingTransaction);
      }
      if Some(hash) == finalizedBlockHash {
        return Success(());
      }
      var path := FinalizedPath(hash);
      if path.None? {
        return Failure(OutsideFinalizedBranch);
      }
      var base := WriteBatch(path.value);
      var retained := RetainedBlocks(hash, path.value);
      engine := base;
      changeSets := map c | c in retained && c in changeSets :: changeSets[c];
      parents := (map c | c in retained + {hash} && c in parents :: parents[c])[hash := None];
      finalizedBlockHash := Some(hash);
      if blockHash.None? || blockHash.value !in retained + {hash} {
        blockHash := Some(hash);
      }
      r := Success(());
    }
  }
}
