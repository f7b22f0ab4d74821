/**
 The fork-aware state store as a value: a finalized base map, one set of changes
 for each block on top of it, and a parent map.  Storage.dfy proves the
 store's methods against these functions.
 */
module ForkedStore {
  import opened Octets
  import opened Options

  datatype Change = Deleted | Written(value: Bytes)
  type Changes = map<Bytes, Change>
  type State = map<Bytes, Bytes>

  datatype Error =
    | InvalidParent | PendingTransaction | Unavailable | Cycle | OutsideFinalizedBranch
    | TemporaryHash | CandidateIsFinalized | CandidateNotSelected

  datatype Result<+T> = Success(value: T) | Failure(error: Error)

  datatype Store = Store(
    base: State,
    finalized: Option<Hash>,
    selected: Option<Hash>,
    changes: map<Hash, Changes>,
    pending: Changes,
    parents: map<Hash, Option<Hash>>)

  // ---------------------------------------------------------------- changes

  function Apply(m: State, c: Changes): (r: State)
    ensures forall k :: k in r <==> if k in c then c[k].Written? else k in m
    ensures forall k :: k in r ==> r[k] == if k in c then c[k].value else m[k]
  {
    map k | k in m.Keys + c.Keys && (if k in c then c[k].Written? else k in m) :: if k in c then c[k].value else m[k]
  }

  function ChangesOf(s: Store, h: Hash): Changes {
    if h in s.changes then s.changes[h] else map[]
  }

  function ParentOf(s: Store, h: Hash): Option<Hash> {
    if h in s.parents then s.parents[h] else None
  }

  /** What one sees on top of `path`, newest block first. */
  function View(s: Store, path: seq<Hash>): State {
    if path == [] then s.base else Apply(View(s, path[1..]), ChangesOf(s, path[0]))
  }

  function Lookup(m: State, k: Bytes): Option<Bytes> {
    if k in m then Some(m[k]) else None
  }

  // ---------------------------------------------------------------- ancestry

  /** The whole ancestry of a block, newest first; none if it runs in a circle. */
  function Walk(s: Store, h: Hash, seen: set<Hash>): Option<seq<Hash>>
    decreases s.parents.Keys - seen
  {
    if h in seen then None
    else
      match ParentOf(s, h)
      case None => Some([h])
      case Some(p) =>
        match Walk(s, p, seen + {h})
        case None => None
        case Some(rest) => Some([h] + rest)
  }

  /** The retained blocks from `cursor` down to, but not including, the finalized block. */
  function Branch(s: Store, cursor: Option<Hash>, seen: set<Hash>): Option<seq<Hash>>
    decreases s.changes.Keys - seen
  {
    if cursor == s.finalized then Some([])
    else if cursor.None? || cursor.value in seen || cursor.value !in s.changes then None
    else
      match Branch(s, ParentOf(s, cursor.value), seen + {cursor.value})
      case None => None
      case Some(rest) => Some([cursor.value] + rest)
  }

  predicate HasStateAt(s: Store, h: Hash) {
    Some(h) == s.finalized || h in s.changes
  }

  // ---------------------------------------------------------------- reading

  /** The walk of `get`: the newest change to `key`, else the base. */
  function Find(s: Store, h: Option<Hash>, seen: set<Hash>, key: Bytes): Result<Option<Bytes>>
    decreases s.parents.Keys - seen, if h.None? then 0 else 1
  {
    match h
    case None => Success(Lookup(s.base, key))
    case Some(b) =>
      if b in seen then Failure(Cycle)
      else if key in ChangesOf(s, b) then Success(Outcome(ChangesOf(s, b)[key]))
      else if ParentOf(s, b).None? then Success(Lookup(s.base, key))
      else Find(s, ParentOf(s, b), seen + {b}, key)
  }

  function Outcome(c: Change): Option<Bytes> {
    match c
    case Deleted => None
    case Written(v) => Some(v)
  }

  function Get(s: Store, key: Bytes): Result<Option<Bytes>> {
    if s.selected.Some? && key in s.pending then Success(Outcome(s.pending[key]))
    else Find(s, s.selected, {}, key)
  }

  function AsDict(s: Store): Result<State> {
    if s.pending != map[] then Failure(PendingTransaction)
    else
      match s.selected
      case None => Success(s.base)
      case Some(h) =>
        match Walk(s, h, {})
        case None => Failure(Cycle)
        case Some(path) => Success(View(s, path))
  }

  function AsDictAt(s: Store, h: Hash): Result<State> {
    if h == ZeroHash() then Failure(Unavailable)
    else
      match Branch(s, Some(h), {})
      case None => Failure(Unavailable)
      case Some(path) =>
        if forall b :: b in path ==> b in s.parents then Success(View(s, path)) else Failure(Unavailable)
  }

  // ---------------------------------------------------------------- writing

  function SetBlock(s: Store, h: Hash, parent: Hash): Result<Store> {
    if parent !in s.parents && Some(parent) != s.finalized && parent != ZeroHash() then Failure(InvalidParent)
    else if s.pending != map[] then Failure(PendingTransaction)
    else Success(s.(selected := Some(h), parents := s.parents[h := Some(parent)], changes := s.changes[h := map[]]))
  }

  function SelectBlock(s: Store, h: Hash): Result<Store> {
    if s.pending != map[] then Failure(PendingTransaction)
    else if !HasStateAt(s, h) then Failure(Unavailable)
    else Success(s.(selected := Some(h)))
  }

  function Put(s: Store, key: Bytes, value: Bytes): Store {
    if s.selected.Some? then s.(pending := s.pending[key := Written(value)])
    else s.(base := s.base[key := value])
  }

  function Delete(s: Store, key: Bytes): Store {
    if s.selected.Some? then s.(pending := s.pending[key := Deleted])
    else s.(base := s.base - {key})
  }

  function Commit(s: Store): Result<Store> {
    match s.selected
    case None => Success(s.(pending := map[]))
    case Some(h) =>
      if h == ZeroHash() then Failure(TemporaryHash)
      else Success(s.(changes := s.changes[h := s.pending], pending := map[]))
  }

  function Discard(s: Store, h: Hash, restore: Option<Hash>): Result<Store> {
    if Some(h) == s.finalized then Failure(CandidateIsFinalized)
    else if s.selected != Some(h) then Failure(CandidateNotSelected)
    else if restore.Some? && !HasStateAt(s, restore.value) then Failure(Unavailable)
    else Success(s.(changes := s.changes - {h}, parents := s.parents - {h}, pending := map[], selected := restore))
  }

  /** Whether the parent walk from `h` meets `target`. */
  function Descends(s: Store, h: Hash, target: Hash, seen: set<Hash>): bool
    decreases s.parents.Keys - seen
  {
    if h in seen then false
    else if h == target then true
    else
      match ParentOf(s, h)
      case None => false
      case Some(p) => Descends(s, p, target, seen + {h})
  }

  function Retained(s: Store, h: Hash, path: seq<Hash>): set<Hash> {
    set c | c in s.changes && c !in path && Descends(s, c, h, {})
  }

  function Finalize(s: Store, h: Hash): Result<Store> {
    if s.pending != map[] then Failure(PendingTransaction)
    else if Some(h) == s.finalized then Success(s)
    else
      match Branch(s, Some(h), {})
      case None => Failure(OutsideFinalizedBranch)
      case Some(path) =>
        var kept := Retained(s, h, path);
        Success(Store(
          View(s, path),
          Some(h),
          if s.selected.Some? && s.selected.value in kept + {h} then s.selected else Some(h),
          map c | c in kept && c in s.changes :: s.changes[c],
          map[],
          (map c | c in kept + {h} && c in s.parents :: s.parents[c])[h := None]))
  }
}
