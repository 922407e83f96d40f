/**
 Battle chunk values, their public projection, and the trimmed change log that answers "what changed since
 revision r". The log is compared with the history it abbreviates: the map of values at every revision.
 */
module BattleLog {
  import opened Prelude
  import opened Records

  const MIN_I32 := -0x8000_0000
  const MAX_I32 := 0x7FFF_FFFF

  predicate IsI32(n: int) {
    MIN_I32 <= n <= MAX_I32
  }

  type Int32 = n: int | IsI32(n)

  datatype ChunkKey = ChunkKey(dimension: string, chunkX: Int32, chunkZ: Int32)

  /** A chunk as messages name it; either part may be missing. */
  datatype ChunkRef = ChunkRef(dimension: string, coord: Option<(Int32, Int32)>)

  /** Every dimension is trimmed and not empty. */
  ghost predicate TrimmedKeys(keys: set<ChunkKey>) {
    forall k :: k in keys ==> k.dimension != "" && Trim(k.dimension) == k.dimension
  }

  /** Fields kept in the cache and never sent with state. */
  const PRIVATE_FIELDS := ["observedAt", "positionSampledAt", "alignmentSource", "reporterId"]

  const COLOR_RAW := "colorRaw"
  const MODE := "mode"

  /** Optional public fields, in the order in which missing ones are reported. */
  const CLEARABLE_FIELDS :=
    ["symbol", "markerType", "colorNote", "roomCode", "colorMode", "colorSemanticKey", MODE]

  predicate IsChunkValue(v: Record) {
    && COLOR_RAW in v
    && forall f :: f in v ==> f == COLOR_RAW || f in CLEARABLE_FIELDS || f in PRIVATE_FIELDS
  }

  type ChunkValue = v: Record | IsChunkValue(v) witness map[COLOR_RAW := Text("")]

  type ChunkMap = map<ChunkKey, ChunkValue>

  /** What a client may see of a value. */
  function Project(v: Record, includeMode: bool): (r: Record) {
    map f | f in v && f !in PRIVATE_FIELDS && (f == MODE ==> includeMode) :: v[f]
  }

  /** A client sees the colour and the optional public fields, the mode only if it knows modes, and nothing else. */
  lemma ProjectionExact(v: ChunkValue, includeMode: bool, f: string)
    ensures Lookup(Project(v, includeMode), f)
            == if f == "colorRaw" || (f in CLEARABLE_FIELDS && (f == "mode" ==> includeMode)) then Lookup(v, f)
               else None
    ensures f == "observedAt" || f == "positionSampledAt" || f == "alignmentSource" || f == "reporterId" ==>
              f !in Project(v, includeMode)
  {
    PrivateIsNotPublic(f);
  }

  lemma PrivateIsNotPublic(f: string)
    ensures f in PRIVATE_FIELDS ==> f !in CLEARABLE_FIELDS && f != "colorRaw"
    ensures f == "observedAt" || f == "positionSampledAt" || f == "alignmentSource" || f == "reporterId" ==>
              f in PRIVATE_FIELDS
  {
  }

  function ProjectAll(m: ChunkMap, includeMode: bool): (r: Table<ChunkKey>) {
    map k | k in m :: Project(m[k], includeMode)
  }

  /** Names of the optional public fields a projected value lacks. */
  function MissingFields(v: Record, includeMode: bool): (r: seq<string>)
    ensures forall f :: f in r <==> f in CLEARABLE_FIELDS && f !in v && (f == MODE ==> includeMode)
  {
    MissingAmong(CLEARABLE_FIELDS, v, includeMode)
  }

  function MissingAmong(names: seq<string>, v: Record, includeMode: bool): (r: seq<string>)
    ensures forall f :: f in r <==> f in names && f !in v && (f == MODE ==> includeMode)
  {
    if names == [] then []
    else if names[0] !in v && (names[0] == MODE ==> includeMode) then
      [names[0]] + MissingAmong(names[1..], v, includeMode)
    else MissingAmong(names[1..], v, includeMode)
  }

  function ChunkUpsert(k: ChunkKey, v: ChunkValue, includeMode: bool, includeClears: bool): (u: Upsert<ChunkKey>) {
    var data := Project(v, includeMode);
    Upsert(k, data, if includeClears then MissingFields(data, includeMode) else [])
  }

  /** A whole upsert overrides whatever projection of the chunk the client held before. */
  lemma ChunkUpsertExact(k: ChunkKey, held: Option<ChunkValue>, v: ChunkValue, includeMode: bool)
    ensures var before := if held.Some? then Some(Project(held.value, includeMode)) else None;
            Merged(HonourClears, before, ChunkUpsert(k, v, includeMode, true)) == Project(v, includeMode)
  {
  }

  // ---------------------------------------------------------------- change log

  /** One recorded revision; the sorted key vector of the log is represented by the set of its keys. */
  datatype ChangeBatch = ChangeBatch(revision: nat, keys: set<ChunkKey>)

  const MAX_CHANGE_BATCHES := 256
  const MAX_CHANGE_OPERATIONS := 65_536

  /** The log holds the revisions just below and including the current one, without a gap. */
  ghost predicate Contiguous(changes: seq<ChangeBatch>, revision: nat) {
    && |changes| <= revision
    && forall i :: 0 <= i < |changes| ==> changes[i].revision == revision - |changes| + 1 + i
  }

  /** `a` and `b` may differ on `keys` only. */
  ghost predicate SameOutside(a: ChunkMap, b: ChunkMap, keys: set<ChunkKey>) {
    forall k :: k !in keys ==> Lookup(a, k) == Lookup(b, k)
  }

  ghost predicate LogExplains(history: seq<ChunkMap>, changes: seq<ChangeBatch>, revision: nat) {
    && |history| == revision + 1
    && Contiguous(changes, revision)
    && forall i :: 0 <= i < |changes| ==>
         SameOutside(history[changes[i].revision - 1], history[changes[i].revision], changes[i].keys)
  }

  /** The log still reaches back to `since`. */
  predicate Covers(changes: seq<ChangeBatch>, revision: nat, since: nat) {
    since <= revision && revision - since <= |changes|
  }

  /** Keys recorded after revision `since`. */
  function ChangedSince(changes: seq<ChangeBatch>, since: nat): (r: set<ChunkKey>)
    ensures forall k :: k in r <==>
              exists i :: 0 <= i < |changes| && changes[i].revision > since && k in changes[i].keys
  {
    set i, k | 0 <= i < |changes| && changes[i].revision > since && k in changes[i].keys :: k
  }

  /** Between any two revisions after `since`, the map changes on recorded keys only. */
  lemma {:induction false} UnrecordedKeysUnchanged(
    history: seq<ChunkMap>, changes: seq<ChangeBatch>, revision: nat, since: nat, at: nat, k: ChunkKey)
    requires LogExplains(history, changes, revision)
    requires Covers(changes, revision, since) && since <= at <= revision
    requires k !in ChangedSince(changes, since)
    ensures Lookup(history[at], k) == Lookup(history[revision], k)
    decreases revision - at
  {
    hide LogExplains, ChangedSince, IsChunkValue;
    if at < revision {
      UnrecordedKeysUnchanged(history, changes, revision, since, at + 1, k);
      UnrecordedStep(history, changes, revision, since, at, k);
    }
  }

  lemma UnrecordedStep(
    history: seq<ChunkMap>, changes: seq<ChangeBatch>, revision: nat, since: nat, at: nat, k: ChunkKey)
    requires LogExplains(history, changes, revision)
    requires Covers(changes, revision, since) && since <= at < revision
    requires k !in ChangedSince(changes, since)
    ensures Lookup(history[at], k) == Lookup(history[at + 1], k)
  {
    hide SameOutside, LogExplains, ChangedSince, IsChunkValue;
    var i := BatchAfter(history, changes, revision, at);
    NotInBatch(changes, since, i, k);
    SameOutsideAt(history[at], history[at + 1], changes[i].keys, k);
  }

  /** The batch that records the step from revision `at`. */
  lemma BatchAfter(history: seq<ChunkMap>, changes: seq<ChangeBatch>, revision: nat, at: nat) returns (i: nat)
    requires LogExplains(history, changes, revision) && Covers(changes, revision, at) && at < revision
    ensures |history| == revision + 1 && i < |changes| && changes[i].revision == at + 1
    ensures SameOutside(history[at], history[at + 1], changes[i].keys)
  {
    hide SameOutside, IsChunkValue;
    i := at + |changes| - revision;
  }

  lemma NotInBatch(changes: seq<ChangeBatch>, since: nat, i: nat, k: ChunkKey)
    requires i < |changes| && changes[i].revision > since && k !in ChangedSince(changes, since)
    ensures k !in changes[i].keys
  {
  }

  lemma SameOutsideAt(a: ChunkMap, b: ChunkMap, keys: set<ChunkKey>, k: ChunkKey)
    requires SameOutside(a, b, keys) && k !in keys
    ensures Lookup(a, k) == Lookup(b, k)
  {
  }

  // ---------------------------------------------------------------- patches since a revision

  /** The three answers to "patch since": nothing to send, a patch, or the log no longer reaches back. */
  datatype CatchUp = UpToDate | Changes(scope: Scope<ChunkKey>) | NeedsFull

  ghost predicate IsChunkPatch(
    entries: ChunkMap, keys: set<ChunkKey>, includeMode: bool, includeClears: bool, s: Scope<ChunkKey>)
  {
    && DistinctIds(s.upsert)
    && (forall k :: k in s.delete <==> k in keys && k !in entries)
    && (forall k :: HasId(s.upsert, k) <==> k in keys && k in entries)
    && (forall i :: 0 <= i < |s.upsert| ==>
          s.upsert[i].id in entries
          && s.upsert[i] == ChunkUpsert(s.upsert[i].id, entries[s.upsert[i].id], includeMode, includeClears))
  }

  ghost predicate IsCatchUp(
    entries: ChunkMap, changes: seq<ChangeBatch>, revision: nat, since: nat, includeMode: bool, includeClears: bool,
    r: CatchUp)
  {
    if since == revision then r == UpToDate
    else if !Covers(changes, revision, since) then r == NeedsFull
    else r.Changes? && IsChunkPatch(entries, ChangedSince(changes, since), includeMode, includeClears, r.scope)
  }

  /** The keys of all batches after `since`. */
  method CollectChanged(changes: seq<ChangeBatch>, since: nat) returns (keys: set<ChunkKey>)
    ensures keys == ChangedSince(changes, since)
  {
    keys := {};
    for i := 0 to |changes|
      invariant keys == ChangedSince(changes[..i], since)
    {
      assert changes[..i + 1] == changes[..i] + [changes[i]];
      ChangedSinceSnoc(changes[..i], changes[i], since);
      if changes[i].revision > since {
        keys := keys + changes[i].keys;
      }
    }
    assert changes[..|changes|] == changes;
  }

  lemma ChangedSinceSnoc(changes: seq<ChangeBatch>, b: ChangeBatch, since: nat)
    ensures ChangedSince(changes + [b], since)
            == ChangedSince(changes, since) + if b.revision > since then b.keys else {}
  {
    var all := changes + [b];
    forall k
      ensures k in ChangedSince(all, since)
              <==> k in ChangedSince(changes, since) || (b.revision > since && k in b.keys)
    {
      if i :| 0 <= i < |changes| && changes[i].revision > since && k in changes[i].keys {
        assert all[i] == changes[i];
      }
      if b.revision > since && k in b.keys {
        assert all[|changes|] == b;
      }
      if k in ChangedSince(all, since) {
        var i :| 0 <= i < |all| && all[i].revision > since && k in all[i].keys;
        assert i < |changes| ==> all[i] == changes[i];
      }
    }
  }

  /** Upserts for the changed keys that still have a value, deletes for the others. */
  method BuildChunkPatch(entries: ChunkMap, keys: set<ChunkKey>, includeMode: bool, includeClears: bool)
    returns (s: Scope<ChunkKey>)
    ensures IsChunkPatch(entries, keys, includeMode, includeClears, s)
  {
    hide IsChunkValue, IsChunkPatch, ChunkUpsert;
    var upsert: seq<Upsert<ChunkKey>> := [];
    EmptyChunkPatch(entries, includeMode, includeClears);
    var delete: seq<ChunkKey> := [];
    var pending := keys;
    while pending != {}
      invariant pending <= keys
      invariant IsChunkPatch(entries, keys - pending, includeMode, includeClears, Scope(upsert, delete))
    {
      var k :| k in pending;
      ChunkPatchGrows(entries, keys - pending, includeMode, includeClears, Scope(upsert, delete), k);
      assert keys - (pending - {k}) == (keys - pending) + {k};
      pending := pending - {k};
      if k in entries {
        upsert := upsert + [ChunkUpsert(k, entries[k], includeMode, includeClears)];
      } else {
        delete := delete + [k];
      }
    }
    assert keys - pending == keys;
    s := Scope(upsert, delete);
  }

  lemma EmptyChunkPatch(entries: ChunkMap, includeMode: bool, includeClears: bool)
    ensures forall keys: set<ChunkKey> ::
              IsChunkPatch(entries, keys - keys, includeMode, includeClears, Scope([], []))
  {
  }

  lemma ChunkPatchGrows(
    entries: ChunkMap, keys: set<ChunkKey>, includeMode: bool, includeClears: bool, s: Scope<ChunkKey>, k: ChunkKey)
    requires IsChunkPatch(entries, keys, includeMode, includeClears, s) && k !in keys
    ensures IsChunkPatch(
              entries, keys + {k}, includeMode, includeClears,
              if k in entries
              then Scope(s.upsert + [ChunkUpsert(k, entries[k], includeMode, includeClears)], s.delete)
              else Scope(s.upsert, s.delete + [k]))
  {
    hide IsChunkValue, Project, MissingFields;
    if k in entries {
      assert !HasId(s.upsert, k);
      HasIdSnoc(s.upsert, ChunkUpsert(k, entries[k], includeMode, includeClears));
    }
  }

  /** The client state a catch-up answer leads to; a full frame replaces the map. */
  function AfterCatchUp(held: Table<ChunkKey>, full: Table<ChunkKey>, r: CatchUp): (t: Table<ChunkKey>) {
    match r
    case UpToDate => held
    case Changes(scope) => ApplyScope(HonourClears, held, scope)
    case NeedsFull => full
  }

  /**
   A client standing at any revision from the delivered one to the current one is brought to the current projection,
   however far it has overtaken the revision the patch was computed from.
   */
  lemma CatchUpExact(
    history: seq<ChunkMap>, changes: seq<ChangeBatch>, revision: nat, since: nat, at: nat, includeMode: bool,
    r: CatchUp)
    requires LogExplains(history, changes, revision)
    requires since <= at <= revision
    requires IsCatchUp(history[revision], changes, revision, since, includeMode, true, r)
    ensures AfterCatchUp(ProjectAll(history[at], includeMode), ProjectAll(history[revision], includeMode), r)
            == ProjectAll(history[revision], includeMode)
  {
    hide ApplyScope, SameOutside, IsChunkPatch, Covers, IsChunkValue, ProjectAll;
    if r.Changes? {
      var held := ProjectAll(history[at], includeMode);
      forall k
        ensures Lookup(ApplyScope(HonourClears, held, r.scope), k)
                == Lookup(ProjectAll(history[revision], includeMode), k)
      {
        CatchUpExactAt(history, changes, revision, since, at, includeMode, r.scope, k);
      }
      SameLookups(ApplyScope(HonourClears, held, r.scope), ProjectAll(history[revision], includeMode));
    }
  }

  /** The answer brings a client at any revision from `since` on to the current projection. */
  ghost predicate CatchesUp(history: seq<ChunkMap>, revision: nat, since: nat, includeMode: bool, r: CatchUp)
    requires |history| == revision + 1
  {
    forall at :: since <= at <= revision ==>
      AfterCatchUp(ProjectAll(history[at], includeMode), ProjectAll(history[revision], includeMode), r)
      == ProjectAll(history[revision], includeMode)
  }

  lemma CatchUpFromAnyRevision(
    history: seq<ChunkMap>, changes: seq<ChangeBatch>, revision: nat, since: nat, includeMode: bool, r: CatchUp)
    requires LogExplains(history, changes, revision)
    requires IsCatchUp(history[revision], changes, revision, since, includeMode, true, r)
    ensures CatchesUp(history, revision, since, includeMode, r)
  {
    forall at | since <= at <= revision
      ensures AfterCatchUp(ProjectAll(history[at], includeMode), ProjectAll(history[revision], includeMode), r)
              == ProjectAll(history[revision], includeMode)
    {
      CatchUpExact(history, changes, revision, since, at, includeMode, r);
    }
  }

  lemma CatchUpExactAt(
    history: seq<ChunkMap>, changes: seq<ChangeBatch>, revision: nat, since: nat, at: nat, includeMode: bool,
    s: Scope<ChunkKey>, k: ChunkKey)
    requires LogExplains(history, changes, revision)
    requires Covers(changes, revision, since) && since <= at <= revision
    requires IsChunkPatch(history[revision], ChangedSince(changes, since), includeMode, true, s)
    ensures Lookup(ApplyScope(HonourClears, ProjectAll(history[at], includeMode), s), k)
            == Lookup(ProjectAll(history[revision], includeMode), k)
  {
    var held := ProjectAll(history[at], includeMode);
    ApplyScopeAt(HonourClears, held, s, k);
    if k !in ChangedSince(changes, since) {
      UnrecordedKeysUnchanged(history, changes, revision, since, at, k);
    } else if HasId(s.upsert, k) {
      var i :| 0 <= i < |s.upsert| && s.upsert[i].id == k;
      assert k !in s.delete;
      ChunkUpsertExact(k, Lookup(history[at], k), history[revision][k], includeMode);
    }
  }

  // ---------------------------------------------------------------- recording

  /** Trimming the front of the log keeps it an explanation of the same history. */
  lemma TrimKeepsExplanation(history: seq<ChunkMap>, changes: seq<ChangeBatch>, revision: nat)
    requires LogExplains(history, changes, revision) && changes != []
    ensures LogExplains(history, changes[1..], revision)
  {
    hide SameOutside;
    var rest := changes[1..];
    forall i | 0 <= i < |rest|
      ensures rest[i].revision == revision - |rest| + 1 + i
      ensures SameOutside(history[rest[i].revision - 1], history[rest[i].revision], rest[i].keys)
    {
      assert rest[i] == changes[i + 1];
    }
  }

  /** Appending the next revision's keys extends the explanation. */
  lemma RecordKeepsExplanation(
    history: seq<ChunkMap>, changes: seq<ChangeBatch>, revision: nat, next: ChunkMap, keys: set<ChunkKey>)
    requires LogExplains(history, changes, revision)
    requires SameOutside(history[revision], next, keys)
    ensures LogExplains(history + [next], changes + [ChangeBatch(revision + 1, keys)], revision + 1)
  {
  }
}
