/**
 What a battle report writes into the cache: which of its wire entries count, under which key, and with which value.
 Of several entries for one chunk the last counts.
 */
module BattleReport {
  import opened Prelude
  import opened BattleLog
  import opened BattleIndex

  datatype ChunkEntry = ChunkEntry(reference: Option<ChunkRef>, data: Option<ChunkValue>)

  /** Entries without a reference, a named dimension, a coordinate or a value are skipped. */
  function Accepted(e: ChunkEntry): (r: Option<Write>) {
    if e.reference.None? || Trim(e.reference.value.dimension) == [] || e.reference.value.coord.None?
       || e.data.None? then
      None
    else
      var (x, z) := e.reference.value.coord.value;
      Some(Write(ChunkKey(Trim(e.reference.value.dimension), x, z), e.data.value))
  }

  lemma AcceptedIsTrimmed(e: ChunkEntry)
    ensures Accepted(e).Some? ==> TrimmedKeys({Accepted(e).value.key})
  {
    hide Trim, IsChunkValue;
    if Accepted(e).Some? {
      TrimIdempotent(e.reference.value.dimension);
    }
  }

  function AcceptedWrites(entries: seq<ChunkEntry>): (r: seq<Write>)
    decreases |entries|
  {
    if entries == [] then []
    else
      var n := |entries| - 1;
      AcceptedWrites(entries[..n]) + (var w := Accepted(entries[n]); if w.Some? then [w.value] else [])
  }

  /** No accepted write has an untrimmed dimension. */
  lemma {:induction false} AcceptedWritesTrimmed(entries: seq<ChunkEntry>)
    ensures TrimmedWrites(AcceptedWrites(entries))
    decreases |entries|
  {
    hide TrimmedKeys, Accepted;
    if entries != [] {
      AcceptedWritesTrimmed(entries[..|entries| - 1]);
      AcceptedIsTrimmed(entries[|entries| - 1]);
    }
  }

  lemma UpsertKeepsTrimmed(s: Store, generation: nat, incoming: seq<ChunkEntry>, receivedAt: nat, maxEntries: nat)
    ensures TrimmedKeys(s.cache.Keys) ==>
              TrimmedKeys(Step(s, generation, Op.Upsert(AcceptedWrites(incoming), receivedAt, maxEntries)).cache.Keys)
  {
    hide TrimmedKeys, TrimmedWrites, AcceptedWrites, Step;
    if TrimmedKeys(s.cache.Keys) {
      AcceptedWritesTrimmed(incoming);
      StepKeepsTrimmed(s, generation, Op.Upsert(AcceptedWrites(incoming), receivedAt, maxEntries));
    }
  }

  lemma AcceptedSnoc(entries: seq<ChunkEntry>, i: nat)
    requires i < |entries|
    ensures AcceptedWrites(entries[..i + 1])
            == if Accepted(entries[i]).Some? then AcceptedWrites(entries[..i]) + [Accepted(entries[i]).value]
               else AcceptedWrites(entries[..i])
  {
    assert entries[..i + 1][..i] == entries[..i];
  }

  // ---------------------------------------------------------------- what a report tells

  /** The entry is complete and about this chunk. */
  ghost predicate Tells(e: ChunkEntry, k: ChunkKey) {
    && e.reference.Some? && e.data.Some?
    && e.reference.value.coord == Some((k.chunkX, k.chunkZ))
    && Trim(e.reference.value.dimension) == k.dimension != ""
  }

  /** `v` is what the last entry about the chunk says, or what was there before if there is none. */
  ghost predicate IsTold(before: ChunkMap, incoming: seq<ChunkEntry>, k: ChunkKey, v: Option<ChunkValue>) {
    && ((forall i :: 0 <= i < |incoming| ==> !Tells(incoming[i], k)) ==> v == Lookup(before, k))
    && forall i :: 0 <= i < |incoming| && Tells(incoming[i], k)
                   && (forall j :: i < j < |incoming| ==> !Tells(incoming[j], k))
                   ==> v == incoming[i].data
  }

  lemma AcceptedExact(e: ChunkEntry, k: ChunkKey)
    ensures Tells(e, k) <==> Accepted(e).Some? && Accepted(e).value.key == k
    ensures Tells(e, k) ==> Some(Accepted(e).value.value) == e.data
  {
    hide Trim, IsChunkValue;
    if e.reference.Some? && e.reference.value.coord.Some? {
      var c := e.reference.value.coord.value;
      assert c == (c.0, c.1);
    }
  }

  /** Writing the accepted entries leaves every chunk with what the report tells of it. */
  lemma {:induction false} WritesTell(c: Cache, incoming: seq<ChunkEntry>, generation: nat, k: ChunkKey)
    ensures IsTold(Values(c), incoming, k, Lookup(Values(WriteAll(c, AcceptedWrites(incoming), generation)), k))
    decreases |incoming|
  {
    hide Tells, Accepted, IsChunkValue;
    if incoming != [] {
      var n := |incoming| - 1;
      var front, last := incoming[..n], incoming[n];
      WritesTell(c, front, generation, k);
      AcceptedExact(last, k);
      if Accepted(last).Some? {
        WriteAllSnoc(c, AcceptedWrites(front), Accepted(last).value, generation);
      } else {
        assert AcceptedWrites(front) + [] == AcceptedWrites(front);
      }
      ToldSnoc(Values(c), incoming, k, Lookup(Values(WriteAll(c, AcceptedWrites(front), generation)), k));
    }
  }

  lemma ToldSnoc(before: ChunkMap, incoming: seq<ChunkEntry>, k: ChunkKey, v: Option<ChunkValue>)
    requires incoming != [] && IsTold(before, incoming[..|incoming| - 1], k, v)
    ensures IsTold(before, incoming, k, if Tells(incoming[|incoming| - 1], k) then incoming[|incoming| - 1].data else v)
  {
    hide Tells, IsChunkValue;
    var n := |incoming| - 1;
    var front := incoming[..n];
    assert forall i :: 0 <= i < n ==> front[i] == incoming[i];
    forall i | 0 <= i < n && Tells(incoming[i], k) && forall j :: i < j < |incoming| ==> !Tells(incoming[j], k)
      ensures v == incoming[i].data
    {
      assert front[i] == incoming[i];
    }
  }

  ghost predicate IsToldOf(incoming: seq<ChunkEntry>, k: ChunkKey) {
    exists i :: 0 <= i < |incoming| && Tells(incoming[i], k)
  }

  /** There is room for the chunks of before and those that the report tells of, all of them among `all`. */
  ghost predicate HasRoom(before: ChunkMap, incoming: seq<ChunkEntry>, maxEntries: nat, all: set<ChunkKey>) {
    before.Keys <= all && |all| <= maxEntries && forall k :: IsToldOf(incoming, k) ==> k in all
  }

  /** Whatever is cached after a report is what it tells; if there is room, everything it tells is cached. */
  ghost predicate IsStored(before: ChunkMap, incoming: seq<ChunkEntry>, maxEntries: nat, after: ChunkMap) {
    && (forall k :: k in after ==> IsTold(before, incoming, k, Some(after[k])))
    && forall all :: HasRoom(before, incoming, maxEntries, all) ==>
                       forall k :: IsTold(before, incoming, k, Lookup(after, k))
  }

  lemma {:induction false} EvictedIsPart(s: Store, maxEntries: nat)
    ensures PartOf(EvictTo(s, maxEntries).cache, s.cache)
    decreases |s.queue|
  {
    if |s.cache| > maxEntries && s.queue != [] {
      EvictedIsPart(Store(Discard(s.cache, s.queue[0]), s.queue[1..]), maxEntries);
    }
  }

  lemma ReportIsStored(s: Store, incoming: seq<ChunkEntry>, generation: nat, receivedAt: nat, maxEntries: nat)
    ensures IsStored(Values(s.cache), incoming, maxEntries,
                     Values(EvictTo(Written(s, AcceptedWrites(incoming), generation, receivedAt), maxEntries).cache))
  {
    hide IsTold, IsToldOf, AcceptedWrites, WriteAll, WriteTickets, IsChunkValue;
    var written := Written(s, AcceptedWrites(incoming), generation, receivedAt);
    var before, full := Values(s.cache), Values(written.cache);
    EvictedIsPart(written, maxEntries);
    forall k
      ensures IsTold(before, incoming, k, Lookup(full, k))
    {
      WritesTell(s.cache, incoming, generation, k);
    }
    var kept := EvictTo(written, maxEntries).cache;
    forall k | k in kept
      ensures IsTold(before, incoming, k, Some(Values(kept)[k]))
    {
      assert Lookup(full, k) == Some(Values(kept)[k]);
    }
    forall all | HasRoom(before, incoming, maxEntries, all)
      ensures kept == written.cache
    {
      forall k | k in written.cache
        ensures k in all
      {
        ToldFrom(before, incoming, k, Lookup(full, k));
      }
      Smaller(written.cache.Keys, all);
    }
  }

  /** What is told comes from before or from an entry. */
  lemma ToldFrom(before: ChunkMap, incoming: seq<ChunkEntry>, k: ChunkKey, v: Option<ChunkValue>)
    requires IsTold(before, incoming, k, v) && v.Some?
    ensures k in before || IsToldOf(incoming, k)
  {
  }

  lemma Smaller<T>(a: set<T>, b: set<T>)
    requires a <= b
    ensures |a| <= |b|
  {
    assert b == a + (b - a);
  }

  /** The wire entries of a table, each once, stored in an empty cache with room, give exactly that table. */
  lemma TableRoundTrip(t: ChunkMap, incoming: seq<ChunkEntry>, maxEntries: nat, after: ChunkMap)
    requires TrimmedKeys(t.Keys) && |t| <= maxEntries && IsStored(map[], incoming, maxEntries, after)
    requires forall e :: e in incoming <==> exists k :: k in t && e == EntryFor(k, t[k])
    ensures after == t
  {
    hide Trim, IsChunkValue, IsStored;
    forall e, k | e in incoming && Tells(e, k)
      ensures k in t && e.data == Some(t[k])
    {
      var j :| j in t && e == EntryFor(j, t[j]);
    }
    forall k | k in t
      ensures Tells(EntryFor(k, t[k]), k) && EntryFor(k, t[k]) in incoming
    {
    }
    assert HasRoom(map[], incoming, maxEntries, t.Keys);
    ToldEverywhere(map[], incoming, maxEntries, after, t.Keys);
    forall k
      ensures Lookup(after, k) == Lookup(t, k)
    {
      assert IsTold(map[], incoming, k, Lookup(after, k));
      if k in t {
        var i := LastTelling(incoming, k);
        assert incoming[i] in incoming;
      } else {
        assert forall i :: 0 <= i < |incoming| ==> incoming[i] in incoming && !Tells(incoming[i], k);
      }
    }
    SameLookups(after, t);
  }

  function EntryFor(k: ChunkKey, v: ChunkValue): (e: ChunkEntry) {
    ChunkEntry(Some(ChunkRef(k.dimension, Some((k.chunkX, k.chunkZ)))), Some(v))
  }

  lemma ToldEverywhere(
    before: ChunkMap, incoming: seq<ChunkEntry>, maxEntries: nat, after: ChunkMap, all: set<ChunkKey>)
    requires IsStored(before, incoming, maxEntries, after) && HasRoom(before, incoming, maxEntries, all)
    ensures forall k :: IsTold(before, incoming, k, Lookup(after, k))
  {
  }

  lemma {:induction false} LastTelling(incoming: seq<ChunkEntry>, k: ChunkKey) returns (i: nat)
    requires exists e :: e in incoming && Tells(e, k)
    ensures i < |incoming| && Tells(incoming[i], k) && forall j :: i < j < |incoming| ==> !Tells(incoming[j], k)
  {
    hide Tells;
    i := |incoming| - 1;
    if !Tells(incoming[i], k) {
      var n := i;
      i := LastTelling(incoming[..n], k);
    }
  }
}
