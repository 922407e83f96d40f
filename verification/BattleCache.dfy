/**
 The per-room battle chunk cache: a bounded map with generation-tagged lazy expiry and a trimmed change log.

 `history` is a ghost record of the value map at every revision and `stamps` of the last write of every chunk; no
 real field depends on them.
 */
module BattleCache {
  import opened Prelude
  import opened Records
  import opened BattleLog
  import opened BattleIndex
  import opened BattleReport

  datatype ExpiryBatch = ExpiryBatch(receivedAt: nat, generation: nat, keys: seq<ChunkKey>)

  function BatchTickets(b: ExpiryBatch): (r: seq<Ticket>) {
    seq(|b.keys|, i requires 0 <= i < |b.keys| => Ticket(b.keys[i], b.generation, b.receivedAt))
  }

  function Tickets(expiry: seq<ExpiryBatch>): (r: seq<Ticket>)
    decreases |expiry|
  {
    if expiry == [] then [] else BatchTickets(expiry[0]) + Tickets(expiry[1..])
  }

  lemma {:induction false} TicketsSnoc(expiry: seq<ExpiryBatch>, b: ExpiryBatch)
    ensures Tickets(expiry + [b]) == Tickets(expiry) + BatchTickets(b)
    decreases |expiry|
  {
    if expiry == [] {
      assert (expiry + [b])[1..] == [];
    } else {
      assert (expiry + [b])[1..] == expiry[1..] + [b];
      TicketsSnoc(expiry[1..], b);
    }
  }

  function DiscardAll(c: Cache, q: seq<Ticket>): (r: Cache)
    decreases |q|
  {
    if q == [] then c else Discard(DiscardAll(c, q[..|q| - 1]), q[|q| - 1])
  }

  /** Expiring a batch at once equals expiring its tickets one by one. */
  lemma {:induction false} ExpireBatch(c: Cache, p: seq<Ticket>, q: seq<Ticket>, now: nat, retention: nat)
    requires forall t :: t in p ==> Elapsed(now, t.receivedAt) > retention
    ensures Expire(Store(c, p + q), now, retention) == Expire(Store(DiscardAll(c, p), q), now, retention)
    decreases |p|
  {
    if p == [] {
      assert p + q == q;
    } else {
      var n := |p| - 1;
      assert p + q == p[..n] + ([p[n]] + q);
      ExpireBatch(c, p[..n], [p[n]] + q, now, retention);
      assert p[n] in p;
      assert ([p[n]] + q)[1..] == q;
    }
  }

  lemma {:induction false} DiscardAllKeepsSound(c: Cache, p: seq<Ticket>, q: seq<Ticket>, stamps: map<ChunkKey, nat>)
    requires Sound(Store(c, p + q), stamps)
    ensures Sound(Store(DiscardAll(c, p), q), stamps)
    decreases |p|
  {
    if p == [] {
      assert p + q == q;
    } else {
      var n := |p| - 1;
      assert p + q == p[..n] + ([p[n]] + q);
      DiscardAllKeepsSound(c, p[..n], [p[n]] + q, stamps);
      DiscardKeepsSound(Store(DiscardAll(c, p[..n]), [p[n]] + q), stamps);
      assert ([p[n]] + q)[1..] == q;
    }
  }

  function Operations(changes: seq<ChangeBatch>): (r: nat)
    decreases |changes|
  {
    if changes == [] then 0 else |changes[0].keys| + Operations(changes[1..])
  }

  lemma {:induction false} OperationsSnoc(changes: seq<ChangeBatch>, b: ChangeBatch)
    ensures Operations(changes + [b]) == Operations(changes) + |b.keys|
    decreases |changes|
  {
    if changes == [] {
      assert (changes + [b])[1..] == [];
    } else {
      assert (changes + [b])[1..] == changes[1..] + [b];
      OperationsSnoc(changes[1..], b);
    }
  }

  predicate WithinLogLimits(changes: seq<ChangeBatch>) {
    |changes| <= MAX_CHANGE_BATCHES && Operations(changes) <= MAX_CHANGE_OPERATIONS
  }

  /** Every recorded key counts as one operation. */
  lemma {:induction false} OperationsExact(a: seq<ChangeBatch>, b: seq<ChangeBatch>)
    ensures Operations(a + b) == Operations(a) + Operations(b)
    ensures Operations([]) == 0 && forall c :: Operations([c]) == |c.keys|
    decreases |a|
  {
    forall c: ChangeBatch
      ensures Operations([c]) == |c.keys|
    {
      assert [c][1..] == [];
    }
    if a == [] {
      assert a + b == b;
    } else {
      assert (a + b)[1..] == a[1..] + b;
      OperationsExact(a[1..], b);
    }
  }

  function Last(changes: seq<ChangeBatch>, n: nat): (r: seq<ChangeBatch>)
    requires n <= |changes|
  {
    changes[|changes| - n..]
  }

  /** The longest suffix of the log within its limits. */
  function Trimmed(changes: seq<ChangeBatch>): (r: seq<ChangeBatch>)
    ensures WithinLogLimits(r)
    ensures |r| <= |changes| && r == Last(changes, |r|)
    ensures forall n :: |r| < n <= |changes| ==> !WithinLogLimits(Last(changes, n))
    decreases |changes|
  {
    if WithinLogLimits(changes) then changes
    else
      assert changes != [];
      assert Last(changes, |changes|) == changes;
      assert forall n {:trigger Last(changes, n)} :: 0 <= n < |changes| ==> Last(changes, n) == Last(changes[1..], n);
      Trimmed(changes[1..])
  }

  /** At most 256 batches with 65536 keys in all are kept, and none is dropped that could be. */
  lemma TrimmedExact(log: seq<ChangeBatch>)
    ensures |Trimmed(log)| <= 256 && Operations(Trimmed(log)) <= 65_536
    ensures |Trimmed(log)| <= |log| && Trimmed(log) == Last(log, |Trimmed(log)|)
    ensures forall n :: |Trimmed(log)| < n <= |log| ==> n > 256 || Operations(Last(log, n)) > 65_536
  {
    hide Operations, Trimmed, Last;
    forall n | |Trimmed(log)| < n <= |log|
      ensures n > 256 || Operations(Last(log, n)) > 65_536
    {
      LastHasSize(log, n);
    }
  }

  lemma LastHasSize(changes: seq<ChangeBatch>, n: nat)
    requires n <= |changes|
    ensures |Last(changes, n)| == n
  {
  }

  /** No batch in the expiry queue is empty. */
  ghost predicate NonEmptyBatches(expiry: seq<ExpiryBatch>) {
    forall i :: 0 <= i < |expiry| ==> expiry[i].keys != []
  }

  /** The batch with only its live keys. */
  function RetainLive(c: Cache, b: ExpiryBatch): (r: ExpiryBatch)
    ensures r.generation == b.generation && r.receivedAt == b.receivedAt
    ensures BatchTickets(r) == LiveTickets(c, BatchTickets(b))
    decreases |b.keys|
  {
    if b.keys == [] then b
    else
      var tail := b.(keys := b.keys[1..]);
      assert BatchTickets(b) == [BatchTickets(b)[0]] + BatchTickets(tail);
      var rest := RetainLive(c, tail);
      if b.keys[0] in c && c[b.keys[0]].generation == b.generation then
        var r := b.(keys := [b.keys[0]] + rest.keys);
        assert BatchTickets(r) == [BatchTickets(b)[0]] + BatchTickets(rest);
        r
      else rest
  }

  /** The keys of `c` that `c'` has lost. */
  function Gone(c': Cache, c: Cache): (r: set<ChunkKey>) {
    c.Keys - c'.Keys
  }

  function IndexOf(entries: Cache, expiry: seq<ExpiryBatch>): (r: Store) {
    Store(entries, Tickets(expiry))
  }

  // ---------------------------------------------------------------- the loops of the cache

  /** The write loop of `upsert`: which keys were written, and which of them with a different value. */
  method WriteEntries(cache: Cache, incoming: seq<ChunkEntry>, generation: nat)
    returns (entries: Cache, keys: seq<ChunkKey>, changed: set<ChunkKey>)
    ensures entries == WriteAll(cache, AcceptedWrites(incoming), generation)
    ensures IsKeysOf(keys, AcceptedWrites(incoming))
    ensures SameOutside(Values(cache), Values(entries), changed)
    ensures AllKnown(Values(cache), AcceptedWrites(incoming)) ==> changed == {}
  {
    hide IsChunkValue, AllKnown, SameOutside, Values, Accepted, AcceptedWrites, WriteAll, IsKeysOf;
    entries, keys, changed := cache, [], {};
    SameOutsideSelf(Values(cache));
    NoWrites(cache, generation);
    for i := 0 to |incoming|
      invariant entries == WriteAll(cache, AcceptedWrites(incoming[..i]), generation)
      invariant IsKeysOf(keys, AcceptedWrites(incoming[..i]))
      invariant SameOutside(Values(cache), Values(entries), changed)
      invariant AllKnown(Values(cache), AcceptedWrites(incoming[..i])) ==> changed == {}
    {
      AcceptedSnoc(incoming, i);
      var accepted := Accepted(incoming[i]);
      if accepted.Some? {
        var w := accepted.value;
        ghost var writes := AcceptedWrites(incoming[..i]);
        IsKeysOfSnoc(keys, writes, w);
        WriteAllSnoc(cache, writes, w, generation);
        AllKnownSnoc(Values(cache), writes, w);
        WriteOne(Values(cache), entries, changed, w, generation);
        if w.key !in entries || entries[w.key].value != w.value {
          changed := changed + {w.key};
        }
        entries := entries[w.key := CachedChunk(w.value, generation)];
        keys := keys + [w.key];
      }
    }
    assert incoming[..|incoming|] == incoming;
  }

  lemma FrontBatch(queue: seq<ExpiryBatch>)
    requires NonEmptyBatches(queue) && queue != []
    ensures queue[0].keys != []
  {
  }

  lemma FrontTicket(queue: seq<ExpiryBatch>)
    requires NonEmptyBatches(queue) && queue != []
    ensures var b := queue[0];
            var shorter := b.(keys := b.keys[1..]);
            var rest := if shorter.keys == [] then queue[1..] else [shorter] + queue[1..];
            && Tickets(queue) == [Ticket(b.keys[0], b.generation, b.receivedAt)] + Tickets(rest)
            && NonEmptyBatches(rest)
  {
  }

  /** Takes the front ticket off the queue and, if it is live, its chunk out of the cache. */
  method PopOldestKey(cache: Cache, queue: seq<ExpiryBatch>, changed: set<ChunkKey>)
    returns (entries: Cache, expiry: seq<ExpiryBatch>, changed': set<ChunkKey>)
    requires NonEmptyBatches(queue) && queue != []
    ensures NonEmptyBatches(expiry)
    ensures Tickets(queue) != []
    ensures IndexOf(entries, expiry) == Store(Discard(cache, Tickets(queue)[0]), Tickets(queue)[1..])
    ensures PartOf(entries, cache) && changed' == changed + Gone(entries, cache)
  {
    hide IsChunkValue, NonEmptyBatches, Tickets;
    entries, changed' := cache, changed;
    assert queue[0].keys != [] by {
      FrontBatch(queue);
    }
    var batch := queue[0];
    var key := batch.keys[0];
    var shorter := batch.(keys := batch.keys[1..]);
    FrontTicket(queue);
    expiry := if shorter.keys == [] then queue[1..] else [shorter] + queue[1..];
    if key in entries && entries[key].generation == batch.generation {
      entries := entries - {key};
      changed' := changed' + {key};
    }
  }

  /** The loop of `evict_to_limit`. */
  method EvictToLimit(cache: Cache, queue: seq<ExpiryBatch>, maxEntries: nat, changed: set<ChunkKey>)
    returns (entries: Cache, expiry: seq<ExpiryBatch>, changed': set<ChunkKey>)
    requires NonEmptyBatches(queue)
    ensures NonEmptyBatches(expiry)
    ensures IndexOf(entries, expiry) == EvictTo(IndexOf(cache, queue), maxEntries)
    ensures PartOf(entries, cache) && changed' == changed + Gone(entries, cache)
  {
    hide IsChunkValue, NonEmptyBatches;
    entries, expiry, changed' := cache, queue, changed;
    while |entries| > maxEntries && expiry != []
      invariant NonEmptyBatches(expiry)
      invariant EvictTo(IndexOf(entries, expiry), maxEntries) == EvictTo(IndexOf(cache, queue), maxEntries)
      invariant PartOf(entries, cache) && changed' == changed + Gone(entries, cache)
      decreases |Tickets(expiry)|
    {
      entries, expiry, changed' := PopOldestKey(entries, expiry, changed');
    }
  }

  /** Writes a report under a fresh generation, queues its keys as one batch, and enforces the size limit. */
  method WriteAndEvict(
    cache: Cache, queue: seq<ExpiryBatch>, incoming: seq<ChunkEntry>, generation: nat, receivedAt: nat, maxEntries: nat)
    returns (entries: Cache, expiry: seq<ExpiryBatch>, changed: set<ChunkKey>)
    requires NonEmptyBatches(queue)
    ensures NonEmptyBatches(expiry)
    ensures IndexOf(entries, expiry)
            == EvictTo(Written(IndexOf(cache, queue), AcceptedWrites(incoming), generation, receivedAt), maxEntries)
    ensures SameOutside(Values(cache), Values(entries), changed)
    ensures AllKnown(Values(cache), AcceptedWrites(incoming)) && |cache| <= maxEntries ==> changed == {}
  {
    hide IsChunkValue, NonEmptyBatches, Values, SameOutside, AllKnown, PartOf, Gone, EvictTo, Tickets, WriteAll,
         WriteTickets,
         AcceptedWrites, IsKeysOf;
    ghost var writes := AcceptedWrites(incoming);
    var written, keys, rewritten := WriteEntries(cache, incoming, generation);
    QuietUpsert(IndexOf(cache, queue), writes, generation, receivedAt, maxEntries);
    QueueBatch(queue, keys, writes, generation, receivedAt);
    expiry := if keys != [] then queue + [ExpiryBatch(receivedAt, generation, keys)] else queue;
    assert IndexOf(written, expiry) == Written(IndexOf(cache, queue), writes, generation, receivedAt);
    entries, expiry, changed := EvictToLimit(written, expiry, maxEntries, rewritten);
    ChangesCovered(cache, written, entries, rewritten);
  }

  /** Discards the chunks of one batch that still carry its generation. */
  method PopExpiryBatch(cache: Cache, batch: ExpiryBatch, changed: set<ChunkKey>)
    returns (entries: Cache, changed': set<ChunkKey>)
    ensures entries == DiscardAll(cache, BatchTickets(batch))
    ensures PartOf(entries, cache) && changed' == changed + Gone(entries, cache)
  {
    entries, changed' := cache, changed;
    for i := 0 to |batch.keys|
      invariant entries == DiscardAll(cache, BatchTickets(batch)[..i])
      invariant PartOf(entries, cache) && changed' == changed + Gone(entries, cache)
    {
      var key := batch.keys[i];
      assert BatchTickets(batch)[..i + 1][..i] == BatchTickets(batch)[..i];
      if key in entries && entries[key].generation == batch.generation {
        entries := entries - {key};
        changed' := changed' + {key};
      }
    }
    assert BatchTickets(batch)[..|batch.keys|] == BatchTickets(batch);
  }

  /** The expiry loop of `cleanup`, batch by batch. */
  method ExpireBatches(cache: Cache, queue: seq<ExpiryBatch>, now: nat, retention: nat)
    returns (entries: Cache, expiry: seq<ExpiryBatch>, changed: set<ChunkKey>)
    requires NonEmptyBatches(queue)
    ensures NonEmptyBatches(expiry)
    ensures IndexOf(entries, expiry) == Expire(IndexOf(cache, queue), now, retention)
    ensures PartOf(entries, cache) && changed == Gone(entries, cache)
  {
    entries, expiry, changed := cache, queue, {};
    while expiry != [] && Elapsed(now, expiry[0].receivedAt) > retention
      invariant NonEmptyBatches(expiry)
      invariant Expire(IndexOf(entries, expiry), now, retention) == Expire(IndexOf(cache, queue), now, retention)
      invariant PartOf(entries, cache) && changed == Gone(entries, cache)
      decreases |expiry|
    {
      ExpireBatch(entries, BatchTickets(expiry[0]), Tickets(expiry[1..]), now, retention);
      entries, changed := PopExpiryBatch(entries, expiry[0], changed);
      expiry := expiry[1..];
    }
    if expiry != [] {
      assert Tickets(expiry)[0] == BatchTickets(expiry[0])[0];
    }
  }

  /** Expires by age, then enforces the size limit. */
  method ExpireAndEvict(cache: Cache, queue: seq<ExpiryBatch>, now: nat, retention: nat, maxEntries: nat)
    returns (entries: Cache, expiry: seq<ExpiryBatch>, changed: set<ChunkKey>)
    requires NonEmptyBatches(queue)
    ensures NonEmptyBatches(expiry)
    ensures IndexOf(entries, expiry) == EvictTo(Expire(IndexOf(cache, queue), now, retention), maxEntries)
    ensures SameOutside(Values(cache), Values(entries), changed)
    ensures changed == {} <==> entries == cache
  {
    hide IsChunkValue, NonEmptyBatches, Values, SameOutside, PartOf, Gone, EvictTo, Expire, Tickets;
    var unexpired, rest, expired := ExpireBatches(cache, queue, now, retention);
    entries, expiry, changed := EvictToLimit(unexpired, rest, maxEntries, expired);
    PartOfSameOutside(unexpired, cache);
    PartOfEqual(unexpired, cache);
    ChangesCovered(cache, unexpired, entries, expired);
    PartOfChain(entries, unexpired, cache);
  }

  /** Forgets dead tickets. */
  method PruneStaleIndexes(entries: Cache, queue: seq<ExpiryBatch>) returns (expiry: seq<ExpiryBatch>)
    ensures NonEmptyBatches(expiry)
    ensures IndexOf(entries, expiry) == Pruned(IndexOf(entries, queue))
  {
    expiry := [];
    for i := 0 to |queue|
      invariant Tickets(expiry) == LiveTickets(entries, Tickets(queue[..i]))
      invariant NonEmptyBatches(expiry)
    {
      var batch := RetainLive(entries, queue[i]);
      assert queue[..i + 1] == queue[..i] + [queue[i]];
      TicketsSnoc(queue[..i], queue[i]);
      LiveTicketsConcat(entries, Tickets(queue[..i]), BatchTickets(queue[i]));
      if batch.keys != [] {
        TicketsSnoc(expiry, batch);
        expiry := expiry + [batch];
      } else {
        assert BatchTickets(batch) == [];
      }
    }
    assert queue[..|queue|] == queue;
  }

  /** The index part of `upsert`; every 64th generation prunes. */
  method UpsertIndex(
    cache: Cache, batches: seq<ExpiryBatch>, incoming: seq<ChunkEntry>, generation: nat, receivedAt: nat,
    maxEntries: nat, ghost stamps: map<ChunkKey, nat>, ghost clock: nat)
    returns (entries: Cache, expiry: seq<ExpiryBatch>, changed: set<ChunkKey>)
    requires IndexOk(IndexOf(cache, batches), stamps, generation, clock) && clock <= receivedAt
    requires NonEmptyBatches(batches)
    ensures NonEmptyBatches(expiry)
    ensures IndexOk(IndexOf(entries, expiry), stamps + WriteStamps(AcceptedWrites(incoming), receivedAt),
                    generation + 1, receivedAt)
    ensures Alike(IndexOf(entries, expiry), Step(IndexOf(cache, batches), generation,
                                                 Op.Upsert(AcceptedWrites(incoming), receivedAt, maxEntries)))
    ensures |entries| <= maxEntries
    ensures SameOutside(Values(cache), Values(entries), changed)
    ensures AllKnown(Values(cache), AcceptedWrites(incoming)) && |cache| <= maxEntries ==> changed == {}
    ensures TrimmedKeys(cache.Keys) ==> TrimmedKeys(entries.Keys)
    ensures IsStored(Values(cache), incoming, maxEntries, Values(entries))
  {
    hide IsChunkValue, IndexOk, NonEmptyBatches, Values, SameOutside, AllKnown, TrimmedKeys, TrimmedWrites, PartOf,
         OldestGone, EvictTo, Written, Tickets, AcceptedWrites, LiveTickets, IsStored;
    ReportIsStored(IndexOf(cache, batches), incoming, generation + 1, receivedAt, maxEntries);
    ghost var writes := AcceptedWrites(incoming);
    UpsertKeepsTrimmed(IndexOf(cache, batches), generation, incoming, receivedAt, maxEntries);
    UpsertKeepsIndex(IndexOf(cache, batches), stamps, generation, clock, writes, receivedAt, maxEntries);
    entries, expiry, changed := WriteAndEvict(cache, batches, incoming, generation + 1, receivedAt, maxEntries);
    PruningKeepsIndex(IndexOf(entries, expiry), stamps + WriteStamps(writes, receivedAt), generation + 1, receivedAt);
    if (generation + 1) % 64 == 0 {
      expiry := PruneStaleIndexes(entries, expiry);
    }
  }

  /** The index part of `cleanup`. */
  method CleanupIndex(
    cache: Cache, batches: seq<ExpiryBatch>, now: nat, retention: nat, maxEntries: nat,
    ghost generation: nat, ghost stamps: map<ChunkKey, nat>, ghost clock: nat)
    returns (entries: Cache, expiry: seq<ExpiryBatch>, changed: set<ChunkKey>)
    requires IndexOk(IndexOf(cache, batches), stamps, generation, clock)
    requires NonEmptyBatches(batches)
    ensures NonEmptyBatches(expiry)
    ensures IndexOk(IndexOf(entries, expiry), stamps, generation, clock)
    ensures IndexOf(entries, expiry)
            == Step(IndexOf(cache, batches), generation, Op.Cleanup(now, retention, maxEntries))
    ensures |entries| <= maxEntries && Fresh(entries, stamps, now, retention)
    ensures OnlyStaleGone(entries, cache, stamps, now, retention) || |entries| == maxEntries
    ensures SameOutside(Values(cache), Values(entries), changed)
    ensures changed == {} <==> entries == cache
    ensures TrimmedKeys(cache.Keys) ==> TrimmedKeys(entries.Keys)
  {
    hide IsChunkValue, IndexOk, NonEmptyBatches, Values, SameOutside, TrimmedKeys, PartOf, EvictTo, Expire, Tickets,
         Fresh, OnlyStaleGone;
    if TrimmedKeys(cache.Keys) {
      StepKeepsTrimmed(IndexOf(cache, batches), generation, Op.Cleanup(now, retention, maxEntries));
    }
    CleanupKeepsIndex(IndexOf(cache, batches), stamps, generation, clock, now, retention, maxEntries);
    entries, expiry, changed := ExpireAndEvict(cache, batches, now, retention, maxEntries);
  }

  /** The trimming loop of `record_changes`. */
  method TrimLog(log: seq<ChangeBatch>, operations: nat) returns (changes: seq<ChangeBatch>, changeOperations: nat)
    requires operations == Operations(log)
    ensures changes == Trimmed(log) && changeOperations == Operations(changes)
  {
    changes, changeOperations := log, operations;
    while |changes| > MAX_CHANGE_BATCHES || changeOperations > MAX_CHANGE_OPERATIONS
      invariant changeOperations == Operations(changes)
      invariant Trimmed(changes) == Trimmed(log)
      decreases |changes|
    {
      changeOperations := changeOperations - |changes[0].keys|;
      changes := changes[1..];
    }
  }

  /** The log invariant of the cache: the log explains its history and keeps its limits. */
  ghost predicate LogOk(history: seq<ChunkMap>, changes: seq<ChangeBatch>, changeOperations: nat, revision: nat)
    ensures LogOk(history, changes, changeOperations, revision) ==> |history| == revision + 1
  {
    && LogExplains(history, changes, revision)
    && changeOperations == Operations(changes)
    && WithinLogLimits(changes)
  }

  /** Appends a revision for a non-empty change set and trims the log to its longest suffix within the limits. */
  method RecordChanges(
    log: seq<ChangeBatch>, operations: nat, revision: nat, changed: set<ChunkKey>,
    ghost history: seq<ChunkMap>, ghost next: ChunkMap)
    returns (changes: seq<ChangeBatch>, changeOperations: nat, revision': nat, recorded: bool)
    requires LogOk(history, log, operations, revision)
    requires SameOutside(history[revision], next, changed)
    ensures recorded <==> changed != {}
    ensures revision' == revision + if recorded then 1 else 0
    ensures changes == if recorded then Trimmed(log + [ChangeBatch(revision', changed)]) else log
    ensures recorded ==> LogOk(history + [next], changes, changeOperations, revision')
    ensures !recorded ==> LogOk(history, changes, changeOperations, revision') && next == history[revision]
  {
    hide IsChunkValue, Trimmed, Operations, WithinLogLimits, LogExplains, SameOutside;
    if changed == {} {
      SameOutsideNothing(history[revision], next);
      return log, operations, revision, false;
    }
    var longer := log + [ChangeBatch(revision + 1, changed)];
    RecordKeepsExplanation(history, log, revision, next, changed);
    TrimmedKeepsExplanation(history + [next], longer, revision + 1);
    OperationsSnoc(log, ChangeBatch(revision + 1, changed));
    changes, changeOperations := TrimLog(longer, operations + |changed|);
    return changes, changeOperations, revision + 1, true;
  }

  /** Records the step from one cache to the next. */
  method RecordStep(
    ghost before: Cache, ghost after: Cache, changed: set<ChunkKey>, log: seq<ChangeBatch>, operations: nat,
    revision: nat, ghost history: seq<ChunkMap>)
    returns (changes: seq<ChangeBatch>, changeOperations: nat, revision': nat, recorded: bool)
    requires LogOk(history, log, operations, revision) && Values(before) == history[revision]
    requires SameOutside(Values(before), Values(after), changed)
    ensures recorded <==> changed != {}
    ensures revision' == revision + if recorded then 1 else 0
    ensures var h := if recorded then history + [Values(after)] else history;
            LogOk(h, changes, changeOperations, revision') && Values(after) == h[revision']
  {
    hide IsChunkValue, LogOk, Values, SameOutside, Trimmed;
    changes, changeOperations, revision', recorded :=
      RecordChanges(log, operations, revision, changed, history, Values(after));
  }

  /** The invariant of the cache, as one statement about its fields. */
  ghost predicate StateOk(
    entries: Cache, expiry: seq<ExpiryBatch>, changes: seq<ChangeBatch>, changeOperations: nat, revision: nat,
    generation: nat, history: seq<ChunkMap>, stamps: map<ChunkKey, nat>, clock: nat)
  {
    && IndexOk(IndexOf(entries, expiry), stamps, generation, clock)
    && NonEmptyBatches(expiry)
    && LogOk(history, changes, changeOperations, revision)
    && Values(entries) == history[revision]
    && TrimmedKeys(entries.Keys)
  }

  /** What one upsert makes of the fields. */
  method UpsertState(
    cache: Cache, batches: seq<ExpiryBatch>, log: seq<ChangeBatch>, operations: nat, revision: nat, generation: nat,
    incoming: seq<ChunkEntry>, receivedAt: nat, maxEntries: nat,
    ghost history: seq<ChunkMap>, ghost stamps: map<ChunkKey, nat>, ghost clock: nat)
    returns (entries: Cache, expiry: seq<ExpiryBatch>, changes: seq<ChangeBatch>, changeOperations: nat,
             revision': nat, recorded: bool)
    requires StateOk(cache, batches, log, operations, revision, generation, history, stamps, clock)
    requires clock <= receivedAt
    ensures StateOk(entries, expiry, changes, changeOperations, revision', generation + 1,
                    if recorded then history + [Values(entries)] else history,
                    stamps + WriteStamps(AcceptedWrites(incoming), receivedAt), receivedAt)
    ensures Alike(IndexOf(entries, expiry), Step(IndexOf(cache, batches), generation,
                                                 Op.Upsert(AcceptedWrites(incoming), receivedAt, maxEntries)))
    ensures |entries| <= maxEntries && IsStored(Values(cache), incoming, maxEntries, Values(entries))
    ensures revision' == revision + if recorded then 1 else 0
    ensures recorded ==> !AllKnown(Values(cache), AcceptedWrites(incoming)) || |cache| > maxEntries
  {
    hide IsChunkValue, IndexOk, NonEmptyBatches, LogOk, Values, AllKnown, TrimmedKeys, IndexOf, AcceptedWrites, Step,
         Alike, WriteStamps, SameOutside, Tickets, IsStored;
    var changed;
    entries, expiry, changed :=
      UpsertIndex(cache, batches, incoming, generation, receivedAt, maxEntries, stamps, clock);
    changes, changeOperations, revision', recorded :=
      RecordStep(cache, entries, changed, log, operations, revision, history);
  }

  // ---------------------------------------------------------------- the cache

  class BattleRoomCache {
    var entries: Cache
    var expiry: seq<ExpiryBatch>
    var changes: seq<ChangeBatch>
    var changeOperations: nat
    var revision: nat
    var nextGeneration: nat

    ghost var history: seq<ChunkMap>
    ghost var stamps: map<ChunkKey, nat>
    ghost var clock: nat

    ghost function Index(): (r: Store)
      reads this`entries, this`expiry
    {
      IndexOf(entries, expiry)
    }

    ghost predicate Valid()
      reads this
    {
      StateOk(entries, expiry, changes, changeOperations, revision, nextGeneration, history, stamps, clock)
    }

    constructor ()
      ensures Valid()
      ensures revision == 0 && entries == map[] && history == [map[]] && clock == 0
    {
      entries, expiry, changes := map[], [], [];
      changeOperations, revision, nextGeneration := 0, 0, 0;
      history, stamps, clock := [map[]], map[], 0;
    }

    /**
     Stores a report. Whatever is cached afterwards is what the report tells of it or what was there before, and with
     room enough that is all that was told. The cached chunks are those of the reference step, the size limit holds, and
     without a recorded revision no value has changed. Repeating known values in a cache within its limit records
     nothing.
     */
    method Upsert(incoming: seq<ChunkEntry>, receivedAt: nat, maxEntries: nat) returns (recorded: bool)
      requires Valid() && clock <= receivedAt
      modifies this
      ensures Valid() && clock == receivedAt
      ensures nextGeneration == old(nextGeneration) + 1
      ensures Alike(Index(), Step(old(Index()), old(nextGeneration),
                                  Op.Upsert(AcceptedWrites(incoming), receivedAt, maxEntries)))
      ensures |entries| <= maxEntries
      ensures IsStored(old(Values(entries)), incoming, maxEntries, Values(entries))
      ensures revision == old(revision) + if recorded then 1 else 0
      ensures history == if recorded then old(history) + [Values(entries)] else old(history)
      ensures recorded ==> !AllKnown(old(Values(entries)), AcceptedWrites(incoming)) || |old(entries)| > maxEntries
      ensures stamps == old(stamps) + WriteStamps(AcceptedWrites(incoming), receivedAt)
    {
      hide StateOk, IsChunkValue, Values, AllKnown, IndexOf, AcceptedWrites, Step, Alike, WriteStamps, IsStored;
      var kept, queue, log, operations, latest, grown :=
        UpsertState(entries, expiry, changes, changeOperations, revision, nextGeneration, incoming, receivedAt,
                    maxEntries, history, stamps, clock);
      recorded := grown;
      history := if recorded then history + [Values(kept)] else history;
      stamps, clock := stamps + WriteStamps(AcceptedWrites(incoming), receivedAt), receivedAt;
      entries, expiry, nextGeneration := kept, queue, nextGeneration + 1;
      changes, changeOperations, revision := log, operations, latest;
    }

    /**
     Drops everything whose last write is older than the retention, then enforces the size limit. A chunk in the
     cache afterwards was written within the retention, and one written within it is lost to the size limit only.
     */
    method Cleanup(now: nat, retention: nat, maxEntries: nat) returns (recorded: bool)
      requires Valid()
      modifies this
      ensures Valid() && nextGeneration == old(nextGeneration) && stamps == old(stamps) && clock == old(clock)
      ensures Index() == Step(old(Index()), nextGeneration, Op.Cleanup(now, retention, maxEntries))
      ensures |entries| <= maxEntries
      ensures Fresh(entries, stamps, now, retention)
      ensures OnlyStaleGone(entries, old(entries), stamps, now, retention) || |entries| == maxEntries
      ensures revision == old(revision) + if recorded then 1 else 0
      ensures history == if recorded then old(history) + [Values(entries)] else old(history)
      ensures recorded <==> entries != old(entries)
    {
      hide IsChunkValue, IndexOk, NonEmptyBatches, LogOk, Values, TrimmedKeys, IndexOf, Step, Fresh, OnlyStaleGone;
      var kept, queue, changed :=
        CleanupIndex(entries, expiry, now, retention, maxEntries, nextGeneration, stamps, clock);
      var log, operations, latest, grown :=
        RecordStep(entries, kept, changed, changes, changeOperations, revision, history);
      recorded := grown;
      history := if recorded then history + [Values(kept)] else history;
      entries, expiry := kept, queue;
      changes, changeOperations, revision := log, operations, latest;
    }

    /** Whether, and with what, a client at revision `since` can be caught up. */
    method PatchSince(since: nat, includeMode: bool, includeClears: bool) returns (r: CatchUp)
      requires Valid()
      ensures IsCatchUp(history[revision], changes, revision, since, includeMode, includeClears, r)
      ensures r == UpToDate <==> since == revision
      ensures r == NeedsFull <==> since > revision || revision - since > |changes|
      ensures includeClears ==> CatchesUp(history, revision, since, includeMode, r)
      ensures FullEntries(includeMode) == ProjectAll(history[revision], includeMode)
    {
      hide IsChunkValue, IndexOk, WithinLogLimits, Operations, Values, Tickets, IsChunkPatch, CatchesUp, AfterCatchUp;
      if since == revision {
        r := UpToDate;
      } else if since > revision || changes == [] || changes[0].revision > since + 1 {
        r := NeedsFull;
      } else {
        var keys := CollectChanged(changes, since);
        var scope := BuildChunkPatch(Values(entries), keys, includeMode, includeClears);
        r := CatchUp.Changes(scope);
      }
      if includeClears {
        CatchUpFromAnyRevision(history, changes, revision, since, includeMode, r);
      }
    }

    /** The whole projected map. */
    function FullEntries(includeMode: bool): (r: Table<ChunkKey>)
      reads this`entries
    {
      ProjectAll(Values(entries), includeMode)
    }
  }

  ghost predicate IsKeysOf(keys: seq<ChunkKey>, writes: seq<Write>) {
    |keys| == |writes| && forall j :: 0 <= j < |keys| ==> keys[j] == writes[j].key
  }

  /** Every write repeats the value the map already has. */
  ghost predicate AllKnown(m: ChunkMap, writes: seq<Write>) {
    forall i :: 0 <= i < |writes| ==> Lookup(m, writes[i].key) == Some(writes[i].value)
  }

  lemma NoWrites(c: Cache, generation: nat)
    ensures WriteAll(c, AcceptedWrites([]), generation) == c
    ensures IsKeysOf([], AcceptedWrites([]))
  {
  }

  /** Queueing the written keys as one batch, if any, appends the tickets of the writes. */
  lemma QueueBatch(expiry: seq<ExpiryBatch>, keys: seq<ChunkKey>, writes: seq<Write>, generation: nat, receivedAt: nat)
    requires IsKeysOf(keys, writes)
    ensures keys == [] ==> Tickets(expiry) == Tickets(expiry) + WriteTickets(writes, generation, receivedAt)
    ensures Tickets(expiry + [ExpiryBatch(receivedAt, generation, keys)])
            == Tickets(expiry) + WriteTickets(writes, generation, receivedAt)
    ensures keys != [] && NonEmptyBatches(expiry)
            ==> NonEmptyBatches(expiry + [ExpiryBatch(receivedAt, generation, keys)])
  {
    var batch := ExpiryBatch(receivedAt, generation, keys);
    TicketsSnoc(expiry, batch);
    assert BatchTickets(batch) == WriteTickets(writes, generation, receivedAt);
  }

  lemma IsKeysOfSnoc(keys: seq<ChunkKey>, writes: seq<Write>, w: Write)
    requires IsKeysOf(keys, writes)
    ensures IsKeysOf(keys + [w.key], writes + [w])
  {
  }

  lemma AllKnownSnoc(m: ChunkMap, writes: seq<Write>, w: Write)
    ensures AllKnown(m, writes + [w]) <==> AllKnown(m, writes) && Lookup(m, w.key) == Some(w.value)
  {
    var all := writes + [w];
    assert forall i :: 0 <= i < |writes| ==> all[i] == writes[i];
    assert all[|writes|] == w;
  }

  lemma KnownWritesKeepKeys(c: Cache, writes: seq<Write>, generation: nat)
    ensures AllKnown(Values(c), writes) ==> |WriteAll(c, writes, generation)| == |c|
  {
    if AllKnown(Values(c), writes) {
      var c' := WriteAll(c, writes, generation);
      forall k
        ensures k in c' <==> k in c
      {
        WriteAllAt(c, writes, generation, k);
        if i :| 0 <= i < |writes| && writes[i].key == k {
          assert Lookup(Values(c), writes[i].key).Some?;
        } else {
          assert Lookup(c', k) == Lookup(c, k);
        }
      }
      assert c'.Keys == c.Keys;
    }
  }

  /** Repeating known values in a cache within its limit evicts nothing. */
  lemma QuietUpsert(s: Store, writes: seq<Write>, generation: nat, receivedAt: nat, maxEntries: nat)
    ensures AllKnown(Values(s.cache), writes) && |s.cache| <= maxEntries ==>
              EvictTo(Written(s, writes, generation, receivedAt), maxEntries).cache
              == WriteAll(s.cache, writes, generation)
  {
    KnownWritesKeepKeys(s.cache, writes, generation);
  }

  /** One write changes the value of its key only, and not even that if the value is the known one. */
  lemma WriteOne(start: ChunkMap, c: Cache, changed: set<ChunkKey>, w: Write, generation: nat)
    requires SameOutside(start, Values(c), changed)
    ensures SameOutside(start, Values(c[w.key := CachedChunk(w.value, generation)]), changed + {w.key})
    ensures w.key in c && c[w.key].value == w.value ==>
              SameOutside(start, Values(c[w.key := CachedChunk(w.value, generation)]), changed)
    ensures changed == {} && Lookup(start, w.key) == Some(w.value) ==> w.key in c && c[w.key].value == w.value
  {
  }

  lemma {:induction false} TrimmedKeepsExplanation(history: seq<ChunkMap>, changes: seq<ChangeBatch>, revision: nat)
    requires LogExplains(history, changes, revision)
    ensures LogExplains(history, Trimmed(changes), revision)
    decreases |changes|
  {
    if !WithinLogLimits(changes) {
      TrimKeepsExplanation(history, changes, revision);
      TrimmedKeepsExplanation(history, changes[1..], revision);
    }
  }

  lemma PartOfSameOutside(c': Cache, c: Cache)
    requires PartOf(c', c)
    ensures SameOutside(Values(c), Values(c'), Gone(c', c))
  {
  }

  lemma SameOutsideNothing(a: ChunkMap, b: ChunkMap)
    requires SameOutside(a, b, {})
    ensures a == b
  {
    SameLookups(a, b);
  }

  lemma SameOutsideSelf(m: ChunkMap)
    ensures SameOutside(m, m, {})
  {
  }

  lemma SameOutsideUnion(a: ChunkMap, b: ChunkMap, c: ChunkMap, s: set<ChunkKey>, t: set<ChunkKey>)
    requires SameOutside(a, b, s) && SameOutside(b, c, t)
    ensures SameOutside(a, c, s + t)
  {
  }

  lemma NothingChanged(changed: set<ChunkKey>, c': Cache, c: Cache)
    requires PartOf(c', c)
    ensures changed + Gone(c', c) == {} <==> changed == {} && c' == c
  {
    PartOfEqual(c', c);
  }

  /** What writing and eviction changed together is recorded. */
  lemma ChangesCovered(was: Cache, written: Cache, kept: Cache, changed: set<ChunkKey>)
    requires SameOutside(Values(was), Values(written), changed) && PartOf(kept, written)
    ensures SameOutside(Values(was), Values(kept), changed + Gone(kept, written))
    ensures changed + Gone(kept, written) == {} <==> changed == {} && kept == written
  {
    PartOfSameOutside(kept, written);
    SameOutsideUnion(Values(was), Values(written), Values(kept), changed, Gone(kept, written));
    NothingChanged(changed, kept, written);
  }

  lemma PartOfChain(c'': Cache, c': Cache, c: Cache)
    requires PartOf(c'', c') && PartOf(c', c)
    ensures PartOf(c'', c)
    ensures c'' == c ==> c' == c
  {
  }

  lemma PartOfEqual(c': Cache, c: Cache)
    requires PartOf(c', c)
    ensures Gone(c', c) == {} <==> c' == c
  {
    if Gone(c', c) == {} {
      forall k | k in c
        ensures k in c' && c'[k] == c[k]
      {
        assert k !in Gone(c', c);
      }
      assert c'.Keys == c.Keys;
    }
  }
}
