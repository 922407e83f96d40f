/**
 The expiry index of the battle cache as one flat queue of tickets, and what eviction, expiry and pruning do to it.

 A ticket is live while the cached chunk still carries its generation. Overwriting a chunk leaves its older tickets in
 the queue, dead; they are skipped when they reach the front and dropped in bulk by pruning.
 */
module BattleIndex {
  import opened Prelude
  import opened BattleLog

  datatype CachedChunk = CachedChunk(value: ChunkValue, generation: nat)

  type Cache = map<ChunkKey, CachedChunk>

  datatype Ticket = Ticket(key: ChunkKey, generation: nat, receivedAt: nat)

  datatype Write = Write(key: ChunkKey, value: ChunkValue)

  function Values(c: Cache): (m: ChunkMap) {
    map k | k in c :: c[k].value
  }

  predicate Live(c: Cache, t: Ticket) {
    t.key in c && c[t.key].generation == t.generation
  }

  function Discard(c: Cache, t: Ticket): (r: Cache) {
    if Live(c, t) then c - {t.key} else c
  }

  datatype Store = Store(cache: Cache, queue: seq<Ticket>)

  /** Discard from the front while the cache is over its limit. */
  function EvictTo(s: Store, maxEntries: nat): (r: Store)
    decreases |s.queue|
  {
    if |s.cache| <= maxEntries || s.queue == [] then s
    else EvictTo(Store(Discard(s.cache, s.queue[0]), s.queue[1..]), maxEntries)
  }

  /** Discard from the front while the front is older than the retention. */
  function Expire(s: Store, now: nat, retention: nat): (r: Store)
    decreases |s.queue|
  {
    if s.queue == [] || Elapsed(now, s.queue[0].receivedAt) <= retention then s
    else Expire(Store(Discard(s.cache, s.queue[0]), s.queue[1..]), now, retention)
  }

  function WriteAll(c: Cache, writes: seq<Write>, generation: nat): (r: Cache)
    decreases |writes|
  {
    if writes == [] then c
    else
      var last := writes[|writes| - 1];
      WriteAll(c, writes[..|writes| - 1], generation)[last.key := CachedChunk(last.value, generation)]
  }

  lemma WriteAllSnoc(c: Cache, writes: seq<Write>, w: Write, generation: nat)
    ensures WriteAll(c, writes + [w], generation)
            == WriteAll(c, writes, generation)[w.key := CachedChunk(w.value, generation)]
  {
  }

  function WriteTickets(writes: seq<Write>, generation: nat, receivedAt: nat): (r: seq<Ticket>) {
    seq(|writes|, i requires 0 <= i < |writes| => Ticket(writes[i].key, generation, receivedAt))
  }

  function WriteStamps(writes: seq<Write>, receivedAt: nat): (r: map<ChunkKey, nat>)
    ensures forall k :: k in r <==> exists i :: 0 <= i < |writes| && writes[i].key == k
    ensures forall k :: k in r ==> r[k] == receivedAt
  {
    map i | 0 <= i < |writes| :: writes[i].key := receivedAt
  }

  /** A written key carries the new generation, every other key what it had. */
  lemma {:induction false} WriteAllAt(c: Cache, writes: seq<Write>, generation: nat, k: ChunkKey)
    ensures (exists i :: 0 <= i < |writes| && writes[i].key == k)
            ==> k in WriteAll(c, writes, generation) && WriteAll(c, writes, generation)[k].generation == generation
    ensures (forall i :: 0 <= i < |writes| ==> writes[i].key != k)
            ==> Lookup(WriteAll(c, writes, generation), k) == Lookup(c, k)
    decreases |writes|
  {
    if writes != [] {
      var n := |writes| - 1;
      var front := writes[..n];
      WriteAllAt(c, front, generation, k);
      assert forall i :: 0 <= i < n ==> front[i] == writes[i];
      if writes[n].key != k {
        if i :| 0 <= i < |writes| && writes[i].key == k {
          assert front[i].key == k;
        }
      }
    }
  }

  // ---------------------------------------------------------------- invariants

  ghost predicate Before(a: Ticket, b: Ticket) {
    && a.generation <= b.generation
    && a.receivedAt <= b.receivedAt
    && (a.generation == b.generation ==> a.receivedAt == b.receivedAt)
  }

  /** Tickets are queued in the order of their generations and times; one generation has one time. */
  ghost predicate Ordered(q: seq<Ticket>) {
    forall i, j :: 0 <= i < j < |q| ==> Before(q[i], q[j])
  }

  /** Every cached chunk has a live ticket, stamped with the time of its last write. */
  ghost predicate Stamped(s: Store, stamps: map<ChunkKey, nat>) {
    forall k :: k in s.cache ==> k in stamps && Ticket(k, s.cache[k].generation, stamps[k]) in s.queue
  }

  ghost predicate Sound(s: Store, stamps: map<ChunkKey, nat>) {
    Ordered(s.queue) && Stamped(s, stamps)
  }

  lemma DiscardKeepsSound(s: Store, stamps: map<ChunkKey, nat>)
    requires Sound(s, stamps) && s.queue != []
    ensures Sound(Store(Discard(s.cache, s.queue[0]), s.queue[1..]), stamps)
  {
  }

  // ---------------------------------------------------------------- eviction

  ghost predicate PartOf(c': Cache, c: Cache) {
    forall k :: k in c' ==> k in c && c'[k] == c[k]
  }

  /** No chunk of `c` outside `c'` has a later generation than a chunk of `c'`. */
  ghost predicate OldestGone(c': Cache, c: Cache) {
    forall k, j :: k in c && k !in c' && j in c' && j in c ==> c[k].generation <= c[j].generation
  }

  lemma SoundQueueNonEmpty(s: Store, stamps: map<ChunkKey, nat>)
    requires Sound(s, stamps) && |s.cache| > 0
    ensures s.queue != []
    ensures forall j :: j in s.cache ==> s.queue[0].generation <= s.cache[j].generation
  {
  }

  /**
   Eviction ends exactly at the limit when it starts above it, keeps a part of the cache, and never removes a chunk
   of a later generation than one it keeps.
   */
  lemma {:induction false} EvictionRemovesOldest(s: Store, stamps: map<ChunkKey, nat>, maxEntries: nat)
    requires Sound(s, stamps)
    ensures Sound(EvictTo(s, maxEntries), stamps)
    ensures |EvictTo(s, maxEntries).cache| == if |s.cache| <= maxEntries then |s.cache| else maxEntries
    ensures PartOf(EvictTo(s, maxEntries).cache, s.cache) && OldestGone(EvictTo(s, maxEntries).cache, s.cache)
    ensures |s.cache| <= maxEntries ==> EvictTo(s, maxEntries) == s
    decreases |s.queue|
  {
    if |s.cache| > maxEntries {
      SoundQueueNonEmpty(s, stamps);
      var t := s.queue[0];
      var s' := Store(Discard(s.cache, t), s.queue[1..]);
      if Live(s.cache, t) {
        assert s'.cache.Keys == s.cache.Keys - {t.key};
      }
      DiscardKeepsSound(s, stamps);
      EvictionRemovesOldest(s', stamps, maxEntries);
      OldestGoneStep(s.cache, t, EvictTo(s', maxEntries).cache);
    }
  }

  lemma OldestGoneStep(c: Cache, t: Ticket, out: Cache)
    requires forall j :: j in c ==> t.generation <= c[j].generation
    requires PartOf(out, Discard(c, t)) && OldestGone(out, Discard(c, t))
    ensures PartOf(out, c) && OldestGone(out, c)
  {
    hide IsChunkValue;
    assert PartOf(out, c);
    forall k, j | k in c && k !in out && j in out && j in c
      ensures c[k].generation <= c[j].generation
    {
      assert j in Discard(c, t) && Discard(c, t)[j] == c[j];
      if k in Discard(c, t) {
        assert Discard(c, t)[k] == c[k];
      } else {
        assert Live(c, t) && k == t.key;
      }
    }
  }

  // ---------------------------------------------------------------- expiry

  /** Expiry removes exactly the chunks whose last write is older than the retention. */
  lemma {:induction false} ExpiryIsByLastWrite(s: Store, stamps: map<ChunkKey, nat>, now: nat, retention: nat)
    requires Sound(s, stamps)
    ensures Sound(Expire(s, now, retention), stamps)
    ensures forall k :: k in Expire(s, now, retention).cache
              <==> k in s.cache && Elapsed(now, stamps[k]) <= retention
    ensures forall k :: k in Expire(s, now, retention).cache ==> Expire(s, now, retention).cache[k] == s.cache[k]
    decreases |s.queue|
  {
    if s.queue == [] || Elapsed(now, s.queue[0].receivedAt) <= retention {
      forall k | k in s.cache
        ensures Elapsed(now, stamps[k]) <= retention
      {
        var t := Ticket(k, s.cache[k].generation, stamps[k]);
        assert t in s.queue;
        assert s.queue[0].receivedAt <= t.receivedAt;
      }
    } else {
      var t := s.queue[0];
      DiscardKeepsSound(s, stamps);
      ExpiryIsByLastWrite(Store(Discard(s.cache, t), s.queue[1..]), stamps, now, retention);
      if Live(s.cache, t) {
        assert Ticket(t.key, t.generation, stamps[t.key]) in s.queue;
        assert stamps[t.key] == t.receivedAt;
      }
    }
  }

  /** Every chunk was last written within the retention. */
  ghost predicate Fresh(c: Cache, stamps: map<ChunkKey, nat>, now: nat, retention: nat) {
    forall k :: k in c ==> k in stamps && Elapsed(now, stamps[k]) <= retention
  }

  /** Every chunk of `c` missing from `c'` was last written before the retention. */
  ghost predicate OnlyStaleGone(c': Cache, c: Cache, stamps: map<ChunkKey, nat>, now: nat, retention: nat) {
    forall k :: k in c && k !in c' ==> k in stamps && Elapsed(now, stamps[k]) > retention
  }

  lemma ExpiryKeepsFresh(s: Store, stamps: map<ChunkKey, nat>, now: nat, retention: nat)
    requires Sound(s, stamps)
    ensures Sound(Expire(s, now, retention), stamps)
    ensures PartOf(Expire(s, now, retention).cache, s.cache)
    ensures Fresh(Expire(s, now, retention).cache, stamps, now, retention)
    ensures OnlyStaleGone(Expire(s, now, retention).cache, s.cache, stamps, now, retention)
  {
    ExpiryIsByLastWrite(s, stamps, now, retention);
  }

  lemma FreshPart(c': Cache, c: Cache, stamps: map<ChunkKey, nat>, now: nat, retention: nat)
    requires Fresh(c, stamps, now, retention) && PartOf(c', c)
    ensures Fresh(c', stamps, now, retention)
  {
  }

  // ---------------------------------------------------------------- pruning

  /** The live tickets, in order: what pruning leaves of the queue. */
  function LiveTickets(c: Cache, q: seq<Ticket>): (r: seq<Ticket>)
    ensures forall t :: t in r <==> t in q && Live(c, t)
    ensures |r| <= |q|
    decreases |q|
  {
    if q == [] then []
    else if Live(c, q[0]) then [q[0]] + LiveTickets(c, q[1..])
    else LiveTickets(c, q[1..])
  }

  lemma {:induction false} LiveTicketsConcat(c: Cache, p: seq<Ticket>, q: seq<Ticket>)
    ensures LiveTickets(c, p + q) == LiveTickets(c, p) + LiveTickets(c, q)
    decreases |p|
  {
    if p == [] {
      assert p + q == q;
    } else {
      LiveTicketsConcat(c, p[1..], q);
      assert (p + q)[1..] == p[1..] + q;
    }
  }

  lemma {:induction false} LiveTicketsOrdered(c: Cache, q: seq<Ticket>)
    requires Ordered(q)
    ensures Ordered(LiveTickets(c, q))
    decreases |q|
  {
    if q != [] {
      var rest := LiveTickets(c, q[1..]);
      LiveTicketsOrdered(c, q[1..]);
      forall t | t in rest
        ensures Before(q[0], t)
      {
        assert t in q[1..];
      }
      var all := [q[0]] + rest;
      forall i, j | 0 <= i < j < |all|
        ensures Before(all[i], all[j])
      {
        assert all[j] == rest[j - 1];
        if i > 0 {
          assert all[i] == rest[i - 1];
        }
      }
    }
  }

  /** Tickets that died stay dead, so filtering by an earlier cache first changes nothing. */
  lemma {:induction false} RefilterLive(c: Cache, c': Cache, q: seq<Ticket>)
    requires forall t :: t in q && Live(c', t) ==> Live(c, t)
    ensures LiveTickets(c', LiveTickets(c, q)) == LiveTickets(c', q)
    decreases |q|
  {
    if q != [] {
      assert forall t :: t in q[1..] ==> t in q;
      RefilterLive(c, c', q[1..]);
      if Live(c, q[0]) {
        assert LiveTickets(c, q) == [q[0]] + LiveTickets(c, q[1..]);
        assert LiveTickets(c, q)[1..] == LiveTickets(c, q[1..]);
      } else {
        assert q[0] in q;
      }
    }
  }

  /** Two stores no operation can tell apart. */
  ghost predicate Alike(s: Store, r: Store) {
    s.cache == r.cache && LiveTickets(s.cache, s.queue) == LiveTickets(r.cache, r.queue)
  }

  /** A pruned store: the dead tickets are gone. */
  function Pruned(s: Store): (r: Store) {
    Store(s.cache, LiveTickets(s.cache, s.queue))
  }

  lemma PruningIsAlike(s: Store)
    ensures Alike(s, Pruned(s))
  {
    RefilterLive(s.cache, s.cache, s.queue);
  }

  lemma PruningKeepsSound(s: Store, stamps: map<ChunkKey, nat>)
    requires Sound(s, stamps)
    ensures Sound(Pruned(s), stamps)
  {
    LiveTicketsOrdered(s.cache, s.queue);
  }

  lemma {:induction false} EvictPruned(s: Store, maxEntries: nat)
    ensures Alike(EvictTo(s, maxEntries), EvictTo(Pruned(s), maxEntries))
    decreases |s.queue|
  {
    PruningIsAlike(s);
    if |s.cache| > maxEntries && s.queue != [] {
      var s' := Store(Discard(s.cache, s.queue[0]), s.queue[1..]);
      EvictPruned(s', maxEntries);
      if Live(s.cache, s.queue[0]) {
        var r := Store(s'.cache, LiveTickets(s.cache, s'.queue));
        assert Pruned(s).queue[1..] == r.queue;
        RefilterLive(s.cache, s'.cache, s'.queue);
        EvictPruned(r, maxEntries);
      }
    }
  }

  lemma {:induction false} ExpirePruned(s: Store, now: nat, retention: nat)
    requires Ordered(s.queue)
    ensures Alike(Expire(s, now, retention), Expire(Pruned(s), now, retention))
    decreases |s.queue|
  {
    PruningIsAlike(s);
    if s.queue == [] {
    } else if Elapsed(now, s.queue[0].receivedAt) <= retention {
      if Pruned(s).queue != [] {
        assert Pruned(s).queue[0] in s.queue;
      }
    } else {
      var s' := Store(Discard(s.cache, s.queue[0]), s.queue[1..]);
      ExpirePruned(s', now, retention);
      if Live(s.cache, s.queue[0]) {
        var r := Store(s'.cache, LiveTickets(s.cache, s'.queue));
        assert Pruned(s).queue[1..] == r.queue;
        RefilterLive(s.cache, s'.cache, s'.queue);
        LiveTicketsOrdered(s.cache, s'.queue);
        ExpirePruned(r, now, retention);
      }
    }
  }

  // ---------------------------------------------------------------- runs

  datatype Op =
    | Upsert(writes: seq<Write>, receivedAt: nat, maxEntries: nat)
    | Cleanup(now: nat, retention: nat, maxEntries: nat)

  function Written(s: Store, writes: seq<Write>, generation: nat, receivedAt: nat): (r: Store) {
    Store(WriteAll(s.cache, writes, generation), s.queue + WriteTickets(writes, generation, receivedAt))
  }

  /** One call on the cache; `generation` numbers the upserts. */
  function Step(s: Store, generation: nat, op: Op): (r: Store) {
    match op
    case Upsert(writes, receivedAt, maxEntries) =>
      EvictTo(Written(s, writes, generation + 1, receivedAt), maxEntries)
    case Cleanup(now, retention, maxEntries) =>
      EvictTo(Expire(s, now, retention), maxEntries)
  }

  function NextGeneration(generation: nat, op: Op): (r: nat) {
    if op.Upsert? then generation + 1 else generation
  }

  /** The queue is ordered and everything in it is no newer than the generation and the clock. */
  ghost predicate Timely(s: Store, generation: nat, clock: nat) {
    && Ordered(s.queue)
    && forall t :: t in s.queue ==> t.generation <= generation && t.receivedAt <= clock
  }

  function Clock(clock: nat, op: Op): (r: nat) {
    if op.Upsert? && op.receivedAt > clock then op.receivedAt else clock
  }

  ghost predicate TrimmedWrites(writes: seq<Write>) {
    forall w :: w in writes ==> TrimmedKeys({w.key})
  }

  /** No operation brings in a key with an untrimmed dimension. */
  lemma StepKeepsTrimmed(s: Store, generation: nat, op: Op)
    requires TrimmedKeys(s.cache.Keys) && (op.Upsert? ==> TrimmedWrites(op.writes))
    ensures TrimmedKeys(Step(s, generation, op).cache.Keys)
  {
    hide TrimmedKeys, Expire, EvictTo, WriteAll, WriteTickets;
    match op
    case Upsert(writes, receivedAt, maxEntries) =>
      WriteKeepsTrimmed(s.cache, writes, generation + 1);
      EvictKeepsTrimmed(Written(s, writes, generation + 1, receivedAt), maxEntries);
    case Cleanup(now, retention, maxEntries) =>
      ExpireKeepsTrimmed(s, now, retention);
      EvictKeepsTrimmed(Expire(s, now, retention), maxEntries);
  }

  lemma {:induction false} WriteKeepsTrimmed(c: Cache, writes: seq<Write>, generation: nat)
    requires TrimmedKeys(c.Keys) && TrimmedWrites(writes)
    ensures TrimmedKeys(WriteAll(c, writes, generation).Keys)
    decreases |writes|
  {
    hide Trim;
    if writes != [] {
      var n := |writes| - 1;
      WriteKeepsTrimmed(c, writes[..n], generation);
      assert TrimmedKeys({writes[n].key});
    }
  }

  lemma {:induction false} EvictKeepsTrimmed(s: Store, maxEntries: nat)
    requires TrimmedKeys(s.cache.Keys)
    ensures TrimmedKeys(EvictTo(s, maxEntries).cache.Keys)
    decreases |s.queue|
  {
    hide Trim;
    if |s.cache| > maxEntries && s.queue != [] {
      EvictKeepsTrimmed(Store(Discard(s.cache, s.queue[0]), s.queue[1..]), maxEntries);
    }
  }

  lemma {:induction false} ExpireKeepsTrimmed(s: Store, now: nat, retention: nat)
    requires TrimmedKeys(s.cache.Keys)
    ensures TrimmedKeys(Expire(s, now, retention).cache.Keys)
    decreases |s.queue|
  {
    hide Trim;
    if s.queue != [] && Elapsed(now, s.queue[0].receivedAt) > retention {
      ExpireKeepsTrimmed(Store(Discard(s.cache, s.queue[0]), s.queue[1..]), now, retention);
    }
  }

  ghost predicate OpInTime(op: Op, clock: nat) {
    op.Upsert? ==> clock <= op.receivedAt
  }

  lemma {:induction false} EvictQueueSuffix(s: Store, maxEntries: nat)
    ensures exists i :: 0 <= i <= |s.queue| && EvictTo(s, maxEntries).queue == s.queue[i..]
    decreases |s.queue|
  {
    if |s.cache| <= maxEntries || s.queue == [] {
      assert EvictTo(s, maxEntries).queue == s.queue[0..];
    } else {
      var s' := Store(Discard(s.cache, s.queue[0]), s.queue[1..]);
      EvictQueueSuffix(s', maxEntries);
      var i :| 0 <= i <= |s'.queue| && EvictTo(s', maxEntries).queue == s'.queue[i..];
      assert s'.queue[i..] == s.queue[i + 1..];
    }
  }

  lemma {:induction false} ExpireQueueSuffix(s: Store, now: nat, retention: nat)
    ensures exists i :: 0 <= i <= |s.queue| && Expire(s, now, retention).queue == s.queue[i..]
    decreases |s.queue|
  {
    if s.queue == [] || Elapsed(now, s.queue[0].receivedAt) <= retention {
      assert Expire(s, now, retention).queue == s.queue[0..];
    } else {
      var s' := Store(Discard(s.cache, s.queue[0]), s.queue[1..]);
      ExpireQueueSuffix(s', now, retention);
      var i :| 0 <= i <= |s'.queue| && Expire(s', now, retention).queue == s'.queue[i..];
      assert s'.queue[i..] == s.queue[i + 1..];
    }
  }

  lemma EvictKeepsTimely(s: Store, maxEntries: nat, generation: nat, clock: nat)
    requires Timely(s, generation, clock)
    ensures Timely(EvictTo(s, maxEntries), generation, clock)
  {
    EvictQueueSuffix(s, maxEntries);
  }

  lemma ExpireKeepsTimely(s: Store, now: nat, retention: nat, generation: nat, clock: nat)
    requires Timely(s, generation, clock)
    ensures Timely(Expire(s, now, retention), generation, clock)
  {
    ExpireQueueSuffix(s, now, retention);
  }

  lemma WriteKeepsTimely(s: Store, writes: seq<Write>, generation: nat, receivedAt: nat, clock: nat)
    requires Timely(s, generation, clock) && clock <= receivedAt
    ensures Timely(Written(s, writes, generation + 1, receivedAt), generation + 1, receivedAt)
  {
  }

  /** A write with a fresh generation, no earlier than the last one, keeps the index sound. */
  lemma WriteKeepsSound(
    s: Store, stamps: map<ChunkKey, nat>, writes: seq<Write>, generation: nat, receivedAt: nat, clock: nat)
    requires Sound(s, stamps) && Timely(s, generation, clock) && clock <= receivedAt
    ensures Sound(Written(s, writes, generation + 1, receivedAt), stamps + WriteStamps(writes, receivedAt))
  {
    WriteKeepsTimely(s, writes, generation, receivedAt, clock);
    WriteKeepsStamped(s, stamps, writes, generation + 1, receivedAt);
  }

  lemma WriteKeepsStamped(
    s: Store, stamps: map<ChunkKey, nat>, writes: seq<Write>, generation: nat, receivedAt: nat)
    requires Stamped(s, stamps)
    ensures Stamped(Written(s, writes, generation, receivedAt), stamps + WriteStamps(writes, receivedAt))
  {
    var r := Written(s, writes, generation, receivedAt);
    var stamps' := stamps + WriteStamps(writes, receivedAt);
    forall k | k in r.cache
      ensures k in stamps' && Ticket(k, r.cache[k].generation, stamps'[k]) in r.queue
    {
      WriteAllAt(s.cache, writes, generation, k);
      if i :| 0 <= i < |writes| && writes[i].key == k {
        assert r.queue[|s.queue| + i] == Ticket(k, generation, receivedAt);
      } else {
        assert Lookup(r.cache, k) == Lookup(s.cache, k);
        assert stamps'[k] == stamps[k];
      }
    }
  }

  lemma PruningKeepsTimely(s: Store, generation: nat, clock: nat)
    requires Timely(s, generation, clock)
    ensures Timely(Pruned(s), generation, clock)
  {
    LiveTicketsOrdered(s.cache, s.queue);
  }

  lemma StepKeepsTimely(s: Store, generation: nat, clock: nat, op: Op)
    requires Timely(s, generation, clock) && OpInTime(op, clock)
    ensures Timely(Step(s, generation, op), NextGeneration(generation, op), Clock(clock, op))
  {
    match op
    case Upsert(writes, receivedAt, maxEntries) =>
      WriteKeepsTimely(s, writes, generation, receivedAt, clock);
      EvictKeepsTimely(Written(s, writes, generation + 1, receivedAt), maxEntries, generation + 1, receivedAt);
    case Cleanup(now, retention, maxEntries) =>
      ExpireKeepsTimely(s, now, retention, generation, clock);
      EvictKeepsTimely(Expire(s, now, retention), maxEntries, generation, clock);
  }

  /** The index invariant of the cache: sound for its stamps, and no newer than its generation and clock. */
  ghost predicate IndexOk(s: Store, stamps: map<ChunkKey, nat>, generation: nat, clock: nat) {
    Sound(s, stamps) && Timely(s, generation, clock)
  }

  /** An upsert keeps the index invariant and the size limit. */
  lemma UpsertKeepsIndex(
    s: Store, stamps: map<ChunkKey, nat>, generation: nat, clock: nat, writes: seq<Write>, receivedAt: nat,
    maxEntries: nat)
    requires IndexOk(s, stamps, generation, clock) && clock <= receivedAt
    ensures var r := Step(s, generation, Op.Upsert(writes, receivedAt, maxEntries));
            IndexOk(r, stamps + WriteStamps(writes, receivedAt), generation + 1, receivedAt) && |r.cache| <= maxEntries
    ensures var w := Written(s, writes, generation + 1, receivedAt);
            PartOf(EvictTo(w, maxEntries).cache, w.cache)
            && OldestGone(EvictTo(w, maxEntries).cache, w.cache)
            && (|w.cache| <= maxEntries ==> EvictTo(w, maxEntries) == w)
  {
    WriteKeepsSound(s, stamps, writes, generation, receivedAt, clock);
    WriteKeepsTimely(s, writes, generation, receivedAt, clock);
    var w := Written(s, writes, generation + 1, receivedAt);
    EvictionRemovesOldest(w, stamps + WriteStamps(writes, receivedAt), maxEntries);
    EvictKeepsTimely(w, maxEntries, generation + 1, receivedAt);
  }

  /**
   A cleanup keeps the index invariant and the size limit; what remains was written within the retention, and what was
   written within it is lost to the size limit only.
   */
  lemma CleanupKeepsIndex(
    s: Store, stamps: map<ChunkKey, nat>, generation: nat, clock: nat, now: nat, retention: nat, maxEntries: nat)
    requires IndexOk(s, stamps, generation, clock)
    ensures var r := Step(s, generation, Op.Cleanup(now, retention, maxEntries));
            && IndexOk(r, stamps, generation, clock)
            && |r.cache| <= maxEntries
            && PartOf(r.cache, s.cache)
            && Fresh(r.cache, stamps, now, retention)
            && (OnlyStaleGone(r.cache, s.cache, stamps, now, retention) || |r.cache| == maxEntries)
  {
    var e := Expire(s, now, retention);
    ExpiryKeepsFresh(s, stamps, now, retention);
    ExpireKeepsTimely(s, now, retention, generation, clock);
    EvictionRemovesOldest(e, stamps, maxEntries);
    EvictKeepsTimely(e, maxEntries, generation, clock);
    FreshPart(EvictTo(e, maxEntries).cache, e.cache, stamps, now, retention);
  }

  lemma PruningKeepsIndex(s: Store, stamps: map<ChunkKey, nat>, generation: nat, clock: nat)
    requires IndexOk(s, stamps, generation, clock)
    ensures IndexOk(Pruned(s), stamps, generation, clock) && Alike(Pruned(s), s)
  {
    PruningIsAlike(s);
    PruningKeepsSound(s, stamps);
    PruningKeepsTimely(s, generation, clock);
  }

  lemma WrittenAlike(s: Store, r: Store, writes: seq<Write>, generation: nat, receivedAt: nat)
    requires Alike(s, r)
    requires forall t :: t in s.queue || t in r.queue ==> t.generation < generation
    ensures Alike(Written(s, writes, generation, receivedAt), Written(r, writes, generation, receivedAt))
  {
    var c' := WriteAll(s.cache, writes, generation);
    forall t | (t in s.queue || t in r.queue) && Live(c', t)
      ensures Live(s.cache, t)
    {
      WriteAllAt(s.cache, writes, generation, t.key);
      assert Lookup(c', t.key) == Lookup(s.cache, t.key);
    }
    RefilterLive(s.cache, c', s.queue);
    RefilterLive(s.cache, c', r.queue);
    LiveTicketsConcat(c', s.queue, WriteTickets(writes, generation, receivedAt));
    LiveTicketsConcat(c', r.queue, WriteTickets(writes, generation, receivedAt));
  }

  /** Alike stores stay alike under every operation. */
  lemma StepAlike(s: Store, r: Store, generation: nat, clock: nat, op: Op)
    requires Alike(s, r)
    requires Timely(s, generation, clock) && Timely(r, generation, clock)
    ensures Alike(Step(s, generation, op), Step(r, generation, op))
  {
    match op
    case Upsert(writes, receivedAt, maxEntries) =>
      var s', r' := Written(s, writes, generation + 1, receivedAt), Written(r, writes, generation + 1, receivedAt);
      WrittenAlike(s, r, writes, generation + 1, receivedAt);
      EvictPruned(s', maxEntries);
      EvictPruned(r', maxEntries);
    case Cleanup(now, retention, maxEntries) =>
      ExpirePruned(s, now, retention);
      ExpirePruned(r, now, retention);
      EvictPruned(Expire(s, now, retention), maxEntries);
      EvictPruned(Expire(r, now, retention), maxEntries);
  }

  /** A run in which every operation may be followed by pruning, as the flags say. */
  function Run(s: Store, generation: nat, ops: seq<Op>, prune: seq<bool>): (r: Store)
    requires |ops| == |prune|
    decreases |ops|
  {
    if ops == [] then s
    else
      var s' := Step(s, generation, ops[0]);
      Run(if prune[0] then Pruned(s') else s', NextGeneration(generation, ops[0]), ops[1..], prune[1..])
  }

  /** A run is one step after the other; every upsert before it has used up one generation. */
  lemma {:induction false} RunIsSteps(
    s: Store, generation: nat, ops: seq<Op>, prune: seq<bool>, op: Op, p: bool)
    requires |ops| == |prune|
    ensures Run(s, generation, [], []) == s
    ensures var before := Step(Run(s, generation, ops, prune), generation + Upserts(ops), op);
            Run(s, generation, ops + [op], prune + [p]) == if p then Pruned(before) else before
    decreases |ops|
  {
    hide Step, Pruned;
    if ops == [] {
      assert [op][1..] == [] && [p][1..] == [] && [] + [op] == [op] && [] + [p] == [p];
    } else {
      var s' := Step(s, generation, ops[0]);
      RunIsSteps(if prune[0] then Pruned(s') else s', NextGeneration(generation, ops[0]), ops[1..], prune[1..], op, p);
      assert (ops + [op])[1..] == ops[1..] + [op] && (prune + [p])[1..] == prune[1..] + [p];
    }
  }

  function Upserts(ops: seq<Op>): (n: nat)
    decreases |ops|
  {
    if ops == [] then 0 else (if ops[0].Upsert? then 1 else 0) + Upserts(ops[1..])
  }

  ghost predicate OpsInTime(ops: seq<Op>, clock: nat)
    decreases |ops|
  {
    ops == [] || (OpInTime(ops[0], clock) && OpsInTime(ops[1..], Clock(clock, ops[0])))
  }

  /** Whenever and however often the index is pruned, a run caches the same chunks with the same generations. */
  lemma {:induction false} PruningUnobservable(
    s: Store, r: Store, generation: nat, clock: nat, ops: seq<Op>, pruneS: seq<bool>, pruneR: seq<bool>)
    requires |ops| == |pruneS| == |pruneR|
    requires Alike(s, r)
    requires Timely(s, generation, clock) && Timely(r, generation, clock)
    requires OpsInTime(ops, clock)
    ensures Run(s, generation, ops, pruneS).cache == Run(r, generation, ops, pruneR).cache
    decreases |ops|
  {
    if ops != [] {
      var s', r' := Step(s, generation, ops[0]), Step(r, generation, ops[0]);
      StepAlike(s, r, generation, clock, ops[0]);
      StepKeepsTimely(s, generation, clock, ops[0]);
      StepKeepsTimely(r, generation, clock, ops[0]);
      var s'' := if pruneS[0] then Pruned(s') else s';
      var r'' := if pruneR[0] then Pruned(r') else r';
      PruningIsAlike(s');
      PruningIsAlike(r');
      PruningKeepsTimely(s', NextGeneration(generation, ops[0]), Clock(clock, ops[0]));
      PruningKeepsTimely(r', NextGeneration(generation, ops[0]), Clock(clock, ops[0]));
      PruningUnobservable(s'', r'', NextGeneration(generation, ops[0]), Clock(clock, ops[0]),
                          ops[1..], pruneS[1..], pruneR[1..]);
    }
  }
}
