/**
 Movement batches: every player's absolute state, packed in the order of the ids into datagrams of bounded size. The
 encoded size of an entry is a parameter; the packing adds its own margin.
 */
module Movement {
  import opened Prelude
  import opened Records
  import opened Snapshots
  import opened Positions

  const CHUNK_MAX_BYTES := 1024
  const MAX_CHUNKS_PER_TICK := 16
  const ENTRY_MARGIN := 4

  type Player = Upsert<string>
  type Chunk = seq<Player>

  function EntryBytes(encodedLen: Player -> nat, p: Player): (r: nat) {
    encodedLen(p) + ENTRY_MARGIN
  }

  function Bytes(encodedLen: Player -> nat, c: Chunk): (r: nat) {
    if c == [] then 0 else Bytes(encodedLen, c[..|c| - 1]) + EntryBytes(encodedLen, c[|c| - 1])
  }

  function Flatten(cs: seq<Chunk>): (r: seq<Player>) {
    if cs == [] then [] else cs[0] + Flatten(cs[1..])
  }

  lemma {:induction false} FlattenSnoc(cs: seq<Chunk>, c: Chunk)
    ensures Flatten(cs + [c]) == Flatten(cs) + c
  {
    if cs == [] {
      assert [c][1..] == [];
    } else {
      FlattenSnoc(cs[1..], c);
      assert (cs + [c])[1..] == cs[1..] + [c];
    }
  }

  lemma {:induction false} BytesOfPrefix(encodedLen: Player -> nat, c: Chunk, n: nat)
    requires n < |c|
    ensures Bytes(encodedLen, c[..n]) + EntryBytes(encodedLen, c[n]) <= Bytes(encodedLen, c)
  {
    hide EntryBytes;
    if n < |c| - 1 {
      var front := c[..|c| - 1];
      BytesOfPrefix(encodedLen, front, n);
      assert front[..n] == c[..n];
    }
  }

  // ---------------------------------------------------------------- greedy packing

  /** Within the budget, or a single entry that no chunk could hold otherwise. */
  predicate Fits(encodedLen: Player -> nat, c: Chunk) {
    c != [] && (|c| == 1 || Bytes(encodedLen, c) <= CHUNK_MAX_BYTES)
  }

  /** No chunk had room for the first entry of the next. */
  ghost predicate IsGreedy(encodedLen: Player -> nat, cs: seq<Chunk>) {
    && (forall i :: 0 <= i < |cs| ==> Fits(encodedLen, cs[i]))
    && forall i :: 0 < i < |cs| ==>
         Bytes(encodedLen, cs[i - 1]) + EntryBytes(encodedLen, cs[i][0]) > CHUNK_MAX_BYTES
  }

  /** A greedy packing of a prefix of the entries, cut off after one entry of the chunk past the limit. */
  ghost predicate IsBatch(encodedLen: Player -> nat, entries: seq<Player>, cs: seq<Chunk>) {
    && IsGreedy(encodedLen, cs) && Flatten(cs) <= entries
    && |cs| <= MAX_CHUNKS_PER_TICK + 1
    && (|cs| == MAX_CHUNKS_PER_TICK + 1 ==> |cs[MAX_CHUNKS_PER_TICK]| == 1)
    && (|cs| <= MAX_CHUNKS_PER_TICK ==> Flatten(cs) == entries)
  }

  lemma AppendChunk(encodedLen: Player -> nat, cs: seq<Chunk>, c: Chunk, p: Player)
    requires IsGreedy(encodedLen, cs + [c])
    ensures Bytes(encodedLen, c) + EntryBytes(encodedLen, p) > CHUNK_MAX_BYTES ==>
              IsGreedy(encodedLen, cs + [c] + [[p]])
    ensures Bytes(encodedLen, c) + EntryBytes(encodedLen, p) <= CHUNK_MAX_BYTES ==> IsGreedy(encodedLen, cs + [c + [p]])
    ensures Bytes(encodedLen, c + [p]) == Bytes(encodedLen, c) + EntryBytes(encodedLen, p)
    ensures Flatten(cs + [c] + [[p]]) == Flatten(cs + [c + [p]]) == Flatten(cs + [c]) + [p]
  {
    hide EntryBytes;
    FlattenSnoc(cs, c);
    FlattenSnoc(cs, c + [p]);
    FlattenSnoc(cs + [c], [p]);
    assert (c + [p])[..|c|] == c && [p][..0] == [];
    var a, b, d := cs + [c], cs + [c + [p]], cs + [c] + [[p]];
    assert Fits(encodedLen, a[|cs|]);
    if Bytes(encodedLen, c) + EntryBytes(encodedLen, p) <= CHUNK_MAX_BYTES {
      ReplaceLast(encodedLen, cs, c, c + [p]);
    }
  }

  lemma ReplaceLast(encodedLen: Player -> nat, cs: seq<Chunk>, c: Chunk, c': Chunk)
    requires IsGreedy(encodedLen, cs + [c]) && Fits(encodedLen, c') && c != [] && c[0] == c'[0]
    ensures IsGreedy(encodedLen, cs + [c'])
  {
    hide Bytes, EntryBytes;
    var a, b := cs + [c], cs + [c'];
    assert Fits(encodedLen, a[|cs|]);
    forall i | 0 <= i < |b|
      ensures Fits(encodedLen, b[i])
      ensures i > 0 ==> Bytes(encodedLen, b[i - 1]) + EntryBytes(encodedLen, b[i][0]) > CHUNK_MAX_BYTES
    {
      assert Fits(encodedLen, a[i]) && a[i][0] == b[i][0] && (i > 0 ==> a[i - 1] == b[i - 1]);
    }
  }

  /** Packs the entries; stops looking once the limit is reached, but still flushes what it holds. */
  method Pack(encodedLen: Player -> nat, entries: seq<Player>) returns (cs: seq<Chunk>)
    ensures IsBatch(encodedLen, entries, cs)
  {
    hide Fits, Bytes, Flatten, EntryBytes, IsGreedy;
    cs := [];
    var current: Chunk, bytes: nat := [], 0;
    var i := 0;
    Empty(encodedLen);
    while i < |entries| && |cs| < MAX_CHUNKS_PER_TICK
      invariant 0 <= i <= |entries| && |cs| <= MAX_CHUNKS_PER_TICK
      invariant bytes == Bytes(encodedLen, current)
      invariant (current == [] ==> cs == [] && i == 0) && (|cs| == MAX_CHUNKS_PER_TICK ==> |current| == 1)
      invariant current != [] ==> IsGreedy(encodedLen, cs + [current]) && Flatten(cs + [current]) == entries[..i]
    {
      var p := entries[i];
      assert entries[..i + 1] == entries[..i] + [p];
      if current == [] {
        FirstEntry(encodedLen, p);
      } else {
        AppendChunk(encodedLen, cs, current, p);
      }
      var size := EntryBytes(encodedLen, p);
      if current != [] && bytes + size > CHUNK_MAX_BYTES {
        cs := cs + [current];
        current, bytes := [], 0;
        FirstEntry(encodedLen, p);
      }
      current, bytes := current + [p], bytes + size;
      i := i + 1;
    }
    assert entries[..|entries|] == entries;
    if current != [] {
      cs := cs + [current];
    }
  }

  lemma Empty(encodedLen: Player -> nat)
    ensures IsGreedy(encodedLen, []) && Flatten([]) == [] && Bytes(encodedLen, []) == 0
  {
  }

  lemma FirstEntry(encodedLen: Player -> nat, p: Player)
    ensures IsGreedy(encodedLen, [] + [[] + [p]]) && Flatten([] + [[] + [p]]) == [p]
    ensures Bytes(encodedLen, [] + [p]) == EntryBytes(encodedLen, p) && [] + [p] == [p]
  {
  }

  // ---------------------------------------------------------------- the batch against the unlimited packing

  /** Any entries can be packed greedily. */
  lemma {:induction false} PackingExists(encodedLen: Player -> nat, entries: seq<Player>) returns (full: seq<Chunk>)
    ensures IsGreedy(encodedLen, full) && Flatten(full) == entries
  {
    hide Bytes, EntryBytes, Fits, IsGreedy, Flatten;
    if entries == [] {
      Empty(encodedLen);
      full := [];
    } else {
      var n := |entries| - 1;
      var p := entries[n];
      full := PackingExists(encodedLen, entries[..n]);
      assert entries == entries[..n] + [p];
      if full == [] {
        Empty(encodedLen);
        FirstEntry(encodedLen, p);
        full := [] + [[] + [p]];
      } else {
        var cs, c := full[..|full| - 1], full[|full| - 1];
        assert full == cs + [c];
        AppendChunk(encodedLen, cs, c, p);
        full := if Bytes(encodedLen, c) + EntryBytes(encodedLen, p) > CHUNK_MAX_BYTES then cs + [c] + [[p]]
                else cs + [c + [p]];
      }
    }
  }

  /**
   The batch refines the unlimited greedy packing: with at most sixteen chunks it is that packing; otherwise it is the
   first sixteen chunks and the first entry of the seventeenth.
   */
  lemma BatchIsTruncation(encodedLen: Player -> nat, entries: seq<Player>, full: seq<Chunk>, cs: seq<Chunk>)
    requires IsGreedy(encodedLen, full) && Flatten(full) == entries && IsBatch(encodedLen, entries, cs)
    ensures |full| <= MAX_CHUNKS_PER_TICK ==> cs == full
    ensures |full| > MAX_CHUNKS_PER_TICK ==>
              cs == full[..MAX_CHUNKS_PER_TICK] + [[full[MAX_CHUNKS_PER_TICK][0]]]
  {
    hide IsGreedy, Flatten;
    SamePrefix(encodedLen, full, cs);
    if |cs| <= MAX_CHUNKS_PER_TICK {
      SamePrefix(encodedLen, cs, full);
      if cs != [] {
        assert cs[|cs| - 1] == full[|cs| - 1];
        assert cs == cs[..|cs| - 1] + [cs[|cs| - 1]] && full == full[..|cs| - 1] + [full[|cs| - 1]];
      }
    } else {
      var last := cs[MAX_CHUNKS_PER_TICK];
      assert cs == cs[..MAX_CHUNKS_PER_TICK] + [last] && last == [last[0]];
    }
  }

  /** Greedy packings of entries and of a prefix of them agree, up to where the last chunk of the prefix ends. */
  lemma {:induction false} SamePrefix(encodedLen: Player -> nat, a: seq<Chunk>, b: seq<Chunk>)
    requires IsGreedy(encodedLen, a) && IsGreedy(encodedLen, b) && Flatten(b) <= Flatten(a)
    ensures |b| <= |a|
    ensures b != [] ==> b[..|b| - 1] == a[..|b| - 1] && b[|b| - 1] <= a[|b| - 1]
  {
    hide Bytes, EntryBytes, Fits;
    if b != [] {
      ChunksNonEmpty(encodedLen, b);
      assert a != [];
      ChunksNonEmpty(encodedLen, a);
      var all := Flatten(a);
      assert a[0] == all[..|a[0]|] && b[0] == all[..|b[0]|];
      assert |a| == 1 ==> a[1..] == [];
      if |b[0]| < |a[0]| {
        EndsOnlyWhenFull(encodedLen, a, b, all);
      } else if |b[0]| > |a[0]| {
        EndsOnlyWhenFull(encodedLen, b, a, all);
      } else {
        Tail(encodedLen, a);
        Tail(encodedLen, b);
        assert all[|a[0]|..] == Flatten(a[1..]) && Flatten(b)[|a[0]|..] == Flatten(b[1..]);
        SamePrefix(encodedLen, a[1..], b[1..]);
        if |b| > 1 {
          assert b[..|b| - 1] == [b[0]] + b[1..][..|b| - 2];
          assert a[..|b| - 1] == [a[0]] + a[1..][..|b| - 2];
        }
      }
    }
  }

  lemma ChunksNonEmpty(encodedLen: Player -> nat, cs: seq<Chunk>)
    requires cs != [] && IsGreedy(encodedLen, cs)
    ensures cs[0] != [] && Flatten(cs) != [] && cs[0] <= Flatten(cs)
  {
  }

  lemma Tail(encodedLen: Player -> nat, cs: seq<Chunk>)
    requires cs != [] && IsGreedy(encodedLen, cs)
    ensures IsGreedy(encodedLen, cs[1..])
  {
  }

  /** A chunk shorter than it could be is the last of its packing. */
  lemma EndsOnlyWhenFull(encodedLen: Player -> nat, a: seq<Chunk>, b: seq<Chunk>, all: seq<Player>)
    requires a != [] && b != [] && IsGreedy(encodedLen, a) && IsGreedy(encodedLen, b)
    requires Flatten(a) <= all && Flatten(b) <= all
    requires |b[0]| < |a[0]|
    ensures |b| == 1
  {
    hide Bytes, EntryBytes, Flatten;
    if |b| > 1 {
      var n := |b[0]|;
      SecondChunk(encodedLen, b);
      StartsWithFirst(a);
      assert a[0] == all[..|a[0]|] && b[0] == all[..n];
      assert a[0][..n] == b[0] && a[0][n] == b[1][0];
      BytesOfPrefix(encodedLen, a[0], n);
    }
  }

  lemma StartsWithFirst(cs: seq<Chunk>)
    requires cs != []
    ensures cs[0] <= Flatten(cs)
  {
  }

  lemma SecondChunk(encodedLen: Player -> nat, cs: seq<Chunk>)
    requires IsGreedy(encodedLen, cs) && |cs| > 1
    ensures cs[0] != [] && cs[1] != [] && cs[0] <= Flatten(cs)
    ensures |cs[0]| < |Flatten(cs)| && Flatten(cs)[|cs[0]|] == cs[1][0]
    ensures Bytes(encodedLen, cs[0]) + EntryBytes(encodedLen, cs[1][0]) > CHUNK_MAX_BYTES
  {
  }

  // ---------------------------------------------------------------- the roster

  /** Absolute state: the whole record, nothing to clear. */
  function Absolute(players: Table<string>, id: string): (p: Player)
    requires id in players
  {
    Upsert(id, players[id], [])
  }

  /** The players in the order of their ids. */
  ghost predicate IsRoster(players: Table<string>, entries: seq<Player>) {
    && (forall i, j :: 0 <= i < j < |entries| ==> StringLess(entries[i].id, entries[j].id))
    && (forall k :: k in players ==> Absolute(players, k) in entries)
    && forall p :: p in entries ==> p.id in players && p == Absolute(players, p.id)
  }

  method SortedRoster(players: Table<string>) returns (entries: seq<Player>)
    ensures IsRoster(players, entries)
  {
    hide StringLess;
    entries := [];
    var pending := players.Keys;
    while pending != {}
      invariant pending <= players.Keys
      invariant forall i, j :: 0 <= i < j < |entries| ==> StringLess(entries[i].id, entries[j].id)
      invariant forall k :: k in players && k !in pending ==> Absolute(players, k) in entries
      invariant forall p :: p in entries ==> p.id in players && p.id !in pending && p == Absolute(players, p.id)
    {
      var k :| k in pending;
      pending := pending - {k};
      entries := InsertById(entries, Absolute(players, k));
    }
  }

  lemma InsertedIsSorted(entries: seq<Player>, p: Player, n: nat)
    requires n <= |entries| && forall i, j :: 0 <= i < j < |entries| ==> StringLess(entries[i].id, entries[j].id)
    requires forall i :: 0 <= i < n ==> StringLess(entries[i].id, p.id)
    requires forall i :: n <= i < |entries| ==> StringLess(p.id, entries[i].id)
    ensures var r := entries[..n] + [p] + entries[n..];
            forall i, j :: 0 <= i < j < |r| ==> StringLess(r[i].id, r[j].id)
  {
    hide StringLess;
  }

  lemma InsertedMembers(entries: seq<Player>, p: Player, n: nat)
    requires n <= |entries|
    ensures forall q :: q in entries[..n] + [p] + entries[n..] <==> q in entries || q == p
  {
    assert entries == entries[..n] + entries[n..];
  }

  method InsertById(entries: seq<Player>, p: Player) returns (r: seq<Player>)
    requires forall i, j :: 0 <= i < j < |entries| ==> StringLess(entries[i].id, entries[j].id)
    requires forall q :: q in entries ==> q.id != p.id
    ensures forall i, j :: 0 <= i < j < |r| ==> StringLess(r[i].id, r[j].id)
    ensures forall q :: q in r <==> q in entries || q == p
  {
    hide StringLess;
    var n := |entries|;
    while n > 0 && StringLess(p.id, entries[n - 1].id)
      invariant 0 <= n <= |entries|
      invariant forall i :: n <= i < |entries| ==> StringLess(p.id, entries[i].id)
    {
      n := n - 1;
    }
    r := entries[..n] + [p] + entries[n..];
    forall i | 0 <= i < n
      ensures StringLess(entries[i].id, p.id)
    {
      assert entries[n - 1] in entries;
      StringLessTotal(entries[n - 1].id, p.id);
      if i < n - 1 {
        StringLessTransitive(entries[i].id, entries[n - 1].id, p.id);
      }
    }
    InsertedIsSorted(entries, p, n);
    InsertedMembers(entries, p, n);
  }

  /** The chunks are the batch of these players. */
  ghost predicate IsBatchOf(encodedLen: Player -> nat, players: Table<string>, cs: seq<Chunk>) {
    exists entries :: IsRoster(players, entries) && IsBatch(encodedLen, entries, cs)
  }

  method MovementBatch(players: Table<string>, encodedLen: Player -> nat) returns (cs: seq<Chunk>)
    ensures IsBatchOf(encodedLen, players, cs)
  {
    var roster := SortedRoster(players);
    cs := Pack(encodedLen, roster);
  }

  /** Nobody appears twice, and with at most sixteen chunks nobody is left out. */
  lemma NobodyTwice(players: Table<string>, encodedLen: Player -> nat, entries: seq<Player>, cs: seq<Chunk>)
    requires IsRoster(players, entries) && IsBatch(encodedLen, entries, cs)
    ensures DistinctIds(Flatten(cs))
    ensures |cs| <= MAX_CHUNKS_PER_TICK ==> forall k :: k in players <==> HasId(Flatten(cs), k)
  {
    hide IsGreedy, StringLess, Flatten;
    var all := Flatten(cs);
    forall i, j | 0 <= i < j < |all|
      ensures all[i].id != all[j].id
    {
      assert all[i] == entries[i] && all[j] == entries[j];
      StringLessTotal(entries[i].id, entries[j].id);
    }
    if |cs| <= MAX_CHUNKS_PER_TICK {
      forall k | k in players
        ensures HasId(all, k)
      {
        assert Absolute(players, k) in all;
      }
    }
  }

  /** The limit is exceeded by one chunk as soon as the roster needs more than sixteen: here each entry fills one. */
  lemma LimitExceededByOne(players: Table<string>, encodedLen: Player -> nat, entries: seq<Player>, cs: seq<Chunk>)
    requires IsRoster(players, entries) && IsBatch(encodedLen, entries, cs)
    requires |entries| > MAX_CHUNKS_PER_TICK && forall p :: p in entries ==> encodedLen(p) > CHUNK_MAX_BYTES / 2
    ensures |cs| == MAX_CHUNKS_PER_TICK + 1
  {
    hide Bytes, EntryBytes, StringLess;
    if |cs| <= MAX_CHUNKS_PER_TICK {
      forall i | 0 <= i < |cs|
        ensures |cs[i]| == 1
      {
        ChunkOfLarge(encodedLen, cs, i);
      }
      SingleEntries(cs);
    }
  }

  lemma ChunkOfLarge(encodedLen: Player -> nat, cs: seq<Chunk>, i: nat)
    requires IsGreedy(encodedLen, cs) && i < |cs|
    requires forall p :: p in Flatten(cs) ==> encodedLen(p) > CHUNK_MAX_BYTES / 2
    ensures |cs[i]| == 1
  {
    assert Fits(encodedLen, cs[i]);
    InFlatten(cs, i);
    if |cs[i]| > 1 {
      LargeEntriesOverflow(encodedLen, cs[i]);
    }
  }

  lemma LargeEntriesOverflow(encodedLen: Player -> nat, c: Chunk)
    requires |c| > 1 && forall p :: p in c ==> encodedLen(p) > CHUNK_MAX_BYTES / 2
    ensures Bytes(encodedLen, c) > CHUNK_MAX_BYTES
  {
  }

  lemma {:induction false} InFlatten(cs: seq<Chunk>, i: nat)
    requires i < |cs|
    ensures forall p :: p in cs[i] ==> p in Flatten(cs)
  {
    if i > 0 {
      InFlatten(cs[1..], i - 1);
    }
  }

  lemma {:induction false} SingleEntries(cs: seq<Chunk>)
    requires forall i :: 0 <= i < |cs| ==> |cs[i]| == 1
    ensures |Flatten(cs)| == |cs|
  {
    if cs != [] {
      SingleEntries(cs[1..]);
    }
  }

  // ---------------------------------------------------------------- what a client makes of the datagrams

  /** The client's record has every field of the target with its value. */
  ghost predicate UpToDate(held: Table<string>, target: Table<string>, k: string) {
    k in held && k in target && forall f :: f in target[k] ==> Lookup(held[k], f) == Some(target[k][f])
  }

  ghost predicate FromTarget(target: Table<string>, c: Chunk) {
    DistinctIds(c) && forall p :: p in c ==> p.id in target && p == Absolute(target, p.id)
  }

  /** Every chunk of a batch is a datagram of its players. */
  lemma BatchIsFromTarget(encodedLen: Player -> nat, players: Table<string>, cs: seq<Chunk>, i: nat)
    requires IsBatchOf(encodedLen, players, cs) && i < |cs|
    ensures FromTarget(players, cs[i])
  {
    hide IsGreedy, StringLess;
    var entries :| IsRoster(players, entries) && IsBatch(encodedLen, entries, cs);
    NobodyTwice(players, encodedLen, entries, cs);
    var at := ChunkInFlatten(cs, i);
    var c, all := cs[i], Flatten(cs);
    forall p | p in c
      ensures p.id in players && p == Absolute(players, p.id)
    {
      var j :| 0 <= j < |c| && c[j] == p;
      assert all[at + j] == p && entries[at + j] == p;
    }
    forall j, k | 0 <= j < k < |c|
      ensures c[j].id != c[k].id
    {
      assert all[at + j] == c[j] && all[at + k] == c[k];
    }
  }

  /** Where a chunk starts in the entries. */
  lemma {:induction false} ChunkInFlatten(cs: seq<Chunk>, i: nat) returns (at: nat)
    requires i < |cs|
    ensures at + |cs[i]| <= |Flatten(cs)| && Flatten(cs)[at..at + |cs[i]|] == cs[i]
    decreases i
  {
    at := 0;
    if i > 0 {
      var rest := ChunkInFlatten(cs[1..], i - 1);
      at := |cs[0]| + rest;
    }
  }

  lemma ChunkApplies(held: Table<string>, target: Table<string>, c: Chunk)
    requires SameSettled(held, target) && FromTarget(target, c)
    ensures SameSettled(ApplyScope(HonourClears, held, Scope(c, [])), target)
    ensures forall k :: UpToDate(held, target, k) || HasId(c, k)
              ==> UpToDate(ApplyScope(HonourClears, held, Scope(c, [])), target, k)
  {
    var after := ApplyScope(HonourClears, held, Scope(c, []));
    forall k
      ensures SettledAt(after, k) == SettledAt(target, k)
      ensures UpToDate(held, target, k) || HasId(c, k) ==> UpToDate(after, target, k)
    {
      assert SettledAt(held, k) == SettledAt(target, k);
      ApplyScopeAt(HonourClears, held, Scope(c, []), k);
      if HasId(c, k) {
        var i :| 0 <= i < |c| && c[i].id == k;
        assert c[i] in c;
        AbsoluteMerge(held[k], target[k]);
      }
    }
  }

  lemma AbsoluteMerge(held: Record, target: Record)
    requires Settled(held) == Settled(target)
    ensures Settled(ApplyDelta(Clear(held, []), target)) == Settled(target)
  {
  }

  function ApplyChunks(held: Table<string>, received: seq<Chunk>): (r: Table<string>) {
    if received == [] then held
    else ApplyScope(HonourClears, ApplyChunks(held, received[..|received| - 1]), Scope(received[|received| - 1], []))
  }

  /**
   Any datagrams of the target, lost, repeated or reordered at will, leave a client that is settled with the target
   settled with it, and bring every player they carry up to date, positions included.
   */
  lemma {:induction false} DatagramsConverge(held: Table<string>, target: Table<string>, received: seq<Chunk>)
    requires SameSettled(held, target) && forall c :: c in received ==> FromTarget(target, c)
    ensures SameSettled(ApplyChunks(held, received), target)
    ensures forall c, k :: c in received && HasId(c, k) ==> UpToDate(ApplyChunks(held, received), target, k)
  {
    hide SameSettled, FromTarget, UpToDate, HasId, ApplyScope;
    if received != [] {
      var n := |received| - 1;
      assert received == received[..n] + [received[n]];
      DatagramsConverge(held, target, received[..n]);
      ChunkApplies(ApplyChunks(held, received[..n]), target, received[n]);
    }
  }

  /**
   A settled client that gets chunks of a batch, in any order and some of them repeatedly, stays settled and is up to
   date on every player they carry; if all of at most sixteen chunks arrive, on everyone.
   */
  lemma BatchConverges(
    held: Table<string>, target: Table<string>, encodedLen: Player -> nat, cs: seq<Chunk>, received: seq<Chunk>)
    requires SameSettled(held, target) && IsBatchOf(encodedLen, target, cs) && forall c :: c in received ==> c in cs
    ensures SameSettled(ApplyChunks(held, received), target)
    ensures forall c, k :: c in received && HasId(c, k) ==> UpToDate(ApplyChunks(held, received), target, k)
    ensures |cs| <= MAX_CHUNKS_PER_TICK && (forall c :: c in cs ==> c in received) ==>
              forall k :: k in target ==> UpToDate(ApplyChunks(held, received), target, k)
  {
    hide SameSettled, FromTarget, UpToDate, IsRoster, IsBatch, ApplyChunks;
    forall c | c in received
      ensures FromTarget(target, c)
    {
      var i :| 0 <= i < |cs| && cs[i] == c;
      BatchIsFromTarget(encodedLen, target, cs, i);
    }
    DatagramsConverge(held, target, received);
    if |cs| <= MAX_CHUNKS_PER_TICK && forall c :: c in cs ==> c in received {
      var entries :| IsRoster(target, entries) && IsBatch(encodedLen, entries, cs);
      NobodyTwice(target, encodedLen, entries, cs);
      forall k | k in target
        ensures UpToDate(ApplyChunks(held, received), target, k)
      {
        var i := ChunkOf(cs, k);
        assert cs[i] in cs;
      }
    }
  }

  lemma {:induction false} ChunkOf(cs: seq<Chunk>, k: string) returns (i: nat)
    requires HasId(Flatten(cs), k)
    ensures i < |cs| && HasId(cs[i], k)
  {
    var j :| 0 <= j < |Flatten(cs)| && Flatten(cs)[j].id == k;
    if j < |cs[0]| {
      i := 0;
      assert cs[0][j].id == k;
    } else {
      assert Flatten(cs[1..])[j - |cs[0]|].id == k;
      i := ChunkOf(cs[1..], k);
      i := i + 1;
    }
  }
}
