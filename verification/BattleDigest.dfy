/**
 What the battle digest hashes, from the cache and from a list of wire entries, under both digest contracts.

 The hash is represented by the lines fed to it. A JSON object written with its fields in a fixed order is the map of
 those fields.
 */
module BattleDigest {
  import opened Prelude
  import opened Records
  import opened BattleLog
  import BattleIndex
  import opened BattleCache
  import opened BattleKeys

  datatype Contract = LegacyKeyed | StructuredV2

  const COLOR_MODE := "colorMode"

  const HASHED_FIELDS :=
    [COLOR_MODE, "colorNote", COLOR_RAW, "colorSemanticKey", "markerType", MODE, "roomCode", "symbol"]

  // ---------------------------------------------------------------- the order of the lines

  /** Legacy digests sort by the textual key, structured ones by dimension and coordinates. */
  predicate Before(contract: Contract, j: ChunkKey, k: ChunkKey) {
    if contract.LegacyKeyed? then StringLess(BattleKey(j), BattleKey(k))
    else if j.dimension != k.dimension then StringLess(j.dimension, k.dimension)
    else if j.chunkX != k.chunkX then j.chunkX < k.chunkX
    else j.chunkZ < k.chunkZ
  }

  lemma BeforeTotal(contract: Contract, j: ChunkKey, k: ChunkKey)
    ensures j == k || Before(contract, j, k) || Before(contract, k, j)
    ensures !(Before(contract, j, k) && Before(contract, k, j))
  {
    hide BattleKey;
    StringLessTotal(BattleKey(j), BattleKey(k));
    StringLessTotal(j.dimension, k.dimension);
    if BattleKey(j) == BattleKey(k) {
      KeysAreInjective(j, k);
    }
  }

  lemma BeforeTransitive(contract: Contract, i: ChunkKey, j: ChunkKey, k: ChunkKey)
    requires Before(contract, i, j) && Before(contract, j, k)
    ensures Before(contract, i, k)
  {
    hide BattleKey;
    if contract.LegacyKeyed? {
      StringLessTransitive(BattleKey(i), BattleKey(j), BattleKey(k));
    } else if i.dimension != j.dimension && j.dimension != k.dimension {
      StringLessTransitive(i.dimension, j.dimension, k.dimension);
      StringLessTotal(j.dimension, k.dimension);
    }
  }

  ghost predicate Ascending(contract: Contract, ks: seq<ChunkKey>) {
    forall i, j :: 0 <= i < j < |ks| ==> Before(contract, ks[i], ks[j])
  }

  /** A set of keys can be listed in ascending order in one way only. */
  lemma {:induction false} ListingIsUnique(contract: Contract, a: seq<ChunkKey>, b: seq<ChunkKey>)
    requires Ascending(contract, a) && Ascending(contract, b)
    requires forall k :: k in a <==> k in b
    ensures a == b
  {
    hide Before;
    assert (a != [] ==> a[0] in a) && (b != [] ==> b[0] in b);
    if a != [] && b != [] {
      SameFirst(contract, a, b);
      SameRest(contract, a, b);
      ListingIsUnique(contract, a[1..], b[1..]);
      assert a == [a[0]] + a[1..] && b == [b[0]] + b[1..];
    }
  }

  lemma SameFirst(contract: Contract, a: seq<ChunkKey>, b: seq<ChunkKey>)
    requires a != [] && b != [] && Ascending(contract, a) && Ascending(contract, b)
    requires a[0] in b && b[0] in a
    ensures a[0] == b[0]
  {
    hide Before;
    BeforeTotal(contract, a[0], b[0]);
    var i :| 0 <= i < |b| && b[i] == a[0];
    var j :| 0 <= j < |a| && a[j] == b[0];
    FirstComesFirst(contract, b, i);
    FirstComesFirst(contract, a, j);
  }

  lemma FirstComesFirst(contract: Contract, ks: seq<ChunkKey>, i: nat)
    requires Ascending(contract, ks) && i < |ks|
    ensures i == 0 || Before(contract, ks[0], ks[i])
  {
  }

  lemma SameRest(contract: Contract, a: seq<ChunkKey>, b: seq<ChunkKey>)
    requires a != [] && b != [] && a[0] == b[0] && Ascending(contract, a) && Ascending(contract, b)
    requires forall k :: k in a <==> k in b
    ensures Ascending(contract, a[1..]) && Ascending(contract, b[1..])
    ensures forall k :: k in a[1..] <==> k in b[1..]
  {
    hide Before;
    FirstNotInRest(contract, a);
    FirstNotInRest(contract, b);
    assert forall k :: k in a[1..] <==> k in a && k != a[0] by {
      assert a == [a[0]] + a[1..];
    }
    assert forall k :: k in b[1..] <==> k in b && k != b[0] by {
      assert b == [b[0]] + b[1..];
    }
  }

  lemma FirstNotInRest(contract: Contract, a: seq<ChunkKey>)
    requires a != [] && Ascending(contract, a)
    ensures a[0] !in a[1..] && Ascending(contract, a[1..])
  {
    hide Before;
    BeforeTotal(contract, a[0], a[0]);
    forall i | 0 <= i < |a[1..]|
      ensures a[1..][i] != a[0]
    {
      assert Before(contract, a[0], a[i + 1]);
    }
    forall i, j | 0 <= i < j < |a[1..]|
      ensures Before(contract, a[1..][i], a[1..][j])
    {
      assert Before(contract, a[i + 1], a[j + 1]);
    }
  }

  // ---------------------------------------------------------------- lines

  datatype Line =
    | Keyed(key: string, chunkX: Int32, chunkZ: Int32, dimension: string, data: Record)
    | Structured(data: Record, chunkX: Int32, chunkZ: Int32, dimension: string)

  /** The hashed fields of a value; a missing colour mode is written as its default. */
  function Written(v: Record, includeMode: bool): (r: Record) {
    map f | f in HASHED_FIELDS && (f in v || f == COLOR_MODE) && (f == MODE ==> includeMode)
      :: if f in v then v[f] else Text("raw_observed")
  }

  function LineOf(contract: Contract, k: ChunkKey, v: Record, includeMode: bool): (r: Line) {
    if contract.LegacyKeyed? then Keyed(BattleKey(k), k.chunkX, k.chunkZ, k.dimension, Written(v, includeMode))
    else Structured(Written(v, includeMode), k.chunkX, k.chunkZ, k.dimension)
  }

  /** `stream` lists the lines of a table in the order of the contract. */
  ghost predicate IsStream(contract: Contract, t: Table<ChunkKey>, includeMode: bool, stream: seq<Line>) {
    exists ks: seq<ChunkKey> :: IsListing(contract, t, ks) && IsLines(contract, t, includeMode, ks, stream)
  }

  ghost predicate IsListing(contract: Contract, t: Table<ChunkKey>, ks: seq<ChunkKey>) {
    Ascending(contract, ks) && forall k :: k in ks <==> k in t
  }

  ghost predicate IsLines(
    contract: Contract, t: Table<ChunkKey>, includeMode: bool, ks: seq<ChunkKey>, stream: seq<Line>)
  {
    |stream| == |ks|
    && forall i :: 0 <= i < |ks| ==> ks[i] in t && stream[i] == LineOf(contract, ks[i], t[ks[i]], includeMode)
  }

  /** A table has one digest. */
  lemma StreamIsUnique(contract: Contract, t: Table<ChunkKey>, includeMode: bool, s1: seq<Line>, s2: seq<Line>)
    requires IsStream(contract, t, includeMode, s1) && IsStream(contract, t, includeMode, s2)
    ensures s1 == s2
  {
    hide IsListing, IsLines;
    var a :| IsListing(contract, t, a) && IsLines(contract, t, includeMode, a, s1);
    var b :| IsListing(contract, t, b) && IsLines(contract, t, includeMode, b, s2);
    SameLinesOf(contract, t, t, includeMode, a, b, s1, s2);
  }

  lemma SameLinesOf(
    contract: Contract, a: Table<ChunkKey>, b: Table<ChunkKey>, includeMode: bool, ka: seq<ChunkKey>,
    kb: seq<ChunkKey>, s1: seq<Line>, s2: seq<Line>)
    requires (forall k :: k in a <==> k in b)
    requires forall k :: k in a && k in b ==> Written(a[k], includeMode) == Written(b[k], includeMode)
    requires IsListing(contract, a, ka) && IsLines(contract, a, includeMode, ka, s1)
    requires IsListing(contract, b, kb) && IsLines(contract, b, includeMode, kb, s2)
    ensures s1 == s2
  {
    hide Ascending, Written, BattleKey;
    ListingIsUnique(contract, ka, kb);
  }

  // ---------------------------------------------------------------- from the cache and from wire entries

  datatype Item = Item(key: ChunkKey, value: Record)

  ghost predicate Sorted(contract: Contract, items: seq<Item>) {
    forall i, j :: 0 <= i < j < |items| ==> !Before(contract, items[j].key, items[i].key)
  }

  /** Inserts behind everything that does not come after the item, so that sorting is stable. */
  method Insert(contract: Contract, items: seq<Item>, item: Item) returns (r: seq<Item>)
    requires Sorted(contract, items)
    ensures Sorted(contract, r) && multiset(r) == multiset(items) + multiset{item}
  {
    hide Before;
    var n := |items|;
    while n > 0 && Before(contract, item.key, items[n - 1].key)
      invariant 0 <= n <= |items|
      invariant forall i :: n <= i < |items| ==> Before(contract, item.key, items[i].key)
    {
      n := n - 1;
    }
    r := items[..n] + [item] + items[n..];
    assert items == items[..n] + items[n..];
    InsertedIsSorted(contract, items, item, n);
  }

  lemma InsertedIsSorted(contract: Contract, items: seq<Item>, item: Item, n: nat)
    requires Sorted(contract, items)
    requires n <= |items| && forall i :: n <= i < |items| ==> Before(contract, item.key, items[i].key)
    requires n > 0 ==> !Before(contract, item.key, items[n - 1].key)
    ensures Sorted(contract, items[..n] + [item] + items[n..])
  {
    hide Before;
    forall i | 0 <= i < n
      ensures !Before(contract, item.key, items[i].key)
    {
      NotBeforeTransitive(contract, item.key, items[n - 1].key, items[i].key);
    }
    forall i | n <= i < |items|
      ensures !Before(contract, items[i].key, item.key)
    {
      BeforeTotal(contract, item.key, items[i].key);
    }
  }

  lemma NotBeforeTransitive(contract: Contract, i: ChunkKey, j: ChunkKey, k: ChunkKey)
    requires !Before(contract, i, j) && (j == k || !Before(contract, j, k))
    ensures !Before(contract, i, k)
  {
    hide Before;
    BeforeTotal(contract, i, j);
    BeforeTotal(contract, j, k);
    BeforeTotal(contract, i, k);
    if Before(contract, i, k) && j != k && i != j {
      BeforeTransitive(contract, k, j, i);
    }
  }

  method SortItems(contract: Contract, items: seq<Item>) returns (r: seq<Item>)
    ensures Sorted(contract, r) && multiset(r) == multiset(items)
  {
    r := [];
    for i := 0 to |items|
      invariant Sorted(contract, r) && multiset(r) == multiset(items[..i])
    {
      assert items[..i + 1] == items[..i] + [items[i]];
      SameMembers(r, items[..i]);
      r := Insert(contract, r, items[i]);
    }
    assert items[..|items|] == items;
  }

  lemma SameMembers(a: seq<Item>, b: seq<Item>)
    requires multiset(a) == multiset(b)
    ensures |a| == |b| && forall x :: x in a <==> x in b
  {
    assert |multiset(a)| == |multiset(b)|;
    assert forall x :: x in a <==> x in multiset(a);
    assert forall x :: x in b <==> x in multiset(b);
  }

  method WriteLines(contract: Contract, items: seq<Item>, includeMode: bool) returns (stream: seq<Line>)
    ensures |stream| == |items|
    ensures forall i :: 0 <= i < |items| ==> stream[i] == LineOf(contract, items[i].key, items[i].value, includeMode)
  {
    hide LineOf;
    stream := [];
    for i := 0 to |items|
      invariant |stream| == i
      invariant forall j :: 0 <= j < i ==> stream[j] == LineOf(contract, items[j].key, items[j].value, includeMode)
    {
      stream := stream + [LineOf(contract, items[i].key, items[i].value, includeMode)];
    }
  }

  /** The items are the rows of the table, each once. */
  ghost predicate IsRows(t: Table<ChunkKey>, items: seq<Item>) {
    && (forall i, j :: 0 <= i < j < |items| ==> items[i].key != items[j].key)
    && (forall x :: x in items ==> x.key in t && t[x.key] == x.value)
    && forall k :: k in t ==> Item(k, t[k]) in items
  }

  lemma SortedRowsStream(
    contract: Contract, t: Table<ChunkKey>, items: seq<Item>, includeMode: bool, stream: seq<Line>)
    requires Sorted(contract, items) && IsRows(t, items) && |stream| == |items|
    requires forall i :: 0 <= i < |items| ==> stream[i] == LineOf(contract, items[i].key, items[i].value, includeMode)
    ensures IsStream(contract, t, includeMode, stream)
  {
    hide Before, LineOf;
    var ks := seq(|items|, i requires 0 <= i < |items| => items[i].key);
    forall i, j | 0 <= i < j < |ks|
      ensures Before(contract, ks[i], ks[j])
    {
      assert items[i] in items && items[j] in items;
      BeforeTotal(contract, ks[i], ks[j]);
    }
    forall k | k in t
      ensures k in ks
    {
      var i :| 0 <= i < |items| && items[i] == Item(k, t[k]);
      assert ks[i] == k;
    }
    forall i | 0 <= i < |ks|
      ensures ks[i] in t && t[ks[i]] == items[i].value
    {
      assert items[i] in items;
    }
    assert IsListing(contract, t, ks) && IsLines(contract, t, includeMode, ks, stream);
  }

  /** Reordering keeps the rows of a table. */
  lemma RowsInAnyOrder(t: Table<ChunkKey>, a: seq<Item>, b: seq<Item>)
    requires IsRows(t, a) && multiset(a) == multiset(b)
    ensures IsRows(t, b)
  {
    SameMembers(a, b);
    forall i, j | 0 <= i < j < |b|
      ensures b[i].key != b[j].key
    {
      if b[i].key == b[j].key {
        assert b[i] in a && b[j] in a;
        OnlyOnce(t, a, b[i]);
        Twice(b, i, j);
      }
    }
  }

  lemma Twice(b: seq<Item>, i: nat, j: nat)
    requires i < j < |b| && b[i] == b[j]
    ensures multiset(b)[b[i]] >= 2
  {
    assert b == b[..j] + [b[j]] + b[j + 1..];
    assert b[..j][i] == b[i];
  }

  lemma {:induction false} OnlyOnce(t: Table<ChunkKey>, a: seq<Item>, x: Item)
    requires forall i, j :: 0 <= i < j < |a| ==> a[i].key != a[j].key
    ensures multiset(a)[x] <= 1
  {
    if a != [] {
      var front := a[..|a| - 1];
      assert a == front + [a[|a| - 1]];
      OnlyOnce(t, front, x);
      if a[|a| - 1] == x {
        assert x !in front;
      }
    }
  }

  /** The digest of the cache: every entry, with its mode only if asked for. */
  method CacheDigest(contract: Contract, cache: Table<ChunkKey>, includeMode: bool) returns (stream: seq<Line>)
    ensures IsStream(contract, cache, includeMode, stream)
  {
    hide Before, LineOf;
    var items: seq<Item> := [];
    var pending := cache.Keys;
    while pending != {}
      invariant pending <= cache.Keys
      invariant forall i, j :: 0 <= i < j < |items| ==> items[i].key != items[j].key
      invariant forall x :: x in items ==> x.key in cache && x.key !in pending && cache[x.key] == x.value
      invariant forall k :: k in cache && k !in pending ==> Item(k, cache[k]) in items
    {
      var k :| k in pending;
      pending := pending - {k};
      items := items + [Item(k, cache[k])];
    }
    var sorted := SortItems(contract, items);
    RowsInAnyOrder(cache, items, sorted);
    stream := WriteLines(contract, sorted, includeMode);
    SortedRowsStream(contract, cache, sorted, includeMode, stream);
  }

  datatype WireEntry = WireEntry(chunkRef: Option<ChunkRef>, data: Option<Record>)

  /** What the digest takes from a wire entry; None if it has no coordinate, no dimension or no data. */
  function Hashed(e: WireEntry): (r: Option<Item>) {
    if e.chunkRef.None? || e.data.None? || e.chunkRef.value.coord.None?
       || Trim(e.chunkRef.value.dimension) == "" then None
    else
      var (x, z) := e.chunkRef.value.coord.value;
      Some(Item(ChunkKey(Trim(e.chunkRef.value.dimension), x, z), e.data.value))
  }

  function HashedItems(es: seq<WireEntry>): (r: seq<Item>) {
    if es == [] then []
    else
      var last := Hashed(es[|es| - 1]);
      HashedItems(es[..|es| - 1]) + if last.Some? then [last.value] else []
  }

  /** The digest of a list of wire entries. */
  method ChunkDigest(contract: Contract, es: seq<WireEntry>, includeMode: bool) returns (stream: seq<Line>)
    ensures |stream| == |HashedItems(es)|
    ensures forall t :: IsRows(t, HashedItems(es)) ==> IsStream(contract, t, includeMode, stream)
  {
    hide Before, LineOf, IsStream, IsRows, Hashed;
    var items: seq<Item> := [];
    for i := 0 to |es|
      invariant items == HashedItems(es[..i])
    {
      assert es[..i + 1][..i] == es[..i];
      var item := Hashed(es[i]);
      if item.Some? {
        items := items + [item.value];
      }
    }
    assert es[..|es|] == es;
    var sorted := SortItems(contract, items);
    SameMembers(sorted, items);
    stream := WriteLines(contract, sorted, includeMode);
    forall t | IsRows(t, items)
      ensures IsStream(contract, t, includeMode, stream)
    {
      RowsInAnyOrder(t, items, sorted);
      SortedRowsStream(contract, t, sorted, includeMode, stream);
    }
  }

  // ---------------------------------------------------------------- the two digests

  /** The wire entries are the rows of the table, each once and in any order. */
  ghost predicate ListsTable(es: seq<WireEntry>, t: Table<ChunkKey>) {
    && (forall i, j :: 0 <= i < j < |es| ==> es[i].chunkRef != es[j].chunkRef)
    && (forall e :: e in es ==> exists k :: k in t && e == EntryOf(k, t[k]))
    && forall k :: k in t ==> EntryOf(k, t[k]) in es
  }

  function EntryOf(k: ChunkKey, v: Record): (e: WireEntry) {
    WireEntry(Some(ChunkRef(k.dimension, Some((k.chunkX, k.chunkZ)))), Some(v))
  }

  lemma {:induction false} ListedItems(es: seq<WireEntry>, t: Table<ChunkKey>)
    requires forall e :: e in es ==> Hashed(e).Some?
    ensures |HashedItems(es)| == |es|
    ensures forall i :: 0 <= i < |es| ==> HashedItems(es)[i] == Hashed(es[i]).value
  {
    hide Hashed;
    if es != [] {
      ListedItems(es[..|es| - 1], t);
    }
  }

  lemma ListedRows(es: seq<WireEntry>, t: Table<ChunkKey>)
    requires ListsTable(es, t) && TrimmedKeys(t.Keys)
    ensures IsRows(t, HashedItems(es))
  {
    hide Trim, HashedItems;
    forall e | e in es
      ensures Hashed(e).Some? && Hashed(e).value.key in t && e == EntryOf(Hashed(e).value.key, Hashed(e).value.value)
              && t[Hashed(e).value.key] == Hashed(e).value.value
    {
      var k :| k in t && e == EntryOf(k, t[k]);
      assert Hashed(e) == Some(Item(k, t[k]));
    }
    ListedItems(es, t);
    forall k | k in t
      ensures Item(k, t[k]) in HashedItems(es)
    {
      var i :| 0 <= i < |es| && es[i] == EntryOf(k, t[k]);
      assert HashedItems(es)[i] == Item(k, t[k]);
    }
  }

  /** Hidden fields do not matter, and a mode removed is a mode not hashed. */
  lemma ProjectionHashesAlike(v: Record, includeMode: bool)
    ensures Written(Project(v, includeMode), includeMode) == Written(v, includeMode)
  {
    hide Written;
    forall f | f == "colorRaw" || f in CLEARABLE_FIELDS
      ensures (f == "mode" ==> includeMode) ==> Lookup(Project(v, includeMode), f) == Lookup(v, f)
    {
      PrivateIsNotPublic(f);
    }
    Public("colorMode");
    Public("mode");
    WrittenExact(Project(v, includeMode), v, includeMode);
  }

  lemma ProjectedLine(contract: Contract, k: ChunkKey, v: Record, includeMode: bool)
    ensures LineOf(contract, k, Project(v, includeMode), includeMode) == LineOf(contract, k, v, includeMode)
  {
    ProjectionHashesAlike(v, includeMode);
  }

  lemma ProjectedStream(contract: Contract, cache: ChunkMap, includeMode: bool, stream: seq<Line>)
    requires IsStream(contract, cache, includeMode, stream)
    ensures IsStream(contract, ProjectAll(cache, includeMode), includeMode, stream)
  {
    hide IsStream, LineOf, Project, IsChunkValue;
    var t := ProjectAll(cache, includeMode);
    forall k | k in t
      ensures LineOf(contract, k, t[k], includeMode) == LineOf(contract, k, cache[k], includeMode)
    {
      ProjectedLine(contract, k, cache[k], includeMode);
    }
    StreamsAlike(contract, cache, t, includeMode, stream);
  }

  lemma StreamsAlike(contract: Contract, a: Table<ChunkKey>, b: Table<ChunkKey>, includeMode: bool, stream: seq<Line>)
    requires (forall k :: k in a <==> k in b) && IsStream(contract, a, includeMode, stream)
    requires forall k :: k in a && k in b ==>
               LineOf(contract, k, a[k], includeMode) == LineOf(contract, k, b[k], includeMode)
    ensures IsStream(contract, b, includeMode, stream)
  {
    hide IsListing, IsLines;
    var ks :| IsListing(contract, a, ks) && IsLines(contract, a, includeMode, ks, stream);
    LinesAlike(contract, a, b, includeMode, ks, stream);
  }

  lemma LinesAlike(
    contract: Contract, a: Table<ChunkKey>, b: Table<ChunkKey>, includeMode: bool, ks: seq<ChunkKey>, stream: seq<Line>)
    requires IsListing(contract, a, ks) && IsLines(contract, a, includeMode, ks, stream)
    requires forall k :: k in a <==> k in b
    requires forall k :: k in a && k in b ==>
               LineOf(contract, k, a[k], includeMode) == LineOf(contract, k, b[k], includeMode)
    ensures IsListing(contract, b, ks) && IsLines(contract, b, includeMode, ks, stream)
  {
  }

  /** What the relay hashes directly is what hashing the projected entries gives, in whatever order they are listed. */
  lemma DigestOfListing(
    contract: Contract, cache: ChunkMap, es: seq<WireEntry>, includeMode: bool, direct: seq<Line>, listed: seq<Line>)
    requires IsStream(contract, cache, includeMode, direct)
    requires ListsTable(es, ProjectAll(cache, includeMode))
    requires forall t :: IsRows(t, HashedItems(es)) ==> IsStream(contract, t, includeMode, listed)
    requires TrimmedKeys(cache.Keys)
    ensures direct == listed
  {
    hide IsStream, IsRows, ListsTable, HashedItems, Trim;
    var t := ProjectAll(cache, includeMode);
    ProjectedStream(contract, cache, includeMode, direct);
    ListedRows(es, t);
    StreamIsUnique(contract, t, includeMode, direct, listed);
  }

  /**
   The two digests agree for every cache in every state it can reach: what it hashes directly is what a client hashes
   that lists its full entries, in any order, under both contracts and with or without modes.
   */
  lemma DigestsAgree(
    contract: Contract, cache: BattleRoomCache, es: seq<WireEntry>, includeMode: bool, direct: seq<Line>,
    listed: seq<Line>)
    requires cache.Valid()
    requires IsStream(contract, BattleIndex.Values(cache.entries), includeMode, direct)
    requires ListsTable(es, cache.FullEntries(includeMode))
    requires forall t :: IsRows(t, HashedItems(es)) ==> IsStream(contract, t, includeMode, listed)
    ensures direct == listed
  {
    hide IsStream, IsRows, ListsTable, HashedItems, TrimmedKeys, BattleIndex.IndexOk, LogOk, NonEmptyBatches,
         IsChunkValue;
    assert BattleIndex.Values(cache.entries).Keys == cache.entries.Keys;
    DigestOfListing(contract, BattleIndex.Values(cache.entries), es, includeMode, direct, listed);
  }

  // ---------------------------------------------------------------- what the digest sees, field by field

  /** The colour mode of a value, by default that of an observed colour. */
  ghost function ColorModeOf(v: Record): (r: Scalar) {
    if "colorMode" in v then v["colorMode"] else Text("raw_observed")
  }

  /** The same colour, and the same optional public fields; a mode counts only if it is to be hashed. */
  ghost predicate HashAlike(v: Record, w: Record, includeMode: bool) {
    && Lookup(v, "colorRaw") == Lookup(w, "colorRaw") && ColorModeOf(v) == ColorModeOf(w)
    && (includeMode ==> Lookup(v, "mode") == Lookup(w, "mode"))
    && forall f :: f in CLEARABLE_FIELDS && f != "colorMode" && f != "mode" ==> Lookup(v, f) == Lookup(w, f)
  }

  /** What a line says of each field. */
  lemma WrittenAt(v: Record, includeMode: bool, f: string)
    ensures Lookup(Written(v, includeMode), f)
            == if f == "colorMode" then Some(ColorModeOf(v))
               else if f == "mode" then if includeMode then Lookup(v, f) else None
               else if f == "colorRaw" || f in CLEARABLE_FIELDS then Lookup(v, f)
               else None
  {
  }

  lemma WrittenExact(v: Record, w: Record, includeMode: bool)
    ensures Written(v, includeMode) == Written(w, includeMode) <==> HashAlike(v, w, includeMode)
  {
    hide Written, ColorModeOf;
    forall f
      ensures Lookup(Written(v, includeMode), f) == Lookup(Written(w, includeMode), f)
              <==> if f == "colorMode" then ColorModeOf(v) == ColorModeOf(w)
                   else if f == "mode" then includeMode ==> Lookup(v, f) == Lookup(w, f)
                   else f == "colorRaw" || f in CLEARABLE_FIELDS ==> Lookup(v, f) == Lookup(w, f)
    {
      WrittenAt(v, includeMode, f);
      WrittenAt(w, includeMode, f);
    }
    Public("colorMode");
    Public("mode");
    if HashAlike(v, w, includeMode) {
      SameLookups(Written(v, includeMode), Written(w, includeMode));
    }
  }

  lemma Public(f: string)
    requires f == "colorMode" || f == "mode"
    ensures f in CLEARABLE_FIELDS && f != "colorRaw"
  {
    assert CLEARABLE_FIELDS[4] == "colorMode" && CLEARABLE_FIELDS[6] == "mode";
  }

  ghost predicate SameToTheDigest(a: Table<ChunkKey>, b: Table<ChunkKey>, includeMode: bool) {
    a.Keys == b.Keys && forall k :: k in a && k in b ==> HashAlike(a[k], b[k], includeMode)
  }

  /** Equal digests mean equal tables, but for one thing: no colour mode and the default colour mode hash alike. */
  lemma DigestExact(
    contract: Contract, a: Table<ChunkKey>, b: Table<ChunkKey>, includeMode: bool, s1: seq<Line>, s2: seq<Line>)
    requires IsStream(contract, a, includeMode, s1) && IsStream(contract, b, includeMode, s2)
    ensures s1 == s2 <==> SameToTheDigest(a, b, includeMode)
  {
    hide IsListing, IsLines, Written, HashAlike;
    var ka :| IsListing(contract, a, ka) && IsLines(contract, a, includeMode, ka, s1);
    var kb :| IsListing(contract, b, kb) && IsLines(contract, b, includeMode, kb, s2);
    forall k | k in a && k in b
      ensures Written(a[k], includeMode) == Written(b[k], includeMode) <==> HashAlike(a[k], b[k], includeMode)
    {
      WrittenExact(a[k], b[k], includeMode);
    }
    if SameToTheDigest(a, b, includeMode) {
      assert forall k :: k in a <==> k in a.Keys;
      SameLinesOf(contract, a, b, includeMode, ka, kb, s1, s2);
    }
    if s1 == s2 {
      SameLinesSameKeys(contract, a, b, includeMode, ka, kb, s1);
    }
  }

  function ChunkOf(line: Line): (k: ChunkKey) {
    ChunkKey(line.dimension, line.chunkX, line.chunkZ)
  }

  /** One line spelled out: a chunk, its textual key under the legacy contract, and every field of its value. */
  ghost predicate Spells(contract: Contract, t: Table<ChunkKey>, includeMode: bool, line: Line) {
    && ChunkOf(line) in t
    && (if contract.LegacyKeyed? then line.Keyed? && line.key == BattleKey(ChunkOf(line)) else line.Structured?)
    && var v := t[ChunkOf(line)];
       forall f :: Lookup(line.data, f)
                   == if f == "colorMode" then Some(ColorModeOf(v))
                      else if f == "mode" then if includeMode then Lookup(v, f) else None
                      else if f == "colorRaw" || f in CLEARABLE_FIELDS then Lookup(v, f)
                      else None
  }

  /** Legacy lines are ordered by their keys; structured ones by dimension, then x, then z. */
  ghost predicate LineBefore(contract: Contract, a: Line, b: Line) {
    if contract.LegacyKeyed? then a.Keyed? && b.Keyed? && StringLess(a.key, b.key)
    else
      || StringLess(a.dimension, b.dimension)
      || (a.dimension == b.dimension && (a.chunkX < b.chunkX || (a.chunkX == b.chunkX && a.chunkZ < b.chunkZ)))
  }

  /** The stream of a table, spelled out: one line for each chunk, in order. */
  lemma StreamSpelled(contract: Contract, t: Table<ChunkKey>, includeMode: bool, stream: seq<Line>)
    requires IsStream(contract, t, includeMode, stream)
    ensures forall i :: 0 <= i < |stream| ==> Spells(contract, t, includeMode, stream[i])
    ensures forall k :: k in t ==> exists i :: 0 <= i < |stream| && ChunkOf(stream[i]) == k
    ensures forall i, j :: 0 <= i < j < |stream| ==> LineBefore(contract, stream[i], stream[j])
  {
    hide Spells, BattleKey, LineBefore, Before, LineOf, ChunkOf;
    var ks :| IsListing(contract, t, ks) && IsLines(contract, t, includeMode, ks, stream);
    forall i | 0 <= i < |ks|
      ensures Spells(contract, t, includeMode, stream[i]) && ChunkOf(stream[i]) == ks[i]
    {
      LineSpelled(contract, t, includeMode, ks[i]);
    }
    forall i, j | 0 <= i < j < |ks|
      ensures LineBefore(contract, stream[i], stream[j])
    {
      LinesOrdered(contract, ks[i], t[ks[i]], ks[j], t[ks[j]], includeMode);
    }
    forall k | k in t
      ensures exists i :: 0 <= i < |stream| && ChunkOf(stream[i]) == k
    {
      var i :| 0 <= i < |ks| && ks[i] == k;
      assert ChunkOf(stream[i]) == k;
    }
  }

  lemma LineSpelled(contract: Contract, t: Table<ChunkKey>, includeMode: bool, k: ChunkKey)
    requires k in t
    ensures Spells(contract, t, includeMode, LineOf(contract, k, t[k], includeMode))
    ensures ChunkOf(LineOf(contract, k, t[k], includeMode)) == k
  {
    hide Written, BattleKey, ColorModeOf;
    forall f
      ensures Lookup(Written(t[k], includeMode), f)
              == if f == "colorMode" then Some(ColorModeOf(t[k]))
                 else if f == "mode" then if includeMode then Lookup(t[k], f) else None
                 else if f == "colorRaw" || f in CLEARABLE_FIELDS then Lookup(t[k], f)
                 else None
    {
      WrittenAt(t[k], includeMode, f);
    }
  }

  lemma LinesOrdered(contract: Contract, j: ChunkKey, v: Record, k: ChunkKey, w: Record, includeMode: bool)
    requires Before(contract, j, k)
    ensures LineBefore(contract, LineOf(contract, j, v, includeMode), LineOf(contract, k, w, includeMode))
  {
    hide Written, BattleKey;
  }

  lemma SameLinesSameKeys(
    contract: Contract, a: Table<ChunkKey>, b: Table<ChunkKey>, includeMode: bool, ka: seq<ChunkKey>,
    kb: seq<ChunkKey>, stream: seq<Line>)
    requires IsListing(contract, a, ka) && IsLines(contract, a, includeMode, ka, stream)
    requires IsListing(contract, b, kb) && IsLines(contract, b, includeMode, kb, stream)
    ensures a.Keys == b.Keys
    ensures forall k :: k in a && k in b ==> Written(a[k], includeMode) == Written(b[k], includeMode)
  {
    hide Ascending, Written, BattleKey;
    forall i | 0 <= i < |ka|
      ensures ka[i] == kb[i]
    {
      assert LineOf(contract, ka[i], a[ka[i]], includeMode) == LineOf(contract, kb[i], b[kb[i]], includeMode);
    }
    assert ka == kb;
    forall k | k in a
      ensures k in b && Written(a[k], includeMode) == Written(b[k], includeMode)
    {
      var i :| 0 <= i < |ka| && ka[i] == k;
      assert LineOf(contract, ka[i], a[ka[i]], includeMode) == LineOf(contract, kb[i], b[kb[i]], includeMode);
    }
  }
}
