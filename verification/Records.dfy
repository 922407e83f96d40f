/**
 Messages as finite maps from wire field names to values, and the keyed patches that move them.

 An absent optional field is an absent key. A scope of a patch carries upserts (a delta plus the names of
 the fields to clear) and deletes. The relay builds a scope by iterating over hash maps, so the order of its
 upserts and deletes is not determined: `IsDiff` therefore describes every scope it may emit.
 */
module Records {
  import opened Prelude

  datatype Scalar = Number(r: real) | Integer(n: int) | Text(s: string) | Flag(b: bool)

  type Record = map<string, Scalar>
  type Table<!K> = map<K, Record>

  datatype Upsert<K> = Upsert(id: K, data: Record, clear: seq<string>)
  datatype Scope<K> = Scope(upsert: seq<Upsert<K>>, delete: seq<K>)

  /**
   How a client merges an upsert: it honours `clear`, it ignores `clear` (clients below 0.6.5), or it takes the
   object as a whole (scopes whose upserts carry a full message and never any `clear`).
   */
  datatype MergeRule = HonourClears | IgnoreClears | ReplaceObject

  // ---------------------------------------------------------------- fields

  /** The record without the named fields. */
  function Clear(o: Record, fields: seq<string>): (r: Record) {
    map f | f in o && f !in fields :: o[f]
  }

  /** Every field present in the delta overwrites the record. */
  function ApplyDelta(o: Record, delta: Record): (r: Record) {
    o + delta
  }

  /** The optional fields that `before` has and `after` lacks, in schema order. */
  function ClearedFields(optional: seq<string>, before: Record, after: Record): (r: seq<string>)
    ensures forall f :: f in r <==> f in optional && f in before && f !in after
  {
    if optional == [] then []
    else if optional[0] in before && optional[0] !in after then
      [optional[0]] + ClearedFields(optional[1..], before, after)
    else ClearedFields(optional[1..], before, after)
  }

  /** Which field a name clears; a name that is not listed clears nothing. */
  type Clearing = map<string, string>

  /** The fields that the names clear. */
  function NamedFields(clearing: Clearing, names: seq<string>): (r: set<string>) {
    set n | n in names && n in clearing :: clearing[n]
  }

  /** Clearing names one after the other, as the relay does to an incoming upsert. */
  method ClearFields(clearing: Clearing, o: Record, names: seq<string>) returns (r: Record)
    ensures r == o - NamedFields(clearing, names)
  {
    r := o;
    for i := 0 to |names|
      invariant r == o - NamedFields(clearing, names[..i])
    {
      assert names[..i + 1] == names[..i] + [names[i]];
      if names[i] in clearing {
        r := r - {clearing[names[i]]};
      }
    }
    assert names[..|names|] == names;
  }

  /** Every optional field can be cleared by its own name. */
  ghost predicate ClearsByName(clearing: Clearing, optional: seq<string>) {
    forall f :: f in optional ==> Lookup(clearing, f) == Some(f)
  }

  /** The relay and a client that drops whatever is named agree on the names the relay itself sends. */
  lemma NamedIsCleared(clearing: Clearing, optional: seq<string>, o: Record, before: Record, after: Record)
    requires ClearsByName(clearing, optional)
    ensures o - NamedFields(clearing, ClearedFields(optional, before, after))
            == Clear(o, ClearedFields(optional, before, after))
  {
  }

  /**
   Clearing the cleared fields of (before, after) and then applying after's delta to before gives after exactly when
   every field that after drops is an optional one.
   */
  lemma FieldRoundTrip(optional: seq<string>, before: Record, after: Record)
    ensures ApplyDelta(Clear(before, ClearedFields(optional, before, after)), after) == after
            <==> forall f :: f in before && f !in after ==> f in optional
  {
  }

  // ---------------------------------------------------------------- client

  function Merged<K>(rule: MergeRule, before: Option<Record>, u: Upsert<K>): (r: Record) {
    var base: Record := if before.Some? then before.value else map[];
    match rule
    case HonourClears => ApplyDelta(Clear(base, u.clear), u.data)
    case IgnoreClears => ApplyDelta(base, u.data)
    case ReplaceObject => u.data
  }

  function ApplyUpserts<K>(rule: MergeRule, t: Table<K>, ups: seq<Upsert<K>>): (r: Table<K>)
    decreases |ups|
  {
    if ups == [] then t
    else ApplyUpserts(rule, t[ups[0].id := Merged(rule, Lookup(t, ups[0].id), ups[0])], ups[1..])
  }

  /** Clients delete first and upsert afterwards. */
  function ApplyScope<K>(rule: MergeRule, t: Table<K>, s: Scope<K>): (r: Table<K>) {
    ApplyUpserts(rule, t - (set k | k in s.delete), s.upsert)
  }

  ghost predicate DistinctIds<K>(ups: seq<Upsert<K>>) {
    forall i, j :: 0 <= i < j < |ups| ==> ups[i].id != ups[j].id
  }

  ghost predicate HasId<K>(ups: seq<Upsert<K>>, k: K) {
    exists i :: 0 <= i < |ups| && ups[i].id == k
  }

  lemma {:induction false} ApplyUpsertsAt<K>(rule: MergeRule, t: Table<K>, ups: seq<Upsert<K>>, k: K)
    requires DistinctIds(ups)
    ensures !HasId(ups, k) ==> Lookup(ApplyUpserts(rule, t, ups), k) == Lookup(t, k)
    ensures forall i :: 0 <= i < |ups| && ups[i].id == k
              ==> Lookup(ApplyUpserts(rule, t, ups), k) == Some(Merged(rule, Lookup(t, k), ups[i]))
    decreases |ups|
  {
    if ups != [] {
      var rest := ups[1..];
      var t' := t[ups[0].id := Merged(rule, Lookup(t, ups[0].id), ups[0])];
      assert DistinctIds(rest);
      ApplyUpsertsAt(rule, t', rest, k);
      if ups[0].id == k {
        assert !HasId(rest, k);
      } else {
        assert Lookup(t', k) == Lookup(t, k);
        assert HasId(rest, k) ==> HasId(ups, k) by {
          if HasId(rest, k) {
            var i :| 0 <= i < |rest| && rest[i].id == k;
            assert ups[i + 1].id == k;
          }
        }
        forall i | 0 <= i < |ups| && ups[i].id == k
          ensures Lookup(ApplyUpserts(rule, t, ups), k) == Some(Merged(rule, Lookup(t, k), ups[i]))
        {
          assert rest[i - 1] == ups[i];
        }
      }
    }
  }

  /** What a client holds at `k` after a scope, without the fold. */
  lemma ApplyScopeAt<K>(rule: MergeRule, t: Table<K>, s: Scope<K>, k: K)
    requires DistinctIds(s.upsert)
    ensures !HasId(s.upsert, k)
            ==> Lookup(ApplyScope(rule, t, s), k) == if k in s.delete then None else Lookup(t, k)
    ensures forall i :: 0 <= i < |s.upsert| && s.upsert[i].id == k
              ==> Lookup(ApplyScope(rule, t, s), k)
                  == Some(Merged(rule, if k in s.delete then None else Lookup(t, k), s.upsert[i]))
  {
    ApplyUpsertsAt(rule, t - (set x | x in s.delete), s.upsert, k);
  }

  // ---------------------------------------------------------------- diff

  /** `s` is a scope the relay may build to move `before` to `after`. */
  ghost predicate IsDiff<K(!new)>(optional: seq<string>, before: Table<K>, after: Table<K>, s: Scope<K>) {
    && DistinctIds(s.upsert)
    && (forall k :: k in s.delete <==> k in before && k !in after)
    && (forall k :: HasId(s.upsert, k) <==> k in after && Lookup(before, k) != Some(after[k]))
    && (forall i :: 0 <= i < |s.upsert| ==> IsUpsertOf(optional, before, after, s.upsert[i]))
  }

  ghost predicate IsUpsertOf<K>(optional: seq<string>, before: Table<K>, after: Table<K>, u: Upsert<K>) {
    && u.id in after
    && u.data == after[u.id]
    && u.clear == if u.id in before then ClearedFields(optional, before[u.id], after[u.id]) else []
  }

  method MapPatch<K(==, !new)>(optional: seq<string>, before: Table<K>, after: Table<K>)
    returns (patch: Option<Scope<K>>)
    ensures patch.None? <==> before == after
    ensures patch.Some? ==> IsDiff(optional, before, after, patch.value)
  {
    var upsert: seq<Upsert<K>> := [];
    var pending := after.Keys;
    while pending != {}
      invariant pending <= after.Keys
      invariant DistinctIds(upsert)
      invariant forall k :: HasId(upsert, k) <==> k in after && k !in pending && Lookup(before, k) != Some(after[k])
      invariant forall i :: 0 <= i < |upsert| ==> IsUpsertOf(optional, before, after, upsert[i])
    {
      var k :| k in pending;
      pending := pending - {k};
      if Lookup(before, k) != Some(after[k]) {
        var u := Upsert(k, after[k], if k in before then ClearedFields(optional, before[k], after[k]) else []);
        assert !HasId(upsert, k);
        HasIdSnoc(upsert, u);
        upsert := upsert + [u];
      }
    }
    var delete: seq<K> := [];
    pending := before.Keys - after.Keys;
    while pending != {}
      invariant pending <= before.Keys - after.Keys
      invariant forall k :: k in delete <==> k in before && k !in after && k !in pending
    {
      var k :| k in pending;
      pending := pending - {k};
      delete := delete + [k];
    }
    assert upsert != [] ==> HasId(upsert, upsert[0].id);
    assert delete != [] ==> delete[0] in delete;
    patch := if upsert != [] || delete != [] then Some(Scope(upsert, delete)) else None;
    if patch.None? {
      forall k
        ensures Lookup(before, k) == Lookup(after, k)
      {
        assert !HasId(upsert, k);
        assert k !in delete;
      }
      SameLookups(before, after);
    }
  }

  lemma HasIdSnoc<K>(ups: seq<Upsert<K>>, u: Upsert<K>)
    ensures forall k :: HasId(ups + [u], k) <==> HasId(ups, k) || k == u.id
  {
    var all := ups + [u];
    forall k
      ensures HasId(all, k) <==> HasId(ups, k) || k == u.id
    {
      if HasId(ups, k) {
        var i :| 0 <= i < |ups| && ups[i].id == k;
        assert all[i].id == k;
      }
      if k == u.id {
        assert all[|ups|].id == k;
      }
      if HasId(all, k) {
        var i :| 0 <= i < |all| && all[i].id == k;
        assert i == |ups| || ups[i].id == k;
      }
    }
  }

  /**
   A difference computed against `base`, applied by a client that in fact holds `held`, produces `after` exactly when
   the client already agrees with `after` wherever `base` does, and elsewhere holds no field beyond those of `after`
   that the difference does not clear.
   */
  ghost predicate DiffFits<K(!new)>(optional: seq<string>, held: Table<K>, base: Table<K>, after: Table<K>) {
    forall k :: DiffFitsAt(optional, Lookup(held, k), Lookup(base, k), Lookup(after, k))
  }

  ghost predicate DiffFitsAt(
    optional: seq<string>, held: Option<Record>, base: Option<Record>, after: Option<Record>)
  {
    if base == after then held == after
    else after.Some? && held.Some? ==>
      forall f :: f in held.value && f !in after.value ==> base.Some? && f in base.value && f in optional
  }

  lemma DiffExact<K(!new)>(optional: seq<string>, held: Table<K>, base: Table<K>, after: Table<K>, s: Scope<K>)
    requires IsDiff(optional, base, after, s)
    ensures ApplyScope(HonourClears, held, s) == after <==> DiffFits(optional, held, base, after)
  {
    var out := ApplyScope(HonourClears, held, s);
    forall k
      ensures Lookup(out, k) == Lookup(after, k)
              <==> DiffFitsAt(optional, Lookup(held, k), Lookup(base, k), Lookup(after, k))
    {
      DiffExactAt(optional, held, base, after, s, k);
    }
    if DiffFits(optional, held, base, after) {
      forall k
        ensures Lookup(out, k) == Lookup(after, k)
      {
        assert DiffFitsAt(optional, Lookup(held, k), Lookup(base, k), Lookup(after, k));
      }
      SameLookups(out, after);
    }
  }

  lemma DiffExactAt<K(!new)>(optional: seq<string>, held: Table<K>, base: Table<K>, after: Table<K>, s: Scope<K>, k: K)
    requires IsDiff(optional, base, after, s)
    ensures Lookup(ApplyScope(HonourClears, held, s), k) == Lookup(after, k)
            <==> DiffFitsAt(optional, Lookup(held, k), Lookup(base, k), Lookup(after, k))
  {
    hide Clear, ApplyDelta;
    ApplyScopeAt(HonourClears, held, s, k);
    if HasId(s.upsert, k) {
      var i :| 0 <= i < |s.upsert| && s.upsert[i].id == k;
      assert IsUpsertOf(optional, base, after, s.upsert[i]);
      assert k !in s.delete;
      UpsertExact(optional, Lookup(held, k), Lookup(base, k), after[k], s.upsert[i]);
    }
  }

  /** Merging one upsert of a difference is exact when nothing uncleared is left over. */
  lemma UpsertExact<K>(
    optional: seq<string>, held: Option<Record>, base: Option<Record>, after: Record, u: Upsert<K>)
    requires u.data == after
    requires u.clear == if base.Some? then ClearedFields(optional, base.value, after) else []
    ensures Merged(HonourClears, held, u) == after
            <==> (held.Some? ==> forall f :: f in held.value && f !in after ==>
                                               base.Some? && f in base.value && f in optional)
  {
    var m := Merged(HonourClears, held, u);
    assert forall f :: f in after ==> f in m && m[f] == after[f];
    assert m == after <==> m.Keys <= after.Keys;
    if held.Some? {
      assert forall f :: f in held.value && f !in after ==> (f in m <==> f !in u.clear);
    }
  }

  /** Applied to the very table it was computed against, a difference is exact when no required field disappears. */
  lemma DiffRoundTrip<K(!new)>(optional: seq<string>, before: Table<K>, after: Table<K>, s: Scope<K>)
    requires IsDiff(optional, before, after, s)
    ensures ApplyScope(HonourClears, before, s) == after
            <==> forall k, f :: k in before && k in after && f in before[k] && f !in after[k] ==> f in optional
  {
    DiffExact(optional, before, before, after, s);
    if DiffFits(optional, before, before, after) {
      forall k, f | k in before && k in after && f in before[k] && f !in after[k]
        ensures f in optional
      {
        assert DiffFitsAt(optional, Lookup(before, k), Lookup(before, k), Lookup(after, k));
      }
    }
  }

  /** A client that takes upserts as whole objects is exact wherever it agreed outside the difference. */
  lemma ReplaceRoundTrip<K(!new)>(optional: seq<string>, before: Table<K>, after: Table<K>, s: Scope<K>)
    requires IsDiff(optional, before, after, s)
    ensures ApplyScope(ReplaceObject, before, s) == after
  {
    forall k
      ensures Lookup(ApplyScope(ReplaceObject, before, s), k) == Lookup(after, k)
    {
      ApplyScopeAt(ReplaceObject, before, s, k);
      if HasId(s.upsert, k) {
        var i :| 0 <= i < |s.upsert| && s.upsert[i].id == k;
        assert IsUpsertOf(optional, before, after, s.upsert[i]);
      }
    }
    SameLookups(ApplyScope(ReplaceObject, before, s), after);
  }
}
