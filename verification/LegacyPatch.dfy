/** Patches for clients below protocol 0.6.5, which ignore `clear` and delete before they upsert. */
module LegacyPatch {
  import opened Prelude
  import opened Records

  ghost predicate ClearsAt<K>(ups: seq<Upsert<K>>, k: K) {
    exists i :: 0 <= i < |ups| && ups[i].id == k && ups[i].clear != []
  }

  /** Every upsert that clears something also deletes its object first; no upsert clears any more. */
  ghost predicate IsAdapted<K(!new)>(s: Scope<K>, r: Scope<K>) {
    && |r.upsert| == |s.upsert|
    && (forall i :: 0 <= i < |s.upsert| ==> r.upsert[i] == s.upsert[i].(clear := []))
    && s.delete <= r.delete
    && (forall k :: k in r.delete <==> k in s.delete || ClearsAt(s.upsert, k))
  }

  ghost predicate AdaptedOptional<K(!new)>(s: Option<Scope<K>>, r: Option<Scope<K>>) {
    if s.None? then r.None? else r.Some? && IsAdapted(s.value, r.value)
  }

  method AdaptScope<K(==, !new)>(s: Scope<K>) returns (r: Scope<K>)
    ensures IsAdapted(s, r)
  {
    var upsert: seq<Upsert<K>> := [];
    var delete := s.delete;
    for i := 0 to |s.upsert|
      invariant |upsert| == i
      invariant forall j :: 0 <= j < i ==> upsert[j] == s.upsert[j].(clear := [])
      invariant s.delete <= delete
      invariant forall k :: k in delete <==> k in s.delete || ClearsAt(s.upsert[..i], k)
    {
      var u := s.upsert[i];
      ClearsSnoc(s.upsert[..i], u);
      assert s.upsert[..i + 1] == s.upsert[..i] + [u];
      if u.clear != [] && u.id !in delete {
        delete := delete + [u.id];
      }
      upsert := upsert + [u.(clear := [])];
    }
    assert s.upsert[..|s.upsert|] == s.upsert;
    r := Scope(upsert, delete);
  }

  lemma ClearsSnoc<K>(ups: seq<Upsert<K>>, u: Upsert<K>)
    ensures forall k :: ClearsAt(ups + [u], k) <==> ClearsAt(ups, k) || (u.id == k && u.clear != [])
  {
    var all := ups + [u];
    assert all[|ups|] == u;
    forall k
      ensures ClearsAt(all, k) <==> ClearsAt(ups, k) || (u.id == k && u.clear != [])
    {
      if ClearsAt(ups, k) {
        var i :| 0 <= i < |ups| && ups[i].id == k && ups[i].clear != [];
        assert all[i] == ups[i];
      }
    }
  }

  /** Each upsert that clears carries every field the client's object would keep. */
  ghost predicate WholeWhereCleared<K(!new)>(t: Table<K>, s: Scope<K>) {
    forall i :: 0 <= i < |s.upsert| ==> WholeAt(t, s, s.upsert[i])
  }

  ghost predicate WholeAt<K>(t: Table<K>, s: Scope<K>, u: Upsert<K>) {
    u.clear != [] && u.id in t && u.id !in s.delete ==> forall f :: f in t[u.id] ==> f in u.data || f in u.clear
  }

  /**
   A legacy client fed the adapted scope ends where a current client fed the original ends, exactly when the clearing
   upserts are whole objects.
   */
  lemma AdaptedExact<K(!new)>(t: Table<K>, s: Scope<K>, r: Scope<K>)
    requires DistinctIds(s.upsert) && IsAdapted(s, r)
    ensures ApplyScope(IgnoreClears, t, r) == ApplyScope(HonourClears, t, s) <==> WholeWhereCleared(t, s)
  {
    var legacy, current := ApplyScope(IgnoreClears, t, r), ApplyScope(HonourClears, t, s);
    forall i | 0 <= i < |s.upsert|
      ensures Lookup(legacy, s.upsert[i].id) == Lookup(current, s.upsert[i].id) <==> WholeAt(t, s, s.upsert[i])
    {
      AdaptedExactAt(t, s, r, i);
    }
    if WholeWhereCleared(t, s) {
      forall k
        ensures Lookup(legacy, k) == Lookup(current, k)
      {
        if HasId(s.upsert, k) {
          var i :| 0 <= i < |s.upsert| && s.upsert[i].id == k;
          assert WholeAt(t, s, s.upsert[i]);
        } else {
          UntouchedAt(t, s, r, k);
        }
      }
      SameLookups(legacy, current);
    }
  }

  lemma UntouchedAt<K(!new)>(t: Table<K>, s: Scope<K>, r: Scope<K>, k: K)
    requires DistinctIds(s.upsert) && IsAdapted(s, r) && !HasId(s.upsert, k)
    ensures Lookup(ApplyScope(IgnoreClears, t, r), k) == Lookup(ApplyScope(HonourClears, t, s), k)
  {
    assert DistinctIds(r.upsert);
    assert forall i :: 0 <= i < |s.upsert| ==> r.upsert[i].id == s.upsert[i].id;
    assert !HasId(r.upsert, k);
    ApplyScopeAt(HonourClears, t, s, k);
    ApplyScopeAt(IgnoreClears, t, r, k);
  }

  lemma AdaptedExactAt<K(!new)>(t: Table<K>, s: Scope<K>, r: Scope<K>, i: nat)
    requires DistinctIds(s.upsert) && IsAdapted(s, r) && i < |s.upsert|
    ensures Lookup(ApplyScope(IgnoreClears, t, r), s.upsert[i].id)
            == Lookup(ApplyScope(HonourClears, t, s), s.upsert[i].id)
            <==> WholeAt(t, s, s.upsert[i])
  {
    var u := s.upsert[i];
    var k := u.id;
    assert DistinctIds(r.upsert);
    assert r.upsert[i].id == k;
    ApplyScopeAt(HonourClears, t, s, k);
    ApplyScopeAt(IgnoreClears, t, r, k);
    assert k in r.delete <==> k in s.delete || u.clear != [];
    var held := if k in s.delete then None else Lookup(t, k);
    MergeAsLegacy(held, u, if k in r.delete then None else Lookup(t, k));
  }

  lemma MergeAsLegacy<K>(held: Option<Record>, u: Upsert<K>, legacyHeld: Option<Record>)
    requires legacyHeld == if u.clear != [] then None else held
    ensures Merged(IgnoreClears, legacyHeld, u.(clear := [])) == Merged(HonourClears, held, u)
            <==> (u.clear != [] && held.Some? ==> forall f :: f in held.value ==> f in u.data || f in u.clear)
  {
  }

  /** A difference computed by the relay is always whole, so the adaptation is exact for it. */
  lemma DiffIsWhole<K(!new)>(optional: seq<string>, before: Table<K>, after: Table<K>, s: Scope<K>)
    requires IsDiff(optional, before, after, s)
    requires forall k, f :: k in before && k in after && f in before[k] && f !in after[k] ==> f in optional
    ensures WholeWhereCleared(before, s)
  {
  }
}
