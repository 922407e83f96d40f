/**
 Patches travelling the other way: a reporting client sends scopes, and the relay merges them into the objects of that
 source. The relay upserts first and deletes afterwards, starts new objects from defaults, ignores names it does not
 clear, and fills in missing fields before it stores. An upsert without data is ignored and not represented.
 */
module Inbound {
  import opened Prelude
  import opened Records
  import opened Snapshots

  /**
   What is fixed for a kind of object: the fields a new object starts with, which field a name clears, and the values
   filled in for missing fields.
   */
  datatype Kind = Kind(defaults: Record, clearing: Clearing, fill: Record)

  function Normalised(kind: Kind, o: Record): (r: Record) {
    kind.fill + o
  }

  function Stored(kind: Kind, before: Option<Record>, u: Upsert<string>): (r: Record) {
    var base := if before.Some? then before.value else kind.defaults;
    Normalised(kind, ApplyDelta(base - NamedFields(kind.clearing, u.clear), u.data))
  }

  function StoreUpserts(kind: Kind, t: Table<string>, ups: seq<Upsert<string>>): (r: Table<string>) {
    if ups == [] then t
    else
      var n := |ups| - 1;
      var rest := StoreUpserts(kind, t, ups[..n]);
      rest[ups[n].id := Stored(kind, Lookup(rest, ups[n].id), ups[n])]
  }

  function StoreScope(kind: Kind, t: Table<string>, s: Scope<string>): (r: Table<string>) {
    StoreUpserts(kind, t, s.upsert) - (set k | k in s.delete)
  }

  method ReceiveScope(kind: Kind, t: Table<string>, s: Scope<string>) returns (r: Table<string>)
    ensures r == StoreScope(kind, t, s)
  {
    r := t;
    for i := 0 to |s.upsert|
      invariant r == StoreUpserts(kind, t, s.upsert[..i])
    {
      var u := s.upsert[i];
      assert s.upsert[..i + 1][..i] == s.upsert[..i];
      var existing := if u.id in r then r[u.id] else kind.defaults;
      existing := ClearFields(kind.clearing, existing, u.clear);
      r := r[u.id := Normalised(kind, ApplyDelta(existing, u.data))];
    }
    assert s.upsert[..|s.upsert|] == s.upsert;
    ghost var stored := r;
    for i := 0 to |s.delete|
      invariant r == stored - (set k | k in s.delete[..i])
    {
      assert s.delete[..i + 1] == s.delete[..i] + [s.delete[i]];
      r := r - {s.delete[i]};
    }
    assert s.delete[..|s.delete|] == s.delete;
  }

  lemma {:induction false} StoredAt(kind: Kind, t: Table<string>, ups: seq<Upsert<string>>, k: string)
    requires DistinctIds(ups)
    ensures !HasId(ups, k) ==> Lookup(StoreUpserts(kind, t, ups), k) == Lookup(t, k)
    ensures forall i :: 0 <= i < |ups| && ups[i].id == k ==>
              Lookup(StoreUpserts(kind, t, ups), k) == Some(Stored(kind, Lookup(t, k), ups[i]))
  {
    hide Stored;
    if ups != [] {
      var n := |ups| - 1;
      var front := ups[..n];
      StoredAt(kind, t, front, k);
      assert ups == front + [ups[n]];
      HasIdSnoc(front, ups[n]);
      assert !HasId(front, ups[n].id);
      forall i | 0 <= i < n && ups[i].id == k
        ensures Lookup(StoreUpserts(kind, t, ups), k) == Some(Stored(kind, Lookup(t, k), ups[i]))
      {
        assert front[i] == ups[i];
      }
    }
  }

  lemma StoreScopeAt(kind: Kind, t: Table<string>, s: Scope<string>, k: string)
    requires DistinctIds(s.upsert)
    ensures k in s.delete ==> k !in StoreScope(kind, t, s)
    ensures k !in s.delete && !HasId(s.upsert, k) ==> Lookup(StoreScope(kind, t, s), k) == Lookup(t, k)
    ensures forall i :: 0 <= i < |s.upsert| && s.upsert[i].id == k && k !in s.delete ==>
              Lookup(StoreScope(kind, t, s), k) == Some(Stored(kind, Lookup(t, k), s.upsert[i]))
  {
    hide Stored;
    StoredAt(kind, t, s.upsert, k);
  }

  // ---------------------------------------------------------------- what a report achieves

  /**
   The relay stores a changed object as it was reported: it has every field that would be filled in, a new one every
   field new objects start with, and a known one has lost optional fields only.
   */
  ghost predicate StoresAsReported(kind: Kind, optional: seq<string>, before: Option<Record>, after: Record) {
    && kind.fill.Keys <= after.Keys
    && (before.None? ==> kind.defaults.Keys <= after.Keys)
    && (before.Some? ==> forall f :: f in before.value && f !in after ==> f in optional)
  }

  ghost predicate ReportFits(kind: Kind, optional: seq<string>, before: Table<string>, after: Table<string>) {
    forall k :: k in after && Lookup(before, k) != Some(after[k]) ==>
                  StoresAsReported(kind, optional, Lookup(before, k), after[k])
  }

  /** A client that reports the difference of two of its tables moves the relay from the one exactly to the other. */
  lemma ReportRoundTrip(
    kind: Kind, optional: seq<string>, before: Table<string>, after: Table<string>, s: Scope<string>)
    requires IsDiff(optional, before, after, s) && ClearsByName(kind.clearing, optional)
    ensures StoreScope(kind, before, s) == after <==> ReportFits(kind, optional, before, after)
  {
    hide IsDiff, StoresAsReported, StoreScope, ClearsByName;
    forall k
      ensures Lookup(StoreScope(kind, before, s), k) == Lookup(after, k)
              <==> (k in after && Lookup(before, k) != Some(after[k]) ==>
                      StoresAsReported(kind, optional, Lookup(before, k), after[k]))
    {
      ReportAt(kind, optional, before, after, s, k);
    }
    if ReportFits(kind, optional, before, after) {
      SameLookups(StoreScope(kind, before, s), after);
    }
  }

  lemma ReportAt(
    kind: Kind, optional: seq<string>, before: Table<string>, after: Table<string>, s: Scope<string>, k: string)
    requires IsDiff(optional, before, after, s) && ClearsByName(kind.clearing, optional)
    ensures Lookup(StoreScope(kind, before, s), k) == Lookup(after, k)
            <==> (k in after && Lookup(before, k) != Some(after[k]) ==>
                    StoresAsReported(kind, optional, Lookup(before, k), after[k]))
  {
    hide Stored, StoresAsReported;
    StoreScopeAt(kind, before, s, k);
    if HasId(s.upsert, k) {
      var i :| 0 <= i < |s.upsert| && s.upsert[i].id == k;
      assert IsUpsertOf(optional, before, after, s.upsert[i]);
      UpsertIsStored(kind, optional, Lookup(before, k), after[k], s.upsert[i]);
    }
  }

  lemma UpsertIsStored(kind: Kind, optional: seq<string>, before: Option<Record>, after: Record, u: Upsert<string>)
    requires ClearsByName(kind.clearing, optional) && u.data == after
    requires u.clear == if before.Some? then ClearedFields(optional, before.value, after) else []
    ensures Stored(kind, before, u) == after <==> StoresAsReported(kind, optional, before, after)
  {
    var base := if before.Some? then before.value else kind.defaults;
    var r := Stored(kind, before, u);
    assert r.Keys == kind.fill.Keys + (base.Keys - NamedFields(kind.clearing, u.clear)) + after.Keys;
    assert forall f :: f in after ==> r[f] == after[f];
    assert r == after <==> r.Keys <= after.Keys;
    if before.Some? {
      NamedIsCleared(kind.clearing, optional, base, base, after);
      assert forall f :: f in base && f !in after ==> (f in NamedFields(kind.clearing, u.clear) <==> f in optional);
    }
  }

  // ---------------------------------------------------------------- the kinds

  /** What holds of every kind: optional fields are cleared by name, and new objects have required fields only. */
  ghost predicate KindOk(kind: Kind, required: seq<string>, optional: seq<string>) {
    ClearsByName(kind.clearing, optional) && forall f :: f in kind.defaults ==> f in required
  }

  /**
   Between tables of complete objects the report is exact if and only if every changed object has the fields the relay
   fills in.
   */
  lemma ConformingReport(
    kind: Kind, required: seq<string>, optional: seq<string>, before: Table<string>, after: Table<string>,
    s: Scope<string>)
    requires KindOk(kind, required, optional)
    requires Conforms(before, required, optional) && Conforms(after, required, optional)
    requires IsDiff(optional, before, after, s)
    ensures StoreScope(kind, before, s) == after
            <==> forall k :: k in after && Lookup(before, k) != Some(after[k]) ==> kind.fill.Keys <= after[k].Keys
  {
    hide IsDiff, StoreScope;
    ReportRoundTrip(kind, optional, before, after, s);
    forall k | k in after && Lookup(before, k) != Some(after[k])
      ensures StoresAsReported(kind, optional, Lookup(before, k), after[k]) <==> kind.fill.Keys <= after[k].Keys
    {
    }
  }

  function ByName(optional: seq<string>): (r: Clearing) {
    map f | f in optional :: f
  }

  const MOTION_FILL: Record := map["vx" := Number(0.0), "vy" := Number(0.0), "vz" := Number(0.0)]
  const EXTENT_FILL: Record := map["width" := Number(0.6), "height" := Number(1.8)]
  const AT_ORIGIN: Record :=
    map["x" := Number(0.0), "y" := Number(0.0), "z" := Number(0.0), "dimension" := Text("")]

  function EntityKind(): (k: Kind)
    ensures KindOk(k, ENTITY_REQUIRED, ENTITY_OPTIONAL)
  {
    Kind(AT_ORIGIN, ByName(ENTITY_OPTIONAL), MOTION_FILL + EXTENT_FILL)
  }

  function WaypointKind(): (k: Kind)
    ensures KindOk(k, WAYPOINT_REQUIRED, WAYPOINT_OPTIONAL)
  {
    Kind(AT_ORIGIN["name" := Text("")], ByName(WAYPOINT_OPTIONAL),
         map["symbol" := Text("W"), "deletableBy" := Text("everyone")])
  }

  /** Reporting entities is exact if and only if every changed one has its velocity and extent. */
  lemma EntityReport(before: Table<string>, after: Table<string>, s: Scope<string>)
    requires Conforms(before, ENTITY_REQUIRED, ENTITY_OPTIONAL) && Conforms(after, ENTITY_REQUIRED, ENTITY_OPTIONAL)
    requires IsDiff(ENTITY_OPTIONAL, before, after, s)
    ensures StoreScope(EntityKind(), before, s) == after
            <==> forall k :: k in after && Lookup(before, k) != Some(after[k]) ==>
                   {"vx", "vy", "vz", "width", "height"} <= after[k].Keys
  {
    hide IsDiff, StoreScope, Conforms, KindOk;
    ConformingReport(EntityKind(), ENTITY_REQUIRED, ENTITY_OPTIONAL, before, after, s);
    assert EntityKind().fill.Keys == {"vx", "vy", "vz", "width", "height"};
  }

  /** Reporting waypoints is exact if and only if every changed one has a symbol and says who may delete it. */
  lemma WaypointReport(before: Table<string>, after: Table<string>, s: Scope<string>)
    requires Conforms(before, WAYPOINT_REQUIRED, WAYPOINT_OPTIONAL)
    requires Conforms(after, WAYPOINT_REQUIRED, WAYPOINT_OPTIONAL)
    requires IsDiff(WAYPOINT_OPTIONAL, before, after, s)
    ensures StoreScope(WaypointKind(), before, s) == after
            <==> forall k :: k in after && Lookup(before, k) != Some(after[k]) ==>
                   {"symbol", "deletableBy"} <= after[k].Keys
  {
    hide IsDiff, StoreScope, Conforms, KindOk;
    ConformingReport(WaypointKind(), WAYPOINT_REQUIRED, WAYPOINT_OPTIONAL, before, after, s);
    assert WaypointKind().fill.Keys == {"symbol", "deletableBy"};
  }

  // ---------------------------------------------------------------- the order of upserts and deletes

  /** Deleting first, as clients do. */
  function StoreDeletesFirst(kind: Kind, t: Table<string>, s: Scope<string>): (r: Table<string>) {
    StoreUpserts(kind, t - (set k | k in s.delete), s.upsert)
  }

  /** Upserting first and deleting first come to the same exactly if no object is both upserted and deleted. */
  lemma OrdersAgree(kind: Kind, t: Table<string>, s: Scope<string>)
    requires DistinctIds(s.upsert)
    ensures StoreScope(kind, t, s) == StoreDeletesFirst(kind, t, s)
            <==> forall k :: HasId(s.upsert, k) ==> k !in s.delete
  {
    hide Stored;
    var a, b := StoreScope(kind, t, s), StoreDeletesFirst(kind, t, s);
    forall k
      ensures Lookup(a, k) == Lookup(b, k) <==> (HasId(s.upsert, k) ==> k !in s.delete)
    {
      StoreScopeAt(kind, t, s, k);
      StoredAt(kind, t - (set x | x in s.delete), s.upsert, k);
    }
    if forall k :: HasId(s.upsert, k) ==> k !in s.delete {
      SameLookups(a, b);
    }
  }
}
