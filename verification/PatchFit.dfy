/**
 Which clients a table difference is right for, in every form in which it may reach them: merged with or without
 clears, positions stripped or not, and judged exactly or up to positions.
 */
module PatchFit {
  import opened Prelude
  import opened Records
  import opened LegacyPatch
  import opened Snapshots
  import opened Positions

  /** Whether the client honours clears, positions are stripped, and client and target are compared up to positions. */
  datatype Form = Form(honours: bool, strip: bool, loose: bool)

  function RuleOf(form: Form): (r: MergeRule) {
    if form.honours then HonourClears else IgnoreClears
  }

  /** `r` is a scope that carries the difference `s` in the given form. */
  ghost predicate IsSent(form: Form, base: Table<string>, s: Scope<string>, r: Scope<string>) {
    var stripped := if form.strip then Scope(StripUpserts(base, s.upsert), s.delete) else s;
    if form.honours then r == stripped else IsAdapted(stripped, r)
  }

  // ---------------------------------------------------------------- what becomes of one object

  /** The difference says something is gone. */
  predicate Clears(optional: seq<string>, base: Option<Record>, after: Record) {
    base.Some? && ClearedFields(optional, base.value, after) != []
  }

  /** The upsert carries the field. */
  predicate Carried(form: Form, base: Option<Record>, after: Record, f: string) {
    f in after
    && (base.None? || !form.strip || (f !in POSITION_FIELDS && Lookup(base.value, f) != Some(after[f])))
  }

  function CarriedPart(form: Form, base: Option<Record>, after: Record): (r: Record) {
    map f | f in after && Carried(form, base, after, f) :: after[f]
  }

  /** The upsert is dropped, because nothing is left of it. */
  predicate Dropped(form: Form, optional: seq<string>, base: Option<Record>, after: Record) {
    form.strip && base.Some? && CarriedPart(form, base, after) == map[] && !Clears(optional, base, after)
  }

  /** The record that the upsert is merged into: a legacy client has deleted an object of which something is cleared. */
  function Start(form: Form, optional: seq<string>, held: Option<Record>, base: Option<Record>, after: Record)
    : (r: Record)
  {
    if held.None? || (!form.honours && Clears(optional, base, after)) then map[] else held.value
  }

  function ToClear(optional: seq<string>, base: Option<Record>, after: Record): (r: seq<string>) {
    if base.Some? then ClearedFields(optional, base.value, after) else []
  }

  /** The object a client is left with, from what it held and from the two objects that were compared. */
  function Outcome(
    form: Form, optional: seq<string>, held: Option<Record>, base: Option<Record>, after: Option<Record>)
    : (r: Option<Record>)
  {
    if base == after then held
    else if after.None? then None
    else if Dropped(form, optional, base, after.value) then held
    else
      Some(ApplyDelta(Clear(Start(form, optional, held, base, after.value), ToClear(optional, base, after.value)),
                      CarriedPart(form, base, after.value)))
  }

  /** Merging one upsert as it was sent. */
  function MergedAs(form: Form, held: Option<Record>, u: Upsert<string>): (r: Record) {
    if form.honours then Merged(HonourClears, held, u)
    else Merged(IgnoreClears, if u.clear != [] then None else held, u)
  }

  lemma SentAt(form: Form, held: Table<string>, s: Scope<string>, r: Scope<string>, k: string)
    requires DistinctIds(s.upsert) && if form.honours then r == s else IsAdapted(s, r)
    ensures !HasId(s.upsert, k)
            ==> Lookup(ApplyScope(RuleOf(form), held, r), k) == if k in s.delete then None else Lookup(held, k)
    ensures forall u :: u in s.upsert && u.id == k && k !in s.delete
              ==> Lookup(ApplyScope(RuleOf(form), held, r), k) == Some(MergedAs(form, Lookup(held, k), u))
  {
    hide ApplyDelta, Clear;
    ApplyScopeAt(RuleOf(form), held, s, k);
    if !form.honours {
      assert DistinctIds(r.upsert);
      assert forall i :: 0 <= i < |s.upsert| ==> r.upsert[i].id == s.upsert[i].id;
      ApplyScopeAt(IgnoreClears, held, r, k);
    }
    forall u | u in s.upsert && u.id == k && k !in s.delete
      ensures Lookup(ApplyScope(RuleOf(form), held, r), k) == Some(MergedAs(form, Lookup(held, k), u))
    {
      var i :| 0 <= i < |s.upsert| && s.upsert[i] == u;
      assert !form.honours ==> r.upsert[i].id == k && (k in r.delete <==> u.clear != []);
    }
  }

  /** An upsert of the difference has the outcome it should, or is dropped. */
  lemma UpsertOutcome(
    form: Form, optional: seq<string>, held: Option<Record>, base: Table<string>, after: Table<string>,
    u: Upsert<string>)
    requires IsUpsertOf(optional, base, after, u) && Lookup(base, u.id) != Some(after[u.id])
    ensures var b, a := Lookup(base, u.id), Some(after[u.id]);
            if form.strip && !Kept(base, u) then Outcome(form, optional, held, b, a) == held
            else Outcome(form, optional, held, b, a)
                 == Some(MergedAs(form, held, if form.strip then Shortened(base, u) else u))
  {
    hide ClearedFields;
    var sent := if form.strip then Shortened(base, u) else u;
    var b, a := Lookup(base, u.id), after[u.id];
    assert sent.data == CarriedPart(form, b, a);
    assert form.strip && !Kept(base, u) <==> Dropped(form, optional, b, a);
    ClearingNothing(Start(form, optional, held, b, a), u.clear);
  }

  lemma ClearingNothing(o: Record, names: seq<string>)
    ensures names == [] ==> Clear(o, names) == o
    ensures o == map[] ==> Clear(o, names) == o
  {
  }

  lemma OutcomeAt(
    form: Form, optional: seq<string>, held: Table<string>, base: Table<string>, after: Table<string>,
    s: Scope<string>, r: Scope<string>, k: string)
    requires IsDiff(optional, base, after, s) && IsSent(form, base, s, r)
    ensures Lookup(ApplyScope(RuleOf(form), held, r), k)
            == Outcome(form, optional, Lookup(held, k), Lookup(base, k), Lookup(after, k))
  {
    hide Dropped, Start, ToClear, CarriedPart, IsAdapted, StripUpserts, ApplyScope, MergedAs, Kept, Shortened;
    var stripped := if form.strip then Scope(StripUpserts(base, s.upsert), s.delete) else s;
    StripUpsertsAt(base, s.upsert, k);
    SentAt(form, held, stripped, r, k);
    if HasId(s.upsert, k) {
      var i :| 0 <= i < |s.upsert| && s.upsert[i].id == k;
      var u := s.upsert[i];
      assert IsUpsertOf(optional, base, after, u);
      UpsertOutcome(form, optional, Lookup(held, k), base, after, u);
      assert k !in s.delete;
      ShortenedKeepsId(base, u);
      if form.strip && Kept(base, u) {
        assert Shortened(base, u) in stripped.upsert;
      }
    }
  }

  lemma ShortenedKeepsId(base: Table<string>, u: Upsert<string>)
    ensures Shortened(base, u).id == u.id
  {
  }

  // ---------------------------------------------------------------- when it is right

  function SettledOf(o: Option<Record>): (r: Option<Record>) {
    if o.Some? then Some(Settled(o.value)) else None
  }

  /** The same object, or the same up to positions. */
  ghost predicate SameObject(loose: bool, x: Option<Record>, y: Option<Record>) {
    if loose then SettledOf(x) == SettledOf(y) else x == y
  }

  ghost predicate SameTables(loose: bool, x: Table<string>, y: Table<string>) {
    if loose then SameSettled(x, y) else x == y
  }

  /**
   A field of the target is carried, or the client has it already; and a field that the target lacks is not there to
   begin with, or was there before and can be cleared.
   */
  ghost predicate FieldFits(
    form: Form, optional: seq<string>, held: Option<Record>, base: Option<Record>, after: Record, f: string)
  {
    var start := Start(form, optional, held, base, after);
    if f in after then Carried(form, base, after, f) || Lookup(start, f) == Some(after[f])
    else f in start ==> base.Some? && f in base.value && f in optional
  }

  /**
   The difference between `base` and `after` is right for a client that holds `held`: where it says nothing, the client
   has the object already; where it says something, every field that counts fits.
   */
  ghost predicate FitsAt(
    form: Form, optional: seq<string>, held: Option<Record>, base: Option<Record>, after: Option<Record>)
  {
    if base == after || (after.Some? && Dropped(form, optional, base, after.value)) then
      SameObject(form.loose, held, after)
    else
      after.Some? ==>
        forall f :: !form.loose || f !in POSITION_FIELDS ==> FieldFits(form, optional, held, base, after.value, f)
  }

  ghost predicate TableFits(
    form: Form, optional: seq<string>, held: Table<string>, base: Table<string>, after: Table<string>)
  {
    forall k :: FitsAt(form, optional, Lookup(held, k), Lookup(base, k), Lookup(after, k))
  }

  lemma FieldExact(
    form: Form, optional: seq<string>, held: Option<Record>, base: Option<Record>, after: Record, f: string)
    ensures Lookup(ApplyDelta(Clear(Start(form, optional, held, base, after), ToClear(optional, base, after)),
                              CarriedPart(form, base, after)), f)
            == Lookup(after, f)
            <==> FieldFits(form, optional, held, base, after, f)
  {
    hide Carried, Clears;
  }

  lemma SameRecords(loose: bool, x: Record, y: Record)
    ensures SameObject(loose, Some(x), Some(y))
            <==> forall f :: !loose || f !in POSITION_FIELDS ==> Lookup(x, f) == Lookup(y, f)
  {
    if loose {
      assert forall f :: Lookup(Settled(x), f) == if f in POSITION_FIELDS then None else Lookup(x, f);
      assert forall f :: Lookup(Settled(y), f) == if f in POSITION_FIELDS then None else Lookup(y, f);
      if forall f :: f !in POSITION_FIELDS ==> Lookup(x, f) == Lookup(y, f) {
        SameLookups(Settled(x), Settled(y));
      }
    } else if forall f :: Lookup(x, f) == Lookup(y, f) {
      SameLookups(x, y);
    }
  }

  lemma FitsExact(
    form: Form, optional: seq<string>, held: Option<Record>, base: Option<Record>, after: Option<Record>)
    ensures SameObject(form.loose, Outcome(form, optional, held, base, after), after)
            <==> FitsAt(form, optional, held, base, after)
  {
    hide Dropped, Start, ToClear, CarriedPart, FieldFits, SameObject, ApplyDelta, Clear;
    if base != after && after.Some? && !Dropped(form, optional, base, after.value) {
      var out := Outcome(form, optional, held, base, after).value;
      forall f
        ensures Lookup(out, f) == Lookup(after.value, f) <==> FieldFits(form, optional, held, base, after.value, f)
      {
        FieldExact(form, optional, held, base, after.value, f);
      }
      SameRecords(form.loose, out, after.value);
    } else {
      SameNothing(form.loose, after);
    }
  }

  lemma SameNothing(loose: bool, x: Option<Record>)
    ensures SameObject(loose, x, x)
  {
  }

  lemma SameByKey(loose: bool, x: Table<string>, y: Table<string>)
    ensures SameTables(loose, x, y) <==> forall k :: SameObject(loose, Lookup(x, k), Lookup(y, k))
  {
    assert forall k :: SettledAt(x, k) == SettledOf(Lookup(x, k));
    assert forall k :: SettledAt(y, k) == SettledOf(Lookup(y, k));
    if !loose && forall k :: SameObject(loose, Lookup(x, k), Lookup(y, k)) {
      SameLookups(x, y);
    }
  }

  /**
   In whatever form it is sent, the difference takes a client to the target, exactly or up to positions, if and only if
   it fits what the client holds.
   */
  lemma TableExact(
    form: Form, optional: seq<string>, held: Table<string>, base: Table<string>, after: Table<string>,
    s: Scope<string>, r: Scope<string>)
    requires IsDiff(optional, base, after, s) && IsSent(form, base, s, r)
    ensures SameTables(form.loose, ApplyScope(RuleOf(form), held, r), after)
            <==> TableFits(form, optional, held, base, after)
  {
    hide IsDiff, IsSent, Outcome, FitsAt, SameObject, SameTables;
    var out := ApplyScope(RuleOf(form), held, r);
    forall k
      ensures SameObject(form.loose, Lookup(out, k), Lookup(after, k))
              <==> FitsAt(form, optional, Lookup(held, k), Lookup(base, k), Lookup(after, k))
    {
      OutcomeAt(form, optional, held, base, after, s, r, k);
      FitsExact(form, optional, Lookup(held, k), Lookup(base, k), Lookup(after, k));
    }
    SameByKey(form.loose, out, after);
  }

  /** Without a difference only a client that is there already fits. */
  lemma NoDiffFits(form: Form, optional: seq<string>, held: Table<string>, after: Table<string>)
    ensures SameTables(form.loose, held, after) <==> TableFits(form, optional, held, after, after)
  {
    hide SameObject, SameTables, Dropped, FieldFits;
    SameByKey(form.loose, held, after);
    forall k
      ensures FitsAt(form, optional, Lookup(held, k), Lookup(after, k), Lookup(after, k))
              <==> SameObject(form.loose, Lookup(held, k), Lookup(after, k))
    {
    }
  }

  // ---------------------------------------------------------------- what it comes to

  /** For a client that honours clears, and nothing stripped, this is the condition on plain differences. */
  lemma PlainFits(optional: seq<string>, held: Table<string>, base: Table<string>, after: Table<string>)
    ensures TableFits(Form(true, false, false), optional, held, base, after) <==> DiffFits(optional, held, base, after)
  {
    hide DiffFitsAt, FitsAt;
    forall k
      ensures FitsAt(Form(true, false, false), optional, Lookup(held, k), Lookup(base, k), Lookup(after, k))
              <==> DiffFitsAt(optional, Lookup(held, k), Lookup(base, k), Lookup(after, k))
    {
      PlainFitsAt(optional, Lookup(held, k), Lookup(base, k), Lookup(after, k));
    }
  }

  lemma PlainFitsAt(optional: seq<string>, held: Option<Record>, base: Option<Record>, after: Option<Record>)
    ensures FitsAt(Form(true, false, false), optional, held, base, after) <==> DiffFitsAt(optional, held, base, after)
  {
    var form := Form(true, false, false);
    if base != after && after.Some? && held.Some? {
      assert forall f :: FieldFits(form, optional, held, base, after.value, f)
                         <==> (f in held.value && f !in after.value ==>
                                 base.Some? && f in base.value && f in optional);
    }
  }

  /**
   For a legacy client a changed object fits if something is to be cleared, which replaces it, or if the client holds no
   field beyond those of the target.
   */
  lemma LegacyFits(optional: seq<string>, held: Option<Record>, base: Option<Record>, after: Option<Record>)
    ensures FitsAt(Form(false, false, false), optional, held, base, after)
            <==> if base == after then held == after
                 else after.Some? && held.Some? ==>
                   Clears(optional, base, after.value) || held.value.Keys <= after.value.Keys
  {
    hide ClearedFields;
    var form := Form(false, false, false);
    if base != after && after.Some? && held.Some? && !Clears(optional, base, after.value) {
      if held.value.Keys <= after.value.Keys {
        assert FitsAt(form, optional, held, base, after);
      } else {
        var f :| f in held.value && f !in after.value;
        NotCleared(optional, base, after.value, f);
        assert !FieldFits(form, optional, held, base, after.value, f);
      }
    }
  }

  lemma NotCleared(optional: seq<string>, base: Option<Record>, after: Record, f: string)
    requires !Clears(optional, base, after) && f !in after
    ensures !(base.Some? && f in base.value && f in optional)
  {
    if base.Some? {
      assert f !in ClearedFields(optional, base.value, after);
    }
  }

  // ---------------------------------------------------------------- a client in step with the base

  /**
   No stripped upsert for a legacy client clears a field while it leaves out another that counts: the client deletes
   the whole object and gets back only what changed.
   */
  ghost predicate StripSafe(form: Form, optional: seq<string>, before: Table<string>, after: Table<string>) {
    form.strip && !form.honours ==>
      forall k :: k in before && k in after ==> SafeAt(optional, before[k], after[k])
  }

  ghost predicate SafeAt(optional: seq<string>, before: Record, after: Record) {
    ClearedFields(optional, before, after) != [] ==>
      forall f :: f in after && f !in POSITION_FIELDS ==> Lookup(before, f) != Some(after[f])
  }

  /** For a client in step with the base, that is all there is to it. */
  lemma InStepFits(
    form: Form, optional: seq<string>, held: Table<string>, base: Table<string>, after: Table<string>)
    requires SameTables(form.loose, held, base) && Clearable(optional, base, after) && (form.strip ==> form.loose)
    ensures TableFits(form, optional, held, base, after) <==> StripSafe(form, optional, base, after)
  {
    hide FitsAt, SafeAt, SameTables, SameObject;
    SameByKey(form.loose, held, base);
    forall k
      ensures FitsAt(form, optional, Lookup(held, k), Lookup(base, k), Lookup(after, k))
              <==> (form.strip && !form.honours && k in base && k in after ==> SafeAt(optional, base[k], after[k]))
    {
      InStepFitsAt(form, optional, Lookup(held, k), Lookup(base, k), Lookup(after, k));
    }
  }

  lemma InStepFitsAt(
    form: Form, optional: seq<string>, held: Option<Record>, base: Option<Record>, after: Option<Record>)
    requires SameObject(form.loose, held, base) && (form.strip ==> form.loose)
    requires base.Some? && after.Some? ==> forall f :: f in base.value && f !in after.value ==> f in optional
    ensures FitsAt(form, optional, held, base, after)
            <==> (form.strip && !form.honours && base.Some? && after.Some? ==>
                    SafeAt(optional, base.value, after.value))
  {
    hide FieldFits, Dropped, ClearedFields, SameObject;
    SameNothing(form.loose, after);
    if base == after {
      if base.Some? {
        FirstIsMember(ClearedFields(optional, base.value, base.value));
      }
    } else if after.Some? && base.None? {
      NewObjectFits(form, optional, held, after.value);
    } else if after.Some? && Dropped(form, optional, base, after.value) {
      DroppedFits(form, optional, held, base, after.value);
    } else if after.Some? {
      forall f | !form.loose || f !in POSITION_FIELDS
        ensures FieldFits(form, optional, held, base, after.value, f)
                <==> (form.strip && !form.honours && Clears(optional, base, after.value) ==>
                        f in after.value && f !in POSITION_FIELDS ==> Lookup(base.value, f) != Some(after.value[f]))
      {
        FieldInStep(form, optional, held, base.value, after.value, f);
      }
    }
  }

  lemma NewObjectFits(form: Form, optional: seq<string>, held: Option<Record>, after: Record)
    requires SameObject(form.loose, held, None)
    ensures FitsAt(form, optional, held, None, Some(after))
  {
  }

  lemma DroppedFits(form: Form, optional: seq<string>, held: Option<Record>, base: Option<Record>, after: Record)
    requires (form.strip ==> form.loose) && SameObject(form.loose, held, base) && Dropped(form, optional, base, after)
    requires forall f :: f in base.value && f !in after ==> f in optional
    ensures SameObject(form.loose, held, Some(after))
    ensures ClearedFields(optional, base.value, after) == []
  {
    forall f | f in after && f !in POSITION_FIELDS
      ensures Lookup(base.value, f) == Some(after[f])
    {
      assert f !in CarriedPart(form, base, after);
    }
    assert forall f :: f in base.value && f !in after ==> f in ClearedFields(optional, base.value, after);
    assert Settled(base.value) == Settled(after);
  }

  lemma FieldInStep(
    form: Form, optional: seq<string>, held: Option<Record>, base: Record, after: Record, f: string)
    requires SameObject(form.loose, held, Some(base)) && (form.strip ==> form.loose)
    requires !form.loose || f !in POSITION_FIELDS
    requires forall g :: g in base && g !in after ==> g in optional
    ensures FieldFits(form, optional, held, Some(base), after, f)
            <==> (form.strip && !form.honours && Clears(optional, Some(base), after) ==>
                    f in after && f !in POSITION_FIELDS ==> Lookup(base, f) != Some(after[f]))
  {
    hide ClearedFields;
    SameRecords(form.loose, held.value, base);
    assert Lookup(held.value, f) == Lookup(base, f);
    if !Clears(optional, Some(base), after) && f !in after {
      NotCleared(optional, Some(base), after, f);
    }
  }

  // ---------------------------------------------------------------- whole patches

  /** Where base and target agree, the client agrees with the target already. */
  ghost predicate Follows<K(!new), V(!new)>(held: map<K, V>, base: map<K, V>, after: map<K, V>) {
    forall k :: Lookup(base, k) == Lookup(after, k) ==> Lookup(held, k) == Lookup(after, k)
  }

  ghost predicate TabFits(held: Option<TabState>, base: Option<TabState>, after: Option<TabState>) {
    var h, a, b := TabOrDefault(held), TabOrDefault(base), TabOrDefault(after);
    && (a.enabled == b.enabled ==> h.enabled == b.enabled)
    && (a.roomCode == b.roomCode ==> h.roomCode == b.roomCode)
    && (a.groups == b.groups ==> h.groups == b.groups)
    && Follows(h.reports, a.reports, b.reports)
  }

  lemma LastSeenExact(held: Table<string>, base: Table<string>, after: Table<string>, s: Option<Scope<string>>)
    requires ScopeDiff([], base, after, s)
    ensures ApplyOptional(ReplaceObject, held, s) == after <==> Follows(held, base, after)
  {
    var out := ApplyOptional(ReplaceObject, held, s);
    forall k
      ensures Lookup(out, k) == Lookup(after, k)
              <==> (Lookup(base, k) == Lookup(after, k) ==> Lookup(held, k) == Lookup(after, k))
    {
      if s.Some? {
        ReplacedAt(held, base, after, s.value, k);
      }
    }
    if Follows(held, base, after) {
      SameLookups(out, after);
    }
  }

  lemma ReplacedAt(held: Table<string>, base: Table<string>, after: Table<string>, s: Scope<string>, k: string)
    requires IsDiff([], base, after, s)
    ensures Lookup(ApplyScope(ReplaceObject, held, s), k)
            == if Lookup(base, k) == Lookup(after, k) then Lookup(held, k) else Lookup(after, k)
  {
    ApplyScopeAt(ReplaceObject, held, s, k);
    if HasId(s.upsert, k) {
      var i :| 0 <= i < |s.upsert| && s.upsert[i].id == k;
      assert IsUpsertOf([], base, after, s.upsert[i]);
    }
  }

  lemma TabExact(held: Option<TabState>, base: Option<TabState>, after: Option<TabState>)
    ensures var p := BuildTabPatch(base, after);
            (if p.Some? then ApplyTabPatch(held, p.value) else TabOrDefault(held)) == TabOrDefault(after)
            <==> TabFits(held, base, after)
  {
    var h, a, b := TabOrDefault(held), TabOrDefault(base), TabOrDefault(after);
    var upserts := map k | k in b.reports && Lookup(a.reports, k) != Some(b.reports[k]) :: b.reports[k];
    ReportsExact(h.reports, a.reports, b.reports, upserts);
    if BuildTabPatch(base, after).None? {
      TabRoundTrip(base, after);
      SameFollows(h.reports, b.reports);
    }
  }

  lemma ReportsExact(
    h: map<string, Report>, a: map<string, Report>, b: map<string, Report>, upserts: map<string, Report>)
    requires upserts == map k | k in b && Lookup(a, k) != Some(b[k]) :: b[k]
    ensures (h - (a.Keys - b.Keys)) + upserts == b <==> Follows(h, a, b)
  {
    var out := (h - (a.Keys - b.Keys)) + upserts;
    forall k
      ensures Lookup(out, k) == if Lookup(a, k) == Lookup(b, k) then Lookup(h, k) else Lookup(b, k)
    {
    }
    if Follows(h, a, b) {
      SameLookups(out, b);
    }
  }

  lemma SameFollows<K(!new), V(!new)>(held: map<K, V>, after: map<K, V>)
    ensures held == after <==> Follows(held, after, after)
  {
    if Follows(held, after, after) {
      SameLookups(held, after);
    }
  }

  lemma SomeTab(p: Option<TabPatch>, t: Option<TabState>)
    ensures p.Some? ==> TabOrDefault(Some(ApplyTabPatch(t, p.value))) == ApplyTabPatch(t, p.value)
  {
  }

  /** Scopes that never clear are left alone by the adaptation. */
  lemma LegacyLastSeen(
    held: Table<string>, a: Table<string>, b: Table<string>, s: Option<Scope<string>>, r: Option<Scope<string>>)
    requires ScopeDiff([], a, b, s) && AdaptedOptional(s, r)
    ensures ApplyOptional(ReplaceObject, held, r) == ApplyOptional(ReplaceObject, held, s)
  {
    if s.Some? {
      var x, y := s.value, r.value;
      forall i | 0 <= i < |x.upsert|
        ensures y.upsert[i] == x.upsert[i]
      {
        assert IsUpsertOf([], a, b, x.upsert[i]);
        assert x.upsert[i].clear == [];
      }
      assert y.upsert == x.upsert;
      assert forall k :: k in y.delete <==> k in x.delete;
      assert (set k | k in y.delete) == (set k | k in x.delete);
    }
  }

  /** The other tables are never stripped and have no positions. */
  function Whole(form: Form): (r: Form) {
    Form(form.honours, false, false)
  }

  ghost predicate InStep(loose: bool, a: Snapshot, b: Snapshot) {
    AgreeBesidesPlayers(a, b) && SameTables(loose, a.players, b.players)
  }

  /** A client for which the patch from `base` to `after` is right, whatever else it holds. */
  ghost predicate PatchFits(form: Form, held: Snapshot, base: Snapshot, after: Snapshot) {
    && TableFits(form, PLAYER_OPTIONAL, held.players, base.players, after.players)
    && TableFits(Whole(form), ENTITY_OPTIONAL, held.entities, base.entities, after.entities)
    && TableFits(Whole(form), WAYPOINT_OPTIONAL, held.waypoints, base.waypoints, after.waypoints)
    && TableFits(Whole(form), MARK_OPTIONAL, held.playerMarks, base.playerMarks, after.playerMarks)
    && Follows(held.lastSeenPlayers, base.lastSeenPlayers, after.lastSeenPlayers)
    && TabFits(held.tab, base.tab, after.tab)
    && (base.connections == after.connections ==> held.connections == after.connections)
  }

  /** A scope sent in a form; one of which stripping leaves nothing is not sent at all. */
  ghost predicate SentOptional(
    form: Form, base: Table<string>, s: Option<Scope<string>>, r: Option<Scope<string>>)
  {
    if s.None? then r.None?
    else IsSent(form, base, s.value, if r.Some? then r.value else Scope([], []))
  }

  /** `q` carries the patch `p` in the given form; its battle scope does not matter here. */
  ghost predicate SentPatch(form: Form, base: Snapshot, p: Patch, q: Patch) {
    && SentOptional(form, base.players, p.players, q.players)
    && SentOptional(Whole(form), base.entities, p.entities, q.entities)
    && SentOptional(Whole(form), base.waypoints, p.waypoints, q.waypoints)
    && SentOptional(Whole(form), base.playerMarks, p.playerMarks, q.playerMarks)
    && (if form.honours then q.lastSeenPlayers == p.lastSeenPlayers
        else AdaptedOptional(p.lastSeenPlayers, q.lastSeenPlayers))
    && q.tab == p.tab && q.connections == p.connections
  }

  lemma OptionalExact(
    form: Form, optional: seq<string>, held: Table<string>, base: Table<string>, after: Table<string>,
    s: Option<Scope<string>>, r: Option<Scope<string>>)
    requires ScopeDiff(optional, base, after, s) && SentOptional(form, base, s, r)
    ensures SameTables(form.loose, ApplyOptional(RuleOf(form), held, r), after)
            <==> TableFits(form, optional, held, base, after)
  {
    hide IsDiff, IsSent, SameTables, TableFits;
    if s.None? {
      NoDiffFits(form, optional, held, after);
    } else {
      var sent := if r.Some? then r.value else Scope([], []);
      TableExact(form, optional, held, base, after, s.value, sent);
      NothingSent(RuleOf(form), held);
    }
  }

  lemma NothingSent(rule: MergeRule, t: Table<string>)
    ensures ApplyScope(rule, t, Scope([], [])) == t
  {
  }

  /**
   In whatever form it is sent, the patch computed from `base` takes a client to the target, exactly or up to positions,
   if and only if it fits what the client holds, scope by scope.
   */
  lemma PatchExact(form: Form, c: Client, base: Snapshot, after: Snapshot, p: Patch, q: Patch)
    requires IsPatch(base, after, p) && SentPatch(form, base, p, q)
    ensures InStep(form.loose, ApplyPatch(RuleOf(form), c, q).snapshot, after)
            <==> PatchFits(form, c.snapshot, base, after)
  {
    hide ScopeDiff, ApplyOptional, SentOptional, AdaptedOptional, TableFits, Follows, TabFits, BuildTabPatch,
         ApplyTabPatch, TabOrDefault, SameSettled;
    var h := c.snapshot;
    OptionalExact(form, PLAYER_OPTIONAL, h.players, base.players, after.players, p.players, q.players);
    OptionalExact(Whole(form), ENTITY_OPTIONAL, h.entities, base.entities, after.entities, p.entities, q.entities);
    OptionalExact(Whole(form), WAYPOINT_OPTIONAL, h.waypoints, base.waypoints, after.waypoints, p.waypoints,
                  q.waypoints);
    OptionalExact(Whole(form), MARK_OPTIONAL, h.playerMarks, base.playerMarks, after.playerMarks, p.playerMarks,
                  q.playerMarks);
    LastSeenExact(h.lastSeenPlayers, base.lastSeenPlayers, after.lastSeenPlayers, p.lastSeenPlayers);
    if !form.honours {
      LegacyLastSeen(h.lastSeenPlayers, base.lastSeenPlayers, after.lastSeenPlayers, p.lastSeenPlayers,
                     q.lastSeenPlayers);
    }
    TabExact(h.tab, base.tab, after.tab);
    SomeTab(p.tab, h.tab);
  }

  /** Where base and target agree, only a client in step with them fits. */
  lemma AgreementFits(form: Form, held: Snapshot, base: Snapshot, after: Snapshot)
    requires Agree(base, after)
    ensures PatchFits(form, held, base, after) <==> InStep(form.loose, held, after)
  {
    hide TableFits, Follows, SameSettled;
    NoDiffFits(form, PLAYER_OPTIONAL, held.players, after.players);
    NoDiffFits(Whole(form), ENTITY_OPTIONAL, held.entities, after.entities);
    NoDiffFits(Whole(form), WAYPOINT_OPTIONAL, held.waypoints, after.waypoints);
    NoDiffFits(Whole(form), MARK_OPTIONAL, held.playerMarks, after.playerMarks);
    SameFollows(held.lastSeenPlayers, after.lastSeenPlayers);
    SameFollows(TabOrDefault(held.tab).reports, TabOrDefault(after.tab).reports);
  }

  /** For a client in step with the base it only matters whether stripping is safe. */
  lemma InStepPatchFits(form: Form, held: Snapshot, base: Snapshot, after: Snapshot)
    requires InStep(form.loose, held, base) && WellFormed(base) && WellFormed(after) && (form.strip ==> form.loose)
    ensures PatchFits(form, held, base, after) <==> StripSafe(form, PLAYER_OPTIONAL, base.players, after.players)
  {
    hide TableFits, Conforms, Clearable, StripSafe, SameSettled, TabOrDefault;
    ConformsClearable(PLAYER_REQUIRED, PLAYER_OPTIONAL, base.players, after.players);
    InStepFits(form, PLAYER_OPTIONAL, held.players, base.players, after.players);
    InStepWhole(form, ENTITY_REQUIRED, ENTITY_OPTIONAL, held.entities, base.entities, after.entities);
    InStepWhole(form, WAYPOINT_REQUIRED, WAYPOINT_OPTIONAL, held.waypoints, base.waypoints, after.waypoints);
    InStepWhole(form, MARK_REQUIRED, MARK_OPTIONAL, held.playerMarks, base.playerMarks, after.playerMarks);
  }

  lemma InStepWhole(
    form: Form, required: seq<string>, optional: seq<string>, held: Table<string>, base: Table<string>,
    after: Table<string>)
    requires held == base && Conforms(base, required, optional) && Conforms(after, required, optional)
    ensures TableFits(Whole(form), optional, held, base, after)
  {
    hide TableFits, Conforms;
    ConformsClearable(required, optional, base, after);
    InStepFits(Whole(form), optional, held, base, after);
  }
}
