/**
 Position stripping: on connections whose positions travel by datagram, reliable patches drop the position fields of
 players the client already knows, and with them every field that did not change.
 */
module Positions {
  import opened Prelude
  import opened Records
  import opened Snapshots

  /** The record without its position fields. */
  function Settled(o: Record): (r: Record) {
    map f | f in o && f !in POSITION_FIELDS :: o[f]
  }

  /** The same ids, and the same fields besides positions. */
  ghost predicate SameSettled(a: Table<string>, b: Table<string>) {
    forall k :: SettledAt(a, k) == SettledAt(b, k)
  }

  function SettledAt(t: Table<string>, k: string): (r: Option<Record>) {
    if k in t then Some(Settled(t[k])) else None
  }

  /** For a known player the fields that differ from the delivered ones, positions left out; a new player keeps all. */
  function Shortened(delivered: Table<string>, u: Upsert<string>): (r: Upsert<string>) {
    if u.id !in delivered then u
    else
      u.(data := map f | f in u.data && f !in POSITION_FIELDS && Lookup(delivered[u.id], f) != Some(u.data[f])
                 :: u.data[f])
  }

  /** An upsert survives if the player is new or something is left to say. */
  predicate Kept(delivered: Table<string>, u: Upsert<string>) {
    u.id !in delivered || Shortened(delivered, u).data != map[] || u.clear != []
  }

  function StripUpserts(delivered: Table<string>, ups: seq<Upsert<string>>): (r: seq<Upsert<string>>)
    decreases |ups|
  {
    if ups == [] then []
    else
      var n := |ups| - 1;
      StripUpserts(delivered, ups[..n]) + if Kept(delivered, ups[n]) then [Shortened(delivered, ups[n])] else []
  }

  /** The scope after stripping, none if nothing is left of it. */
  function Stripped(delivered: Table<string>, s: Scope<string>): (r: Option<Scope<string>>) {
    var ups := StripUpserts(delivered, s.upsert);
    if ups == [] && s.delete == [] then None else Some(Scope(ups, s.delete))
  }

  method StripScope(delivered: Table<string>, s: Scope<string>) returns (r: Option<Scope<string>>)
    ensures r == Stripped(delivered, s)
  {
    var kept: seq<Upsert<string>> := [];
    for i := 0 to |s.upsert|
      invariant kept == StripUpserts(delivered, s.upsert[..i])
    {
      var u := s.upsert[i];
      assert s.upsert[..i + 1][..i] == s.upsert[..i];
      if u.id !in delivered {
        kept := kept + [u];
      } else {
        var shortened := Shortened(delivered, u);
        if shortened.data != map[] || u.clear != [] {
          kept := kept + [shortened];
        }
      }
    }
    assert s.upsert[..|s.upsert|] == s.upsert;
    r := if kept == [] && s.delete == [] then None else Some(Scope(kept, s.delete));
  }

  /** Stripping touches every upsert on its own. */
  lemma {:induction false} StripUpsertsAt(delivered: Table<string>, ups: seq<Upsert<string>>, k: string)
    requires DistinctIds(ups)
    ensures DistinctIds(StripUpserts(delivered, ups))
    ensures forall x :: HasId(StripUpserts(delivered, ups), x) ==> HasId(ups, x)
    ensures forall i :: 0 <= i < |ups| && ups[i].id == k && !Kept(delivered, ups[i])
              ==> !HasId(StripUpserts(delivered, ups), k)
    ensures forall i :: 0 <= i < |ups| && ups[i].id == k && Kept(delivered, ups[i])
              ==> Shortened(delivered, ups[i]) in StripUpserts(delivered, ups)
    decreases |ups|
  {
    if ups != [] {
      var n := |ups| - 1;
      var init, last := ups[..n], ups[n];
      var r := StripUpserts(delivered, init);
      assert ups == init + [last];
      StripUpsertsAt(delivered, init, k);
      HasIdSnoc(init, last);
      assert !HasId(init, last.id);
      if Kept(delivered, last) {
        var s := Shortened(delivered, last);
        HasIdSnoc(r, s);
        assert !HasId(r, s.id);
        assert forall i :: 0 <= i < |r| ==> HasId(r, r[i].id);
      }
      forall i | 0 <= i < |ups| && ups[i].id == k
        ensures i < n ==> init[i] == ups[i]
      {
      }
    }
  }

  // ---------------------------------------------------------------- fields

  /** Clearing and applying either the full or the shortened delta brings the settled fields up to date. */
  lemma SettledMerge(held: Record, before: Record, after: Record, data: Record)
    requires Settled(held) == Settled(before)
    requires forall f :: f in before && f !in after ==> f in PLAYER_OPTIONAL
    requires || data == after
             || data == map f | f in after && f !in POSITION_FIELDS && Lookup(before, f) != Some(after[f]) :: after[f]
    ensures Settled(ApplyDelta(Clear(held, ClearedFields(PLAYER_OPTIONAL, before, after)), data)) == Settled(after)
  {
    var clear := ClearedFields(PLAYER_OPTIONAL, before, after);
    var merged := ApplyDelta(Clear(held, clear), data);
    forall f
      ensures Lookup(Settled(merged), f) == Lookup(Settled(after), f)
    {
      SameSettledField(held, before, f);
      if f !in POSITION_FIELDS {
        assert f in held <==> f in before;
        if f in after && f !in data {
          assert f in held && held[f] == after[f];
        }
      }
    }
    SameLookups(Settled(merged), Settled(after));
  }

  lemma SameSettledField(a: Record, b: Record, f: string)
    requires Settled(a) == Settled(b)
    ensures f !in POSITION_FIELDS ==> Lookup(a, f) == Lookup(b, f)
  {
    assert Lookup(Settled(a), f) == Lookup(Settled(b), f);
  }

  /** Nothing shortened and nothing cleared means no settled field changed. */
  lemma NothingSettledChanged(before: Record, after: Record)
    requires forall f :: f in before && f !in after ==> f in PLAYER_OPTIONAL
    requires ClearedFields(PLAYER_OPTIONAL, before, after) == []
    requires forall f :: f in after && f !in POSITION_FIELDS ==> Lookup(before, f) == Some(after[f])
    ensures Settled(before) == Settled(after)
  {
  }

  // ---------------------------------------------------------------- scopes

  /**
   A client that holds the delivered ids and settled fields holds those of the target after the patch, stripped or
   not: no player is missing or left over, new players arrive complete, cleared fields are gone.
   */
  lemma StrippedPatchSettles(
    held: Table<string>, before: Table<string>, after: Table<string>, s: Scope<string>, strip: bool)
    requires IsDiff(PLAYER_OPTIONAL, before, after, s)
    requires Clearable(PLAYER_OPTIONAL, before, after)
    requires SameSettled(held, before)
    ensures SameSettled(ApplyOptional(HonourClears, held, if strip then Stripped(before, s) else Some(s)), after)
    ensures forall k :: k in after && k !in before ==>
              Lookup(ApplyOptional(HonourClears, held, if strip then Stripped(before, s) else Some(s)), k)
              == Some(after[k])
  {
    var out := ApplyOptional(HonourClears, held, if strip then Stripped(before, s) else Some(s));
    forall k
      ensures SettledAt(out, k) == SettledAt(after, k)
      ensures k in after && k !in before ==> Lookup(out, k) == Some(after[k])
    {
      StrippedPatchSettlesAt(held, before, after, s, strip, k);
    }
  }

  lemma StrippedPatchSettlesAt(
    held: Table<string>, before: Table<string>, after: Table<string>, s: Scope<string>, strip: bool, k: string)
    requires IsDiff(PLAYER_OPTIONAL, before, after, s)
    requires Clearable(PLAYER_OPTIONAL, before, after)
    requires SameSettled(held, before)
    ensures SettledAt(ApplyOptional(HonourClears, held, if strip then Stripped(before, s) else Some(s)), k)
            == SettledAt(after, k)
    ensures k in after && k !in before ==>
              Lookup(ApplyOptional(HonourClears, held, if strip then Stripped(before, s) else Some(s)), k)
              == Some(after[k])
  {
    var r := if strip then Scope(StripUpserts(before, s.upsert), s.delete) else s;
    var out := ApplyScope(HonourClears, held, r);
    EmptyScope(held, r);
    StripUpsertsAt(before, s.upsert, k);
    ApplyScopeAt(HonourClears, held, r, k);
    assert SettledAt(held, k) == SettledAt(before, k);
    if !HasId(s.upsert, k) {
      assert !HasId(r.upsert, k);
    } else {
      var i :| 0 <= i < |s.upsert| && s.upsert[i].id == k;
      var u := s.upsert[i];
      assert IsUpsertOf(PLAYER_OPTIONAL, before, after, u);
      var sent := if strip then Shortened(before, u) else u;
      if strip && !Kept(before, u) {
        ShortenedAway(before, after, u);
      } else {
        assert sent in r.upsert;
        UpsertSettles(held, before, after, u, sent);
      }
    }
  }

  lemma EmptyScope(t: Table<string>, s: Scope<string>)
    ensures s.upsert == [] && s.delete == [] ==> ApplyScope(HonourClears, t, s) == t
  {
  }

  /** A dropped upsert had nothing settled to say. */
  lemma ShortenedAway(before: Table<string>, after: Table<string>, u: Upsert<string>)
    requires IsUpsertOf(PLAYER_OPTIONAL, before, after, u) && !Kept(before, u)
    requires Clearable(PLAYER_OPTIONAL, before, after)
    ensures u.id in before && Settled(before[u.id]) == Settled(after[u.id])
  {
    forall f | f in after[u.id] && f !in POSITION_FIELDS
      ensures Lookup(before[u.id], f) == Some(after[u.id][f])
    {
      assert f !in Shortened(before, u).data;
    }
    NothingSettledChanged(before[u.id], after[u.id]);
  }

  lemma UpsertSettles(
    held: Table<string>, before: Table<string>, after: Table<string>, u: Upsert<string>, sent: Upsert<string>)
    requires IsUpsertOf(PLAYER_OPTIONAL, before, after, u) && (sent == u || sent == Shortened(before, u))
    requires Clearable(PLAYER_OPTIONAL, before, after)
    requires SettledAt(held, u.id) == SettledAt(before, u.id)
    ensures Settled(Merged(HonourClears, Lookup(held, u.id), sent)) == Settled(after[u.id])
    ensures u.id !in before ==> Merged(HonourClears, Lookup(held, u.id), sent) == after[u.id]
  {
    if u.id in before {
      SettledMerge(held[u.id], before[u.id], after[u.id], sent.data);
    } else {
      assert Merged(HonourClears, None, u) == u.data;
    }
  }
}
