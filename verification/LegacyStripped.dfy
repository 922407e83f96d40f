/**
 Position stripping for a client below 0.6.5, which the code does not rule out: a stripped upsert is not a whole object,
 so an upsert that clears a field costs such a client the rest of the player, coordinates included.
 */
module LegacyStripped {
  import opened Prelude
  import opened Records
  import opened BattleLog
  import opened LegacyPatch
  import opened Snapshots
  import opened Positions
  import opened PatchFit
  import opened Delivery
  import opened ProtocolEpochs
  import Broadcast
  import StaleBase

  /** No player that stays loses a field. */
  ghost predicate KeepsFields(before: Table<string>, after: Table<string>) {
    forall k :: k in before && k in after ==> before[k].Keys <= after[k].Keys
  }

  /** Then stripping is safe. */
  lemma KeepingFieldsIsSafe(form: Form, before: Table<string>, after: Table<string>)
    requires KeepsFields(before, after)
    ensures StripSafe(form, PLAYER_OPTIONAL, before, after)
  {
    forall k | k in before && k in after
      ensures SafeAt(PLAYER_OPTIONAL, before[k], after[k])
    {
      FirstIsMember(ClearedFields(PLAYER_OPTIONAL, before[k], after[k]));
    }
  }

  /**
   A legacy client that holds the players, with whatever positions datagrams have brought, ends where a current client
   fed the same stripped players ends if and only if no player that stays loses a field.
   */
  lemma StrippedExact(
    held: Table<string>, before: Table<string>, after: Table<string>, s: Scope<string>, stripped: Scope<string>,
    adapted: Scope<string>)
    requires held.Keys == before.Keys && Conforms(held, PLAYER_REQUIRED, PLAYER_OPTIONAL)
    requires IsDiff(PLAYER_OPTIONAL, before, after, s)
    requires Conforms(before, PLAYER_REQUIRED, PLAYER_OPTIONAL) && Conforms(after, PLAYER_REQUIRED, PLAYER_OPTIONAL)
    requires Stripped(before, s) == Some(stripped) && IsAdapted(stripped, adapted)
    ensures ApplyScope(IgnoreClears, held, adapted) == ApplyScope(HonourClears, held, stripped)
            <==> KeepsFields(before, after)
  {
    hide Conforms, IsAdapted, StripUpserts;
    assert DistinctIds(stripped.upsert) by {
      StripUpsertsAt(before, s.upsert, "");
    }
    AdaptedExact(held, stripped, adapted);
    if KeepsFields(before, after) {
      forall u | u in stripped.upsert
        ensures WholeAt(held, stripped, u)
      {
        StrippedFrom(before, s.upsert, u);
        var v :| v in s.upsert && u == Shortened(before, v);
        NothingDropped(before, after, s, v);
      }
    } else {
      var k :| k in before && k in after && !(before[k].Keys <= after[k].Keys);
      var u := DroppedIsCleared(before, after, s, k);
      StripUpsertsAt(before, s.upsert, k);
      assert k in held.Keys;
      NotWhole(held, before, after, s, stripped, u);
    }
  }

  lemma {:induction false} StrippedFrom(before: Table<string>, ups: seq<Upsert<string>>, u: Upsert<string>)
    requires u in StripUpserts(before, ups)
    ensures exists v :: v in ups && u == Shortened(before, v)
    decreases |ups|
  {
    var n := |ups| - 1;
    if u in StripUpserts(before, ups[..n]) {
      StrippedFrom(before, ups[..n], u);
    } else {
      assert ups[n] in ups;
    }
  }

  lemma NothingDropped(before: Table<string>, after: Table<string>, s: Scope<string>, v: Upsert<string>)
    requires IsDiff(PLAYER_OPTIONAL, before, after, s) && v in s.upsert && KeepsFields(before, after)
    ensures v.clear == []
  {
    var i :| 0 <= i < |s.upsert| && s.upsert[i] == v;
    assert IsUpsertOf(PLAYER_OPTIONAL, before, after, s.upsert[i]);
    FirstIsMember(v.clear);
  }

  lemma DroppedIsCleared(before: Table<string>, after: Table<string>, s: Scope<string>, k: string)
    returns (u: Upsert<string>)
    requires IsDiff(PLAYER_OPTIONAL, before, after, s) && Conforms(before, PLAYER_REQUIRED, PLAYER_OPTIONAL)
    requires Conforms(after, PLAYER_REQUIRED, PLAYER_OPTIONAL)
    requires k in before && k in after && !(before[k].Keys <= after[k].Keys)
    ensures u in s.upsert && u.id == k && u.clear != []
    ensures u.clear == ClearedFields(PLAYER_OPTIONAL, before[k], after[k])
  {
    ConformsClearable(PLAYER_REQUIRED, PLAYER_OPTIONAL, before, after);
    var f :| f in before[k].Keys && f !in after[k].Keys;
    assert HasId(s.upsert, k);
    var i :| 0 <= i < |s.upsert| && s.upsert[i].id == k;
    u := s.upsert[i];
    assert IsUpsertOf(PLAYER_OPTIONAL, before, after, u);
    assert f in u.clear;
  }

  lemma NotWhole(
    held: Table<string>, before: Table<string>, after: Table<string>, s: Scope<string>, stripped: Scope<string>,
    u: Upsert<string>)
    requires IsDiff(PLAYER_OPTIONAL, before, after, s) && Conforms(held, PLAYER_REQUIRED, PLAYER_OPTIONAL)
    requires u in s.upsert && u.clear != [] && u.id in held && u.id in before && u.id in after
    requires u.clear == ClearedFields(PLAYER_OPTIONAL, before[u.id], after[u.id])
    requires Stripped(before, s) == Some(stripped)
    ensures !WholeWhereCleared(held, stripped)
  {
    hide StripUpserts;
    var i :| 0 <= i < |s.upsert| && s.upsert[i] == u;
    StripUpsertsAt(before, s.upsert, u.id);
    var v := Shortened(before, u);
    assert v in stripped.upsert;
    var j :| 0 <= j < |stripped.upsert| && stripped.upsert[j] == v;
    XIsRequired();
    assert "x" in held[u.id];
    assert !WholeAt(held, stripped, stripped.upsert[j]);
  }

  lemma XIsRequired()
    ensures "x" in PLAYER_REQUIRED && "x" in POSITION_FIELDS && "x" !in PLAYER_OPTIONAL
  {
    assert PLAYER_REQUIRED[0] == "x" && POSITION_FIELDS[0] == "x";
    assert forall f :: f in PLAYER_OPTIONAL ==> |f| > 1;
  }

  // ---------------------------------------------------------------- a payload that does it

  const NAME := "playerName"

  /** A player without a name, and the same with one, as the relay stores them and every version sees them. */
  function Unnamed(): (r: Record) {
    StaleBase.At(0)
  }

  function Named(): (r: Record) {
    Unnamed()[NAME := Text("A")]
  }

  function One(player: Record): (s: Snapshot) {
    EMPTY_SNAPSHOT.(players := map["p" := player])
  }

  /** A connection of the given version that takes positions by datagram and has acknowledged the named player. */
  function Connection(v: Version): (r: Broadcast.Recipient) {
    Broadcast.Recipient(
      Broadcast.Players, {}, v, false, Some(Broadcast.Delivered(0, One(Named()))), 0, false, true, true)
  }

  function Cleared(): (r: seq<string>) {
    ClearedFields(PLAYER_OPTIONAL, Named(), Unnamed())
  }

  function Diff(): (p: Patch) {
    EMPTY_PATCH.(players := Some(Scope([Upsert("p", Unnamed(), Cleared())], [])))
  }

  function Bare(): (p: Patch) {
    EMPTY_PATCH.(players := Some(Scope([Upsert("p", map[], Cleared())], [])))
  }

  function Sent(): (p: Patch) {
    EMPTY_PATCH.(players := Some(Scope([Upsert("p", map[], [])], ["p"])))
  }

  lemma UnnamedFields(f: string)
    ensures f in PLAYER_REQUIRED ==> f in Unnamed()
    ensures f in Unnamed() ==> f in PLAYER_REQUIRED || f in PLAYER_OPTIONAL
    ensures f == NAME || f in Broadcast.SOURCE_FIELDS ==> f !in Unnamed()
  {
  }

  lemma NameIsOptional()
    ensures NAME in PLAYER_OPTIONAL && NAME !in PLAYER_REQUIRED
  {
    assert PLAYER_OPTIONAL[3] == NAME;
    assert forall f :: f in PLAYER_REQUIRED ==> |f| < 10;
  }

  lemma NameIsShown()
    ensures NAME !in Broadcast.SOURCE_FIELDS
  {
    assert forall f :: f in Broadcast.SOURCE_FIELDS ==> |f| > 10;
  }

  lemma NameIsCleared()
    ensures Cleared() != [] && Named() != Unnamed()
  {
    hide Unnamed;
    NameIsOptional();
    UnnamedFields(NAME);
    assert NAME in Cleared();
    assert NAME in Named() && NAME !in Unnamed();
  }

  /** Both snapshots are complete, and versions without source metadata see them as they are. */
  lemma PlayerIsShown(player: Record, f: Features)
    requires player == Named() || player == Unnamed()
    ensures WellFormed(One(player)) && Broadcast.ProjectSnapshot(f, One(player)) == One(player)
  {
    hide Unnamed;
    NameIsOptional();
    NameIsShown();
    forall g
      ensures g in PLAYER_REQUIRED ==> g in player
      ensures g in player ==> g in PLAYER_REQUIRED || g in PLAYER_OPTIONAL
      ensures g in Broadcast.SOURCE_FIELDS ==> g !in player
    {
      UnnamedFields(g);
    }
    OneConforms(player);
    assert Clear(player, Broadcast.SOURCE_FIELDS) == player;
    OneIsShown(player, f);
  }

  lemma OneConforms(player: Record)
    requires forall f :: f in PLAYER_REQUIRED ==> f in player
    requires forall f :: f in player ==> f in PLAYER_REQUIRED || f in PLAYER_OPTIONAL
    ensures WellFormed(One(player))
  {
  }

  lemma OneIsShown(player: Record, f: Features)
    requires Clear(player, Broadcast.SOURCE_FIELDS) == player
    ensures Broadcast.ProjectSnapshot(f, One(player)) == One(player)
  {
    assert Broadcast.WithoutFields(One(player).players, Broadcast.SOURCE_FIELDS) == One(player).players;
  }

  lemma DiffIsPatch()
    ensures IsPatch(One(Named()), One(Unnamed()), Diff()) && !Agree(One(Named()), One(Unnamed()))
  {
    hide WellFormed, Named, Unnamed, ClearedFields, IsDiff;
    NameIsCleared();
    PlayerDiff(Named(), Unnamed());
    StaleBase.EmptyDiffs(None);
  }

  lemma PlayerDiff(a: Record, b: Record)
    requires a != b
    ensures IsDiff(PLAYER_OPTIONAL, One(a).players, One(b).players,
                   Scope([Upsert("p", b, ClearedFields(PLAYER_OPTIONAL, a, b))], []))
    ensures One(a).players != One(b).players
  {
    hide ClearedFields;
    var ups := [Upsert("p", b, ClearedFields(PLAYER_OPTIONAL, a, b))];
    assert ups[0].id == "p";
    assert One(a).players["p"] != One(b).players["p"];
  }

  lemma StripsToNothing()
    ensures StripPatch(Diff(), One(Named())) == Some(Bare())
  {
    hide ClearedFields, Unnamed;
    NameIsCleared();
    var u := Upsert("p", Unnamed(), Cleared());
    NothingElseChanged();
    assert [u][..0] == [];
    assert StripUpserts(One(Named()).players, [u]) == [Upsert("p", map[], Cleared())];
  }

  lemma NothingElseChanged()
    ensures Shortened(One(Named()).players, Upsert("p", Unnamed(), Cleared())).data == map[]
  {
    hide ClearedFields, Unnamed;
    UnnamedFields(NAME);
  }

  lemma SentIsAdapted()
    ensures IsAdaptedPatch(Bare(), Sent())
  {
    hide Cleared, Named, Unnamed;
    NameIsCleared();
    var ups := [Upsert("p", map[], Cleared())];
    assert ups[0].id == "p" && ups[0].clear != [];
    assert ClearsAt(ups, "p");
  }

  /**
   A payload that a broadcast may build for any connection below 0.6.5 that takes positions by datagram: a stored player
   drops its name, and the client, which held exactly the delivered snapshot, is left with a player that has no
   coordinates. Delivered snapshot and target are what such a connection gets to see.
   */
  lemma CoordinatesAreLost(v: Version, view: Broadcast.View, c: Client)
    requires !FeaturesOf(v).clearFields && c.snapshot == One(Named())
    requires view(Broadcast.Players, {}) == One(Unnamed())
    ensures WellFormed(One(Named())) && WellFormed(One(Unnamed())) && BattleOk(StaleBase.NO_BATTLE)
    ensures Broadcast.ProjectSnapshot(FeaturesOf(v), One(Named())) == One(Named())
    ensures Broadcast.TargetOf(view, Connection(v)) == One(Unnamed())
    ensures Broadcast.FreshPayload(view, StaleBase.NO_BATTLE, Connection(v), Some(Delta(Sent())))
    ensures Receive(Broadcast.ConfigOf(Connection(v)), c, Some(Delta(Sent()))).snapshot.players == map["p" := map[]]
  {
    hide Named, Unnamed, Cleared, ClearedFields, WellFormed, IsPayload, FeaturesOf, Broadcast.ProjectSnapshot;
    PlayerIsShown(Named(), FeaturesOf(v));
    PlayerIsShown(Unnamed(), FeaturesOf(v));
    var q := Connection(v);
    var cfg := Broadcast.ConfigOf(q);
    Payload(cfg);
    var b :| IsPayload(cfg, false, Some(One(Named())), 0, true, One(Unnamed()), StaleBase.NO_BATTLE, b,
                       Some(Delta(Sent())));
    assert IsPayload(cfg, q.forceFull, Broadcast.DeliveredOf(q), q.deliveredBattle, q.strip,
                     Broadcast.TargetOf(view, q), StaleBase.NO_BATTLE, b, Some(Delta(Sent())));
    var t := c.snapshot.players;
    var u: Upsert<string> := Upsert("p", map[], []);
    assert t - (set k: string | k in ["p"]) == map[];
    assert ApplyUpserts(IgnoreClears, map[], [u]) == ApplyUpserts(IgnoreClears, map["p" := map[]], [u][1..]);
  }

  lemma Payload(cfg: Config)
    requires !cfg.honours
    ensures BattleOk(StaleBase.NO_BATTLE)
    ensures exists b :: IsPayload(cfg, false, Some(One(Named())), 0, true, One(Unnamed()), StaleBase.NO_BATTLE, b,
                                  Some(Delta(Sent())))
  {
    hide One, Diff, Bare, Sent, IsPatch, StripPatch, IsAdaptedPatch, Agree;
    DiffIsPatch();
    StripsToNothing();
    SentIsAdapted();
    StaleBase.NoBattleOk(cfg.includeMode);
    assert IsPayload(cfg, false, Some(One(Named())), 0, true, One(Unnamed()), StaleBase.NO_BATTLE,
                     Build(UpToDate, Some(Diff()), Some(Diff()), Some(Bare())), Some(Delta(Sent())));
  }
}
