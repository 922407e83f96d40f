/**
 Room snapshots, the patch between two of them, and the client that applies it.

 A snapshot's `room_code` never changes within a room and is not diffed; the battle chunks of a frame come from the
 room's battle cache, not from the snapshot. Agreement disregards `serverTime` and the derived connection count.
 */
module Snapshots {
  import opened Prelude
  import opened Records
  import opened BattleLog
  import opened LegacyPatch

  // ---------------------------------------------------------------- schemas

  const PLAYER_REQUIRED := ["x", "y", "z", "dimension"]
  const PLAYER_OPTIONAL :=
    ["vx", "vy", "vz", "playerName", "playerUUID", "health", "maxHealth", "armor", "isRiding", "width", "height",
     "positionSourceId", "positionSourceKind", "positionSourceDisplayName", "positionResolution"]
  const ENTITY_REQUIRED := ["x", "y", "z", "dimension"]
  const ENTITY_OPTIONAL := ["vx", "vy", "vz", "entityType", "entityName", "width", "height"]
  const WAYPOINT_REQUIRED := ["x", "y", "z", "dimension", "name"]
  const WAYPOINT_OPTIONAL :=
    ["symbol", "color", "ownerId", "ownerName", "createdAt", "ttlSeconds", "waypointKind", "replaceOldQuick",
     "maxQuickMarks", "targetType", "targetEntityId", "targetEntityType", "targetEntityName", "roomCode", "permanent",
     "tacticalType", "sourceType", "deletableBy"]
  const MARK_REQUIRED := ["team"]
  const MARK_OPTIONAL := ["color", "label", "source"]

  /** Fields carried by movement datagrams instead of stripped patches. */
  const POSITION_FIELDS := ["x", "y", "z", "vx", "vy", "vz", "dimension"]

  ghost predicate Conforms(t: Table<string>, required: seq<string>, optional: seq<string>) {
    && (forall k, f :: k in t && f in required ==> f in t[k])
    && (forall k, f :: k in t && f in t[k] ==> f in required || f in optional)
  }

  /** Between conforming tables only optional fields disappear. */
  lemma ConformsClearable(required: seq<string>, optional: seq<string>, a: Table<string>, b: Table<string>)
    requires Conforms(a, required, optional) && Conforms(b, required, optional)
    ensures Clearable(optional, a, b)
  {
  }

  ghost predicate Clearable(optional: seq<string>, a: Table<string>, b: Table<string>) {
    forall k, f :: k in a && k in b && f in a[k] && f !in b[k] ==> f in optional
  }

  // ---------------------------------------------------------------- snapshots and patches

  datatype Report = Report(timestamp: Option<int>, players: seq<Record>)
  datatype TabState = TabState(
    enabled: bool, roomCode: string, groups: seq<seq<string>>, reports: map<string, Report>)
  datatype TabPatch = TabPatch(
    enabled: Option<bool>, roomCode: Option<string>, groups: Option<seq<seq<string>>>,
    upsertReports: map<string, Report>, deleteReports: set<string>)

  datatype Snapshot = Snapshot(
    players: Table<string>, entities: Table<string>, waypoints: Table<string>, lastSeenPlayers: Table<string>,
    playerMarks: Table<string>, tab: Option<TabState>, connections: seq<string>, connectionsCount: Option<int>,
    serverTime: Option<int>)

  datatype Patch = Patch(
    players: Option<Scope<string>>, entities: Option<Scope<string>>, waypoints: Option<Scope<string>>,
    battleChunks: Option<Scope<ChunkKey>>, lastSeenPlayers: Option<Scope<string>>, playerMarks: Option<Scope<string>>,
    tab: Option<TabPatch>, connections: Option<seq<string>>, connectionsCount: Option<int>, serverTime: Option<int>)

  const EMPTY_SNAPSHOT := Snapshot(map[], map[], map[], map[], map[], None, [], None, None)
  const EMPTY_PATCH := Patch(None, None, None, None, None, None, None, None, None, None)

  ghost predicate WellFormed(s: Snapshot) {
    && Conforms(s.players, PLAYER_REQUIRED, PLAYER_OPTIONAL)
    && Conforms(s.entities, ENTITY_REQUIRED, ENTITY_OPTIONAL)
    && Conforms(s.waypoints, WAYPOINT_REQUIRED, WAYPOINT_OPTIONAL)
    && Conforms(s.playerMarks, MARK_REQUIRED, MARK_OPTIONAL)
  }

  function TabOrDefault(t: Option<TabState>): (r: TabState) {
    if t.Some? then t.value else TabState(false, "", [], map[])
  }

  /** Everything but the players is the same. */
  ghost predicate AgreeBesidesPlayers(a: Snapshot, b: Snapshot) {
    && a.entities == b.entities && a.waypoints == b.waypoints && a.lastSeenPlayers == b.lastSeenPlayers
    && a.playerMarks == b.playerMarks && TabOrDefault(a.tab) == TabOrDefault(b.tab) && a.connections == b.connections
  }

  ghost predicate Agree(a: Snapshot, b: Snapshot) {
    a.players == b.players && AgreeBesidesPlayers(a, b)
  }

  // ---------------------------------------------------------------- tab state

  function BuildTabPatch(before: Option<TabState>, after: Option<TabState>): (r: Option<TabPatch>) {
    var a, b := TabOrDefault(before), TabOrDefault(after);
    var p := TabPatch(
      if a.enabled != b.enabled then Some(b.enabled) else None,
      if a.roomCode != b.roomCode then Some(b.roomCode) else None,
      if a.groups != b.groups then Some(b.groups) else None,
      map k | k in b.reports && Lookup(a.reports, k) != Some(b.reports[k]) :: b.reports[k],
      a.reports.Keys - b.reports.Keys);
    if p.enabled.Some? || p.roomCode.Some? || p.groups.Some? || p.upsertReports != map[] || p.deleteReports != {} then
      Some(p)
    else None
  }

  function ApplyTabPatch(t: Option<TabState>, p: TabPatch): (r: TabState) {
    var a := TabOrDefault(t);
    TabState(
      if p.enabled.Some? then p.enabled.value else a.enabled,
      if p.roomCode.Some? then p.roomCode.value else a.roomCode,
      if p.groups.Some? then p.groups.value else a.groups,
      (a.reports - p.deleteReports) + p.upsertReports)
  }

  /** The tab patch is absent exactly for equal states and otherwise leads from the one to the other. */
  lemma TabRoundTrip(before: Option<TabState>, after: Option<TabState>)
    ensures BuildTabPatch(before, after).None? <==> TabOrDefault(before) == TabOrDefault(after)
    ensures BuildTabPatch(before, after).Some?
            ==> ApplyTabPatch(before, BuildTabPatch(before, after).value) == TabOrDefault(after)
  {
    var a, b := TabOrDefault(before), TabOrDefault(after);
    var upserts := map k | k in b.reports && Lookup(a.reports, k) != Some(b.reports[k]) :: b.reports[k];
    var merged := (a.reports - (a.reports.Keys - b.reports.Keys)) + upserts;
    forall k
      ensures Lookup(merged, k) == Lookup(b.reports, k)
    {
    }
    SameLookups(merged, b.reports);
    if upserts == map[] && a.reports.Keys - b.reports.Keys == {} {
      forall k
        ensures Lookup(a.reports, k) == Lookup(b.reports, k)
      {
        assert k !in upserts && k !in a.reports.Keys - b.reports.Keys;
      }
      SameLookups(a.reports, b.reports);
    }
  }

  // ---------------------------------------------------------------- build_patch

  ghost predicate ScopeDiff(optional: seq<string>, a: Table<string>, b: Table<string>, s: Option<Scope<string>>) {
    && (s.None? <==> a == b)
    && (s.Some? ==> IsDiff(optional, a, b, s.value))
  }

  /** The patches the relay may build from `a` to `b`. Upserts of last-seen players never clear anything. */
  ghost predicate IsPatch(a: Snapshot, b: Snapshot, p: Patch) {
    && ScopeDiff(PLAYER_OPTIONAL, a.players, b.players, p.players)
    && ScopeDiff(ENTITY_OPTIONAL, a.entities, b.entities, p.entities)
    && ScopeDiff(WAYPOINT_OPTIONAL, a.waypoints, b.waypoints, p.waypoints)
    && ScopeDiff([], a.lastSeenPlayers, b.lastSeenPlayers, p.lastSeenPlayers)
    && ScopeDiff(MARK_OPTIONAL, a.playerMarks, b.playerMarks, p.playerMarks)
    && p.battleChunks.None?
    && p.tab == BuildTabPatch(a.tab, b.tab)
    && p.connections == (if a.connections != b.connections then Some(b.connections) else None)
    && p.connectionsCount == (if a.connections != b.connections
                              then Some(if b.connectionsCount.Some? then b.connectionsCount.value else 0) else None)
    && p.serverTime == b.serverTime
  }

  predicate Blank(p: Patch) {
    && p.players.None? && p.entities.None? && p.waypoints.None? && p.battleChunks.None? && p.lastSeenPlayers.None?
    && p.playerMarks.None? && p.tab.None? && p.connections.None?
  }

  method BuildPatch(before: Snapshot, after: Snapshot) returns (patch: Option<Patch>)
    ensures patch.None? <==> Agree(before, after)
    ensures patch.Some? ==> IsPatch(before, after, patch.value)
  {
    var players := MapPatch(PLAYER_OPTIONAL, before.players, after.players);
    var entities := MapPatch(ENTITY_OPTIONAL, before.entities, after.entities);
    var waypoints := MapPatch(WAYPOINT_OPTIONAL, before.waypoints, after.waypoints);
    var lastSeenPlayers := MapPatch([], before.lastSeenPlayers, after.lastSeenPlayers);
    var playerMarks := MapPatch(MARK_OPTIONAL, before.playerMarks, after.playerMarks);
    var tab := BuildTabPatch(before.tab, after.tab);
    TabRoundTrip(before.tab, after.tab);
    var connectionsChanged := before.connections != after.connections;
    var p := Patch(players, entities, waypoints, None, lastSeenPlayers, playerMarks, tab,
                   if connectionsChanged then Some(after.connections) else None,
                   if connectionsChanged
                   then Some(if after.connectionsCount.Some? then after.connectionsCount.value else 0) else None,
                   after.serverTime);
    patch := if Blank(p) then None else Some(p);
  }

  // ---------------------------------------------------------------- client

  datatype Client = Client(snapshot: Snapshot, battle: Table<ChunkKey>)

  function ApplyOptional<K>(rule: MergeRule, t: Table<K>, s: Option<Scope<K>>): (r: Table<K>) {
    if s.Some? then ApplyScope(rule, t, s.value) else t
  }

  /** A client applies every scope; last-seen upserts carry whole objects, all others are merged field by field. */
  function ApplyPatch(rule: MergeRule, c: Client, p: Patch): (r: Client) {
    var s := c.snapshot;
    Client(
      Snapshot(
        ApplyOptional(rule, s.players, p.players),
        ApplyOptional(rule, s.entities, p.entities),
        ApplyOptional(rule, s.waypoints, p.waypoints),
        ApplyOptional(ReplaceObject, s.lastSeenPlayers, p.lastSeenPlayers),
        ApplyOptional(rule, s.playerMarks, p.playerMarks),
        if p.tab.Some? then Some(ApplyTabPatch(s.tab, p.tab.value)) else s.tab,
        if p.connections.Some? then p.connections.value else s.connections,
        if p.connectionsCount.Some? then p.connectionsCount else s.connectionsCount,
        if p.serverTime.Some? then p.serverTime else s.serverTime),
      ApplyOptional(rule, c.battle, p.battleChunks))
  }

  lemma ScopeRoundTrip(
    required: seq<string>, optional: seq<string>, a: Table<string>, b: Table<string>, s: Option<Scope<string>>)
    requires ScopeDiff(optional, a, b, s)
    requires Conforms(a, required, optional) && Conforms(b, required, optional)
    ensures ApplyOptional(HonourClears, a, s) == b
  {
    if s.Some? {
      ConformsClearable(required, optional, a, b);
      DiffRoundTrip(optional, a, b, s.value);
    }
  }

  lemma LastSeenRoundTrip(a: Table<string>, b: Table<string>, s: Option<Scope<string>>)
    requires ScopeDiff([], a, b, s)
    ensures ApplyOptional(ReplaceObject, a, s) == b
  {
    if s.Some? {
      ReplaceRoundTrip([], a, b, s.value);
    }
  }

  /** Outside the players, a client that agrees with the old snapshot agrees with the new one after the patch. */
  lemma PatchBesidesPlayers(c: Client, before: Snapshot, after: Snapshot, p: Patch)
    requires IsPatch(before, after, p) && WellFormed(before) && WellFormed(after)
    requires AgreeBesidesPlayers(c.snapshot, before)
    ensures AgreeBesidesPlayers(ApplyPatch(HonourClears, c, p).snapshot, after)
  {
    hide Conforms, ScopeDiff, BuildTabPatch, ApplyTabPatch, ApplyOptional, TabOrDefault;
    ScopeRoundTrip(ENTITY_REQUIRED, ENTITY_OPTIONAL, before.entities, after.entities, p.entities);
    ScopeRoundTrip(WAYPOINT_REQUIRED, WAYPOINT_OPTIONAL, before.waypoints, after.waypoints, p.waypoints);
    ScopeRoundTrip(MARK_REQUIRED, MARK_OPTIONAL, before.playerMarks, after.playerMarks, p.playerMarks);
    LastSeenRoundTrip(before.lastSeenPlayers, after.lastSeenPlayers, p.lastSeenPlayers);
    TabRoundTrip(before.tab, after.tab);
    TabByDefault(c.snapshot.tab, before.tab, p.tab);
  }

  lemma TabByDefault(a: Option<TabState>, b: Option<TabState>, p: Option<TabPatch>)
    requires TabOrDefault(a) == TabOrDefault(b)
    ensures p.Some? ==> ApplyTabPatch(a, p.value) == ApplyTabPatch(b, p.value)
    ensures forall t :: TabOrDefault(Some(t)) == t
  {
  }

  /** Merging the patch of (before, after) into a client that agrees with `before` gives agreement with `after`. */
  lemma PatchRoundTrip(c: Client, before: Snapshot, after: Snapshot, p: Patch)
    requires IsPatch(before, after, p) && WellFormed(before) && WellFormed(after)
    requires Agree(c.snapshot, before)
    ensures Agree(ApplyPatch(HonourClears, c, p).snapshot, after)
    ensures ApplyPatch(HonourClears, c, p).battle == c.battle
  {
    PatchBesidesPlayers(c, before, after, p);
    ScopeRoundTrip(PLAYER_REQUIRED, PLAYER_OPTIONAL, before.players, after.players, p.players);
  }

  /** What the patch says besides: the new server time, and how many connections there are when they have changed. */
  lemma PatchCounts(c: Client, before: Snapshot, after: Snapshot, p: Patch)
    requires IsPatch(before, after, p)
    ensures var r := ApplyPatch(HonourClears, c, p).snapshot;
            && r.serverTime == (if after.serverTime.Some? then after.serverTime else c.snapshot.serverTime)
            && (before.connections == after.connections ==> r.connectionsCount == c.snapshot.connectionsCount)
            && (before.connections != after.connections ==>
                  r.connectionsCount == if after.connectionsCount.Some? then after.connectionsCount else Some(0))
  {
    hide ScopeDiff, BuildTabPatch, ApplyOptional, ApplyTabPatch;
  }

  /**
   A client that merged last-seen upserts field by field, like the other scopes, would be exact only while no field of
   a last-seen entry disappears: those upserts name no fields to clear.
   */
  lemma LastSeenMergeExact(a: Table<string>, b: Table<string>, s: Scope<string>)
    requires IsDiff([], a, b, s)
    ensures ApplyScope(HonourClears, a, s) == b
            <==> forall k, f :: k in a && k in b && f in a[k] ==> f in b[k]
  {
    DiffRoundTrip([], a, b, s);
    if forall k, f :: k in a && k in b && f in a[k] && f !in b[k] ==> f in [] {
      forall k, f | k in a && k in b && f in a[k]
        ensures f in b[k]
      {
      }
    }
  }
}
