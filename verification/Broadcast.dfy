/**
 One broadcast round of a room: the tables that let recipients share projections, payloads and digests, compared with
 computing everything afresh for each recipient.

 `view` stands for the room snapshot each audience sees. A delivered snapshot is identified by its address, which no
 other live snapshot shares.
 */
module Broadcast {
  import opened Prelude
  import opened Records
  import opened BattleLog
  import opened BattleIndex
  import opened BattleCache
  import opened BattleDigest
  import opened Snapshots
  import opened Delivery
  import opened ProtocolEpochs
  import Movement

  // ---------------------------------------------------------------- projection

  const SOURCE_FIELDS :=
    ["positionSourceId", "positionSourceKind", "positionSourceDisplayName", "positionResolution"]
  const TAB_LABEL_FIELDS :=
    ["scoreboardTeamId", "scoreboardPrefix", "scoreboardSuffix", "scoreboardColorRgb", "formattedDisplayName",
     "formattedScoreboardPrefix", "formattedScoreboardSuffix"]

  function WithoutFields(t: Table<string>, fields: seq<string>): (r: Table<string>) {
    map k | k in t :: Clear(t[k], fields)
  }

  function WithoutLabels(t: TabState): (r: TabState) {
    t.(reports := map k | k in t.reports ::
         t.reports[k].(players := seq(|t.reports[k].players|, i requires 0 <= i < |t.reports[k].players| =>
                                                                Clear(t.reports[k].players[i], TAB_LABEL_FIELDS))))
  }

  /** The snapshot as a peer may see it. */
  function ProjectSnapshot(f: Features, s: Snapshot): (r: Snapshot) {
    s.(lastSeenPlayers := if f.lastSeen then s.lastSeenPlayers else map[],
       players := if f.sourceMetadata then s.players else WithoutFields(s.players, SOURCE_FIELDS),
       tab := if f.tabHistory || s.tab.None? then s.tab else Some(WithoutLabels(s.tab.value)))
  }

  /** Projection removes optional fields only. */
  lemma ProjectionKeepsForm(f: Features, s: Snapshot)
    requires WellFormed(s)
    ensures WellFormed(ProjectSnapshot(f, s))
  {
  }

  /** A field of a player that tells where its position comes from. */
  ghost predicate TellsSource(field: string) {
    || field == "positionSourceId" || field == "positionSourceKind" || field == "positionSourceDisplayName"
    || field == "positionResolution"
  }

  /** A field of a listed player that decorates its label. */
  ghost predicate DecoratesLabel(field: string) {
    || field == "scoreboardTeamId" || field == "scoreboardPrefix" || field == "scoreboardSuffix"
    || field == "scoreboardColorRgb" || field == "formattedDisplayName" || field == "formattedScoreboardPrefix"
    || field == "formattedScoreboardSuffix"
  }

  /**
   What a peer of some version sees of a snapshot, field by field: before 0.6.4 no last-seen players, before 0.6.5 no
   sources of positions, before 0.7.0 no decoration of labels, and everything else as it is.
   */
  lemma ProjectionExact(v: Version, s: Snapshot)
    ensures var r := ProjectSnapshot(FeaturesOf(v), s);
            && r.lastSeenPlayers == (if AtLeast(v, Version(0, 6, 4)) then s.lastSeenPlayers else map[])
            && r.players.Keys == s.players.Keys
            && (forall k, f :: k in s.players ==>
                  Lookup(r.players[k], f)
                  == if TellsSource(f) && !AtLeast(v, Version(0, 6, 5)) then None else Lookup(s.players[k], f))
            && SeesTab(AtLeast(v, Version(0, 7, 0)), s.tab, r.tab)
            && r == s.(lastSeenPlayers := r.lastSeenPlayers, players := r.players, tab := r.tab)
  {
    hide AtLeast, WithoutLabels;
    var f := FeaturesOf(v);
    if !f.tabHistory && s.tab.Some? {
      LabelsExact(s.tab.value);
    }
  }

  /** The tab state of a peer that does, or does not, see decorated labels. */
  ghost predicate SeesTab(decorated: bool, t: Option<TabState>, r: Option<TabState>) {
    if decorated || t.None? then r == t
    else
      && r.Some? && r.value == t.value.(reports := r.value.reports)
      && r.value.reports.Keys == t.value.reports.Keys
      && forall k :: k in t.value.reports ==> SeesReport(t.value.reports[k], r.value.reports[k])
  }

  ghost predicate SeesReport(t: Report, r: Report) {
    && r.timestamp == t.timestamp && |r.players| == |t.players|
    && forall i, f :: 0 <= i < |t.players| ==>
         Lookup(r.players[i], f) == if DecoratesLabel(f) then None else Lookup(t.players[i], f)
  }

  lemma LabelsExact(t: TabState)
    ensures SeesTab(false, Some(t), Some(WithoutLabels(t)))
  {
    var r := WithoutLabels(t);
    forall k | k in t.reports
      ensures SeesReport(t.reports[k], r.reports[k])
    {
      forall i, f | 0 <= i < |t.reports[k].players|
        ensures Lookup(r.reports[k].players[i], f)
                == if DecoratesLabel(f) then None else Lookup(t.reports[k].players[i], f)
      {
      }
    }
  }

  /** Projecting twice is projecting once, and a peer with every feature sees the snapshot itself. */
  lemma ProjectionIsStable(f: Features, s: Snapshot)
    ensures ProjectSnapshot(f, ProjectSnapshot(f, s)) == ProjectSnapshot(f, s)
    ensures f.lastSeen && f.sourceMetadata && f.tabHistory ==> ProjectSnapshot(f, s) == s
  {
    forall k | k in s.players
      ensures Clear(Clear(s.players[k], SOURCE_FIELDS), SOURCE_FIELDS) == Clear(s.players[k], SOURCE_FIELDS)
    {
    }
    assert WithoutFields(WithoutFields(s.players, SOURCE_FIELDS), SOURCE_FIELDS)
           == WithoutFields(s.players, SOURCE_FIELDS);
    if s.tab.Some? {
      LabelsGoneOnce(s.tab.value);
    }
  }

  lemma LabelsGoneOnce(t: TabState)
    ensures WithoutLabels(WithoutLabels(t)) == WithoutLabels(t)
  {
    var once, twice := WithoutLabels(t), WithoutLabels(WithoutLabels(t));
    forall k | k in t.reports
      ensures twice.reports[k] == once.reports[k]
    {
      var a, b := once.reports[k].players, twice.reports[k].players;
      assert |a| == |b|;
      forall i | 0 <= i < |a|
        ensures b[i] == a[i]
      {
      }
      assert a == b;
    }
    assert twice.reports == once.reports;
  }

  // ---------------------------------------------------------------- digests

  datatype RoomDigest = RoomDigest(
    players: Table<string>, entities: Table<string>, waypoints: Table<string>, lastSeen: Option<Table<string>>,
    battle: seq<Line>)

  function ContractOf(f: Features): (c: Contract) {
    if f.structuredDigest then StructuredV2 else LegacyKeyed
  }

  /** The digest of a projected snapshot and of the battle map; tab state is not part of it. */
  ghost predicate IsDigest(f: Features, target: Snapshot, battle: Table<ChunkKey>, d: RoomDigest) {
    && d.players == (if f.sourceMetadata then target.players else WithoutFields(target.players, SOURCE_FIELDS))
    && d.entities == target.entities && d.waypoints == target.waypoints
    && d.lastSeen == (if f.lastSeen then Some(target.lastSeenPlayers) else None)
    && IsStream(ContractOf(f), battle, f.chunkMode, d.battle)
  }

  /** Two digests are equal exactly if the peer sees the same players, entities, waypoints, last-seen and chunks. */
  lemma RoomDigestExact(
    f: Features, a: Snapshot, b: Snapshot, chunksA: Table<ChunkKey>, chunksB: Table<ChunkKey>, d: RoomDigest,
    e: RoomDigest)
    requires IsDigest(f, ProjectSnapshot(f, a), chunksA, d) && IsDigest(f, ProjectSnapshot(f, b), chunksB, e)
    ensures d == e <==>
            var s, t := ProjectSnapshot(f, a), ProjectSnapshot(f, b);
            && s.players == t.players && s.entities == t.entities && s.waypoints == t.waypoints
            && s.lastSeenPlayers == t.lastSeenPlayers && SameToTheDigest(chunksA, chunksB, f.chunkMode)
  {
    hide IsStream, SameToTheDigest, WithoutLabels;
    ProjectionIsStable(f, a);
    ProjectionIsStable(f, b);
    DigestExact(ContractOf(f), chunksA, chunksB, f.chunkMode, d.battle, e.battle);
  }

  // ---------------------------------------------------------------- recipients and keys

  datatype Audience = WebMap | Players

  type Sources = set<string>

  datatype Delivered = Delivered(address: nat, snapshot: Snapshot)

  datatype Recipient = Recipient(
    audience: Audience, allowed: Sources, version: Version, forceFull: bool, delivered: Option<Delivered>,
    deliveredBattle: nat, digestDue: bool, strip: bool, unreliable: bool)

  datatype ProjectionKey = ProjectionKey(audience: Audience, allowed: Sources, epoch: Epoch)

  datatype PayloadKey = PayloadKey(
    projection: ProjectionKey, forceFull: bool, address: Option<nat>, deliveredBattle: nat, strip: bool)

  datatype DigestKey = DigestKey(
    allowed: Sources, chunkMode: bool, structured: bool, sourceMetadata: bool, lastSeen: bool)

  /** Map viewers see the whole room, whatever sources they could be limited to. */
  function SourcesOf(r: Recipient): (s: Sources) {
    if r.audience.WebMap? then {} else r.allowed
  }

  function ProjectionKeyOf(r: Recipient): (k: ProjectionKey) {
    ProjectionKey(r.audience, SourcesOf(r), EpochOf(r.version))
  }

  function PayloadKeyOf(r: Recipient): (k: PayloadKey) {
    PayloadKey(ProjectionKeyOf(r), r.forceFull, if r.delivered.Some? then Some(r.delivered.value.address) else None,
               r.deliveredBattle, r.strip)
  }

  function DigestKeyOf(r: Recipient): (k: DigestKey) {
    var f := FeaturesOf(r.version);
    DigestKey(SourcesOf(r), f.chunkMode, f.structuredDigest, f.sourceMetadata, f.lastSeen)
  }

  // ---------------------------------------------------------------- computed afresh

  type View = (Audience, Sources) -> Snapshot

  function TargetOf(view: View, r: Recipient): (s: Snapshot) {
    ProjectSnapshot(FeaturesOf(r.version), view(r.audience, SourcesOf(r)))
  }

  function ConfigOf(r: Recipient): (c: Config) {
    Config(FeaturesOf(r.version).clearFields, FeaturesOf(r.version).chunkMode, r.unreliable)
  }

  function DeliveredOf(r: Recipient): (s: Option<Snapshot>) {
    if r.delivered.Some? then Some(r.delivered.value.snapshot) else None
  }

  /** The payload is one that could be built for this recipient alone. */
  ghost predicate FreshPayload(view: View, battle: Battle, r: Recipient, p: Option<Payload>)
    requires BattleOk(battle)
  {
    exists b ::
      IsPayload(ConfigOf(r), r.forceFull, DeliveredOf(r), r.deliveredBattle, r.strip, TargetOf(view, r), battle, b, p)
  }

  ghost predicate FreshDigest(view: View, chunks: Table<ChunkKey>, r: Recipient, d: RoomDigest) {
    IsDigest(FeaturesOf(r.version), TargetOf(view, r), chunks, d)
  }

  type EncodedLen = Movement.Player -> nat

  ghost predicate FreshBatch(view: View, encodedLen: EncodedLen, r: Recipient, b: seq<Movement.Chunk>) {
    Movement.IsBatchOf(encodedLen, TargetOf(view, r).players, b)
  }

  /** Map viewers see the whole room, players and external sources what their sources may see. */
  lemma TargetExact(view: View, r: Recipient)
    ensures r.audience.WebMap? ==> TargetOf(view, r) == ProjectSnapshot(FeaturesOf(r.version), view(WebMap, {}))
    ensures r.audience.Players? ==>
              TargetOf(view, r) == ProjectSnapshot(FeaturesOf(r.version), view(Players, r.allowed))
  {
    hide ProjectSnapshot;
  }

  /**
   What a digest hashes for a peer of some version: legacy lines before 0.7.1, modes from 0.6.2 on, last-seen players
   from 0.6.4 on, and the players as the peer sees them.
   */
  lemma DigestSpelled(v: Version, s: Snapshot, chunks: Table<ChunkKey>, d: RoomDigest)
    requires IsDigest(FeaturesOf(v), ProjectSnapshot(FeaturesOf(v), s), chunks, d)
    ensures IsStream(if AtLeast(v, Version(0, 7, 1)) then StructuredV2 else LegacyKeyed, chunks,
                     AtLeast(v, Version(0, 6, 2)), d.battle)
    ensures d.lastSeen == if AtLeast(v, Version(0, 6, 4)) then Some(s.lastSeenPlayers) else None
    ensures d.players == ProjectSnapshot(FeaturesOf(v), s).players
    ensures d.entities == s.entities && d.waypoints == s.waypoints
  {
    hide AtLeast, IsStream, WithoutLabels;
    ProjectionIsStable(FeaturesOf(v), s);
  }

  /** Snapshots at one address are one snapshot. */
  ghost predicate AddressesIdentify(rs: seq<Recipient>) {
    forall q, r :: q in rs && r in rs && q.delivered.Some? && r.delivered.Some?
                   && q.delivered.value.address == r.delivered.value.address
                   ==> q.delivered.value.snapshot == r.delivered.value.snapshot
  }

  // ---------------------------------------------------------------- sharing is sound

  lemma SameProjection(view: View, q: Recipient, r: Recipient)
    requires ProjectionKeyOf(q) == ProjectionKeyOf(r)
    ensures TargetOf(view, q) == TargetOf(view, r)
    ensures FeaturesOf(q.version) == FeaturesOf(r.version)
  {
    EpochFixesFeatures(q.version, r.version);
  }

  /** A payload does not depend on whether positions also travel by datagram, only on whether they are stripped. */
  lemma SamePayload(view: View, battle: Battle, rs: seq<Recipient>, q: Recipient, r: Recipient, p: Option<Payload>)
    requires BattleOk(battle) && AddressesIdentify(rs) && q in rs && r in rs && PayloadKeyOf(q) == PayloadKeyOf(r)
    requires FreshPayload(view, battle, q, p)
    ensures FreshPayload(view, battle, r, p)
  {
    hide IsCatchUp, Agree, IsPatch, IsAdaptedPatch, ProjectSnapshot, LogExplains;
    SameProjection(view, q, r);
    assert DeliveredOf(q) == DeliveredOf(r);
    var b :| IsPayload(ConfigOf(q), q.forceFull, DeliveredOf(q), q.deliveredBattle, q.strip, TargetOf(view, q), battle,
                       b, p);
    assert IsPayload(ConfigOf(r), r.forceFull, DeliveredOf(r), r.deliveredBattle, r.strip, TargetOf(view, r), battle,
                     b, p);
  }

  /**
   The digest key is coarser than the epoch: players of different epochs share digests, though their projections differ
   in the tab labels, because no digest looks at tab state.
   */
  lemma SameDigest(view: View, chunks: Table<ChunkKey>, q: Recipient, r: Recipient, d: RoomDigest)
    requires q.audience == r.audience && DigestKeyOf(q) == DigestKeyOf(r) && FreshDigest(view, chunks, q, d)
    ensures FreshDigest(view, chunks, r, d)
  {
    hide IsStream, FeaturesOf, WithoutLabels, WithoutFields;
  }

  // ---------------------------------------------------------------- the round

  ghost predicate ProjectionsSound(view: View, rs: seq<Recipient>, m: map<ProjectionKey, Snapshot>) {
    forall r :: r in rs && ProjectionKeyOf(r) in m ==> m[ProjectionKeyOf(r)] == TargetOf(view, r)
  }

  ghost predicate PayloadsSound(view: View, battle: Battle, rs: seq<Recipient>, m: map<PayloadKey, Option<Payload>>)
    requires BattleOk(battle)
  {
    forall r :: r in rs && PayloadKeyOf(r) in m ==> FreshPayload(view, battle, r, m[PayloadKeyOf(r)])
  }

  ghost predicate DigestsSound(view: View, chunks: Table<ChunkKey>, rs: seq<Recipient>, m: map<DigestKey, RoomDigest>) {
    forall r :: r in rs && r.audience.Players? && DigestKeyOf(r) in m ==>
                  FreshDigest(view, chunks, r, m[DigestKeyOf(r)])
  }

  ghost predicate BatchesSound(
    view: View, encodedLen: EncodedLen, rs: seq<Recipient>, m: map<ProjectionKey, seq<Movement.Chunk>>)
  {
    forall r :: r in rs && ProjectionKeyOf(r) in m ==> FreshBatch(view, encodedLen, r, m[ProjectionKeyOf(r)])
  }

  lemma ProjectionAdded(view: View, rs: seq<Recipient>, m: map<ProjectionKey, Snapshot>, q: Recipient)
    requires ProjectionsSound(view, rs, m)
    ensures ProjectionsSound(view, rs, m[ProjectionKeyOf(q) := TargetOf(view, q)])
  {
    hide TargetOf, ProjectionKeyOf;
    forall r | r in rs && ProjectionKeyOf(r) == ProjectionKeyOf(q)
      ensures TargetOf(view, r) == TargetOf(view, q)
    {
      SameProjection(view, q, r);
    }
  }

  lemma BatchAdded(
    view: View, encodedLen: EncodedLen, rs: seq<Recipient>, m: map<ProjectionKey, seq<Movement.Chunk>>, q: Recipient,
    b: seq<Movement.Chunk>)
    requires BatchesSound(view, encodedLen, rs, m) && FreshBatch(view, encodedLen, q, b)
    ensures BatchesSound(view, encodedLen, rs, m[ProjectionKeyOf(q) := b])
  {
    hide TargetOf, ProjectionKeyOf, Movement.IsBatchOf;
    forall r | r in rs && ProjectionKeyOf(r) == ProjectionKeyOf(q)
      ensures TargetOf(view, r) == TargetOf(view, q)
    {
      SameProjection(view, q, r);
    }
  }

  lemma PayloadAdded(
    view: View, battle: Battle, rs: seq<Recipient>, m: map<PayloadKey, Option<Payload>>, q: Recipient,
    p: Option<Payload>)
    requires BattleOk(battle) && PayloadsSound(view, battle, rs, m) && AddressesIdentify(rs) && q in rs
    requires FreshPayload(view, battle, q, p)
    ensures PayloadsSound(view, battle, rs, m[PayloadKeyOf(q) := p])
  {
    hide FreshPayload, PayloadKeyOf, AddressesIdentify, BattleOk;
    forall r | r in rs && PayloadKeyOf(r) == PayloadKeyOf(q)
      ensures FreshPayload(view, battle, r, p)
    {
      SamePayload(view, battle, rs, q, r, p);
    }
  }

  lemma DigestAdded(
    view: View, chunks: Table<ChunkKey>, rs: seq<Recipient>, m: map<DigestKey, RoomDigest>, q: Recipient, d: RoomDigest)
    requires DigestsSound(view, chunks, rs, m) && q.audience.Players? && FreshDigest(view, chunks, q, d)
    ensures DigestsSound(view, chunks, rs, m[DigestKeyOf(q) := d])
  {
  }

  ghost function BattleOf(cache: BattleRoomCache): (b: Battle)
    requires cache.Valid()
    reads cache
    ensures BattleOk(b)
  {
    Battle(cache.history, cache.changes, cache.revision)
  }

  method BuildPayload(view: View, cache: BattleRoomCache, r: Recipient, target: Snapshot) returns (p: Option<Payload>)
    requires cache.Valid() && target == TargetOf(view, r)
    ensures FreshPayload(view, BattleOf(cache), r, p)
  {
    hide BattleOk, IsCatchUp, ProjectSnapshot, FeaturesOf, CatchesUp, BattleRoomCache.Valid, IsPayload, ProjectAll;
    var cfg := ConfigOf(r);
    var catchUp := cache.PatchSince(r.deliveredBattle, cfg.includeMode, true);
    p := StatePayload(cfg, r.forceFull, DeliveredOf(r), catchUp, cache.FullEntries(cfg.includeMode), r.strip, target,
                      r.deliveredBattle, BattleOf(cache));
  }

  method BuildDigest(view: View, chunks: Table<ChunkKey>, r: Recipient, target: Snapshot) returns (d: RoomDigest)
    requires target == TargetOf(view, r)
    ensures FreshDigest(view, chunks, r, d)
  {
    hide ProjectSnapshot, FeaturesOf, IsStream, WithoutFields;
    var f := FeaturesOf(r.version);
    var battle := CacheDigest(ContractOf(f), chunks, f.chunkMode);
    d := RoomDigest(if f.sourceMetadata then target.players else WithoutFields(target.players, SOURCE_FIELDS),
                    target.entities, target.waypoints, if f.lastSeen then Some(target.lastSeenPlayers) else None,
                    battle);
  }

  datatype Sent = Sent(
    target: Snapshot, movement: Option<seq<Movement.Chunk>>, payload: Option<Payload>, digest: Option<RoomDigest>)

  /**
   What a recipient gets from a round is what it would get alone; whoever takes positions by datagram gets a movement
   batch even if there is no payload.
   */
  ghost predicate FreshSent(
    view: View, encodedLen: EncodedLen, battle: Battle, chunks: Table<ChunkKey>, r: Recipient, s: Sent)
    requires BattleOk(battle)
  {
    && s.target == TargetOf(view, r) && FreshPayload(view, battle, r, s.payload)
    && (s.movement.Some? <==> r.unreliable)
    && (s.movement.Some? ==> FreshBatch(view, encodedLen, r, s.movement.value))
    && (s.digest.Some? <==> r.digestDue)
    && (s.digest.Some? ==> FreshDigest(view, chunks, r, s.digest.value))
  }

  /**
   Serves all recipients with one table each of projections, movement batches, payloads and digests. Without a change
   of state only players are served, for the sake of their digests. Only players get digests.
   */
  method BroadcastRoom(
    view: View, encodedLen: EncodedLen, rs: seq<Recipient>, cache: BattleRoomCache, stateDirty: bool)
    returns (sent: seq<Option<Sent>>)
    requires cache.Valid()
    requires AddressesIdentify(rs) && forall r :: r in rs && r.digestDue ==> r.audience.Players?
    ensures |sent| == |rs|
    ensures forall i :: 0 <= i < |rs| ==> (sent[i].Some? <==> stateDirty || rs[i].audience.Players?)
    ensures forall i :: 0 <= i < |rs| && sent[i].Some? ==>
              FreshSent(view, encodedLen, BattleOf(cache), Values(cache.entries), rs[i], sent[i].value)
  {
    hide BattleOk, TargetOf, FreshPayload, FreshDigest, FreshBatch, AddressesIdentify, ProjectionKeyOf, PayloadKeyOf,
         DigestKeyOf, BattleRoomCache.Valid, ProjectionsSound, PayloadsSound, DigestsSound, BatchesSound, IsChunkValue;
    sent := [];
    ghost var battle := BattleOf(cache);
    var chunks: Table<ChunkKey> := Values(cache.entries);
    var projections: map<ProjectionKey, Snapshot> := map[];
    var batches: map<ProjectionKey, seq<Movement.Chunk>> := map[];
    var payloads: map<PayloadKey, Option<Payload>> := map[];
    var digests: map<DigestKey, RoomDigest> := map[];
    NothingShared(view, encodedLen, battle, chunks, rs);
    for i := 0 to |rs|
      invariant |sent| == i
      invariant ProjectionsSound(view, rs, projections)
      invariant BatchesSound(view, encodedLen, rs, batches)
      invariant PayloadsSound(view, battle, rs, payloads)
      invariant DigestsSound(view, chunks, rs, digests)
      invariant forall j :: 0 <= j < i ==> (sent[j].Some? <==> stateDirty || rs[j].audience.Players?)
      invariant forall j :: 0 <= j < i && sent[j].Some? ==>
                  FreshSent(view, encodedLen, battle, chunks, rs[j], sent[j].value)
    {
      var r := rs[i];
      if !stateDirty && !r.audience.Players? {
        sent := sent + [None];
        continue;
      }
      var target, payload;
      projections, target := ShareProjection(view, rs, projections, r);
      var movement := None;
      if r.unreliable {
        var b;
        batches, b := ShareBatch(view, encodedLen, rs, batches, r, target);
        movement := Some(b);
      }
      payloads, payload := SharePayload(view, rs, cache, payloads, r, target);
      var digest := None;
      if r.digestDue {
        var d;
        digests, d := ShareDigest(view, rs, chunks, digests, r, target);
        digest := Some(d);
      }
      sent := sent + [Some(Sent(target, movement, payload, digest))];
    }
  }

  lemma NothingShared(
    view: View, encodedLen: EncodedLen, battle: Battle, chunks: Table<ChunkKey>, rs: seq<Recipient>)
    requires BattleOk(battle)
    ensures ProjectionsSound(view, rs, map[]) && PayloadsSound(view, battle, rs, map[])
    ensures DigestsSound(view, chunks, rs, map[]) && BatchesSound(view, encodedLen, rs, map[])
  {
  }

  method ShareProjection(view: View, rs: seq<Recipient>, m: map<ProjectionKey, Snapshot>, r: Recipient)
    returns (grown: map<ProjectionKey, Snapshot>, target: Snapshot)
    requires ProjectionsSound(view, rs, m) && r in rs
    ensures ProjectionsSound(view, rs, grown) && target == TargetOf(view, r)
  {
    hide FeaturesOf, ProjectSnapshot, ProjectionKeyOf;
    if ProjectionKeyOf(r) in m {
      return m, m[ProjectionKeyOf(r)];
    }
    target := ProjectSnapshot(FeaturesOf(r.version), view(r.audience, SourcesOf(r)));
    ProjectionAdded(view, rs, m, r);
    grown := m[ProjectionKeyOf(r) := target];
  }

  method ShareBatch(
    view: View, encodedLen: EncodedLen, rs: seq<Recipient>, m: map<ProjectionKey, seq<Movement.Chunk>>, r: Recipient,
    target: Snapshot)
    returns (grown: map<ProjectionKey, seq<Movement.Chunk>>, b: seq<Movement.Chunk>)
    requires BatchesSound(view, encodedLen, rs, m) && r in rs && target == TargetOf(view, r)
    ensures BatchesSound(view, encodedLen, rs, grown) && FreshBatch(view, encodedLen, r, b)
  {
    hide TargetOf, ProjectionKeyOf, Movement.IsBatchOf;
    if ProjectionKeyOf(r) in m {
      return m, m[ProjectionKeyOf(r)];
    }
    b := Movement.MovementBatch(target.players, encodedLen);
    BatchAdded(view, encodedLen, rs, m, r, b);
    grown := m[ProjectionKeyOf(r) := b];
  }

  method SharePayload(
    view: View, rs: seq<Recipient>, cache: BattleRoomCache, m: map<PayloadKey, Option<Payload>>, r: Recipient,
    target: Snapshot)
    returns (grown: map<PayloadKey, Option<Payload>>, p: Option<Payload>)
    requires cache.Valid() && AddressesIdentify(rs)
    requires PayloadsSound(view, BattleOf(cache), rs, m) && r in rs && target == TargetOf(view, r)
    ensures PayloadsSound(view, BattleOf(cache), rs, grown) && FreshPayload(view, BattleOf(cache), r, p)
  {
    hide BattleOk, TargetOf, FreshPayload, PayloadKeyOf, AddressesIdentify, BattleRoomCache.Valid;
    if PayloadKeyOf(r) in m {
      return m, m[PayloadKeyOf(r)];
    }
    p := BuildPayload(view, cache, r, target);
    PayloadAdded(view, BattleOf(cache), rs, m, r, p);
    grown := m[PayloadKeyOf(r) := p];
  }

  method ShareDigest(
    view: View, rs: seq<Recipient>, chunks: Table<ChunkKey>, m: map<DigestKey, RoomDigest>, r: Recipient,
    target: Snapshot)
    returns (grown: map<DigestKey, RoomDigest>, d: RoomDigest)
    requires DigestsSound(view, chunks, rs, m)
    requires r in rs && r.audience.Players? && target == TargetOf(view, r)
    ensures DigestsSound(view, chunks, rs, grown) && FreshDigest(view, chunks, r, d)
  {
    hide TargetOf, FreshDigest, DigestKeyOf;
    if DigestKeyOf(r) in m {
      return m, m[DigestKeyOf(r)];
    }
    d := BuildDigest(view, chunks, r, target);
    DigestAdded(view, chunks, rs, m, r, d);
    grown := m[DigestKeyOf(r) := d];
  }
}
