/**
 Delivery of room state to one connection, as steps of relay, slot, writer and client.

 The relay diffs its target against the last acknowledged snapshot and drops the frame into a one-slot watch, where a
 later frame may overwrite it. The writer takes the slot, writes the payload and sends `Delivered`; that event waits
 in the relay's queue until the relay processes it.
 */
module Delivery {
  import opened Prelude
  import opened Records
  import opened BattleLog
  import opened Snapshots
  import opened Positions
  import opened LegacyPatch
  import opened PatchFit

  /** Fixed for a connection: does it honour clears, does it know chunk modes, do positions travel by datagram. */
  datatype Config = Config(honours: bool, includeMode: bool, unreliable: bool)

  /** The room's battle cache, as far as delivery sees it. */
  datatype Battle = Battle(history: seq<ChunkMap>, changes: seq<ChangeBatch>, revision: nat)

  ghost predicate BattleOk(b: Battle) {
    |b.history| == b.revision + 1 && LogExplains(b.history, b.changes, b.revision)
  }

  function BattleAt(b: Battle, revision: nat, includeMode: bool): (r: Table<ChunkKey>)
    requires revision < |b.history|
  {
    ProjectAll(b.history[revision], includeMode)
  }

  datatype Payload = Full(snapshot: Snapshot, battle: Table<ChunkKey>) | Delta(patch: Patch)

  datatype Frame = Frame(revision: nat, payload: Option<Payload>, snapshot: Snapshot, battleRevision: nat)

  // ---------------------------------------------------------------- payload

  /** The intermediate patches of one payload: diff, with battle scope, stripped, adapted. */
  datatype Build = Build(catchUp: CatchUp, diff: Option<Patch>, merged: Option<Patch>, stripped: Option<Patch>)

  function WithBattle(diff: Option<Patch>, catchUp: CatchUp): (r: Option<Patch>) {
    if catchUp.Changes? then
      Some((if diff.Some? then diff.value else EMPTY_PATCH).(battleChunks := Some(catchUp.scope)))
    else diff
  }

  function StripPatch(p: Patch, delivered: Snapshot): (r: Option<Patch>) {
    var q := if p.players.Some? then p.(players := Stripped(delivered.players, p.players.value)) else p;
    if Blank(q) then None else Some(q)
  }

  ghost predicate IsAdaptedPatch(p: Patch, q: Patch) {
    && AdaptedOptional(p.players, q.players)
    && AdaptedOptional(p.entities, q.entities)
    && AdaptedOptional(p.waypoints, q.waypoints)
    && AdaptedOptional(p.battleChunks, q.battleChunks)
    && AdaptedOptional(p.lastSeenPlayers, q.lastSeenPlayers)
    && AdaptedOptional(p.playerMarks, q.playerMarks)
    && q.tab == p.tab && q.connections == p.connections && q.connectionsCount == p.connectionsCount
    && q.serverTime == p.serverTime
  }

  /** `payload` is one the relay may build for the target; `b` records how. */
  ghost predicate IsPayload(
    cfg: Config, forceFull: bool, delivered: Option<Snapshot>, deliveredBattle: nat, strip: bool, target: Snapshot,
    battle: Battle, b: Build, payload: Option<Payload>)
    requires BattleOk(battle)
  {
    && IsCatchUp(battle.history[battle.revision], battle.changes, battle.revision, deliveredBattle, cfg.includeMode,
                 true, b.catchUp)
    && if forceFull || delivered.None? || b.catchUp.NeedsFull? then
         payload == Some(Full(target, BattleAt(battle, battle.revision, cfg.includeMode)))
       else
         && (b.diff.None? <==> Agree(delivered.value, target))
         && (b.diff.Some? ==> IsPatch(delivered.value, target, b.diff.value))
         && b.merged == WithBattle(b.diff, b.catchUp)
         && b.stripped == (if strip && b.merged.Some? then StripPatch(b.merged.value, delivered.value) else b.merged)
         && (payload.None? <==> b.stripped.None?)
         && (payload.Some? ==> payload.value.Delta? && SentAs(cfg, b.stripped.value, payload.value.patch))
  }

  /** The patch as it goes out: unchanged, or adapted for a client that ignores clears. */
  ghost predicate SentAs(cfg: Config, p: Patch, sent: Patch) {
    if cfg.honours then sent == p else IsAdaptedPatch(p, sent)
  }

  function Rule(cfg: Config): (r: MergeRule) {
    if cfg.honours then HonourClears else IgnoreClears
  }

  /** The client after reading a payload. */
  function Receive(cfg: Config, c: Client, payload: Option<Payload>): (r: Client) {
    match payload
    case None => c
    case Some(Full(snapshot, battle)) => Client(snapshot, battle)
    case Some(Delta(patch)) => ApplyPatch(Rule(cfg), c, patch)
  }

  // ---------------------------------------------------------------- agreement

  /** Exact agreement, or agreement up to positions where positions travel by datagram. */
  ghost predicate Synced(cfg: Config, a: Snapshot, b: Snapshot) {
    InStep(cfg.unreliable, a, b)
  }

  /** The form in which a connection gets its patches. */
  function FormOf(cfg: Config, strip: bool, loose: bool): (r: Form) {
    Form(cfg.honours, strip, loose)
  }

  predicate IsFull(payload: Option<Payload>) {
    payload.Some? && payload.value.Full?
  }

  // ---------------------------------------------------------------- one payload: battle chunks

  lemma ChunkPatchIsWhole(
    history: seq<ChunkMap>, revision: nat, at: nat, keys: set<ChunkKey>, includeMode: bool, s: Scope<ChunkKey>)
    requires |history| == revision + 1 && at <= revision
    requires IsChunkPatch(history[revision], keys, includeMode, true, s)
    ensures WholeWhereCleared(ProjectAll(history[at], includeMode), s)
  {
  }

  lemma BattlePatchKept(
    cfg: Config, delivered: Snapshot, strip: bool, catchUp: CatchUp, diff: Option<Patch>, stripped: Option<Patch>)
    requires diff.Some? ==> diff.value.battleChunks.None?
    requires var merged := WithBattle(diff, catchUp);
             stripped == if strip && merged.Some? then StripPatch(merged.value, delivered) else merged
    ensures stripped.Some? ==>
              stripped.value.battleChunks == if catchUp.Changes? then Some(catchUp.scope) else None
    ensures stripped.None? ==> !catchUp.Changes?
  {
  }

  /**
   Whatever revision from the delivered one on a client stands at, the payload takes its battle map to the current
   revision, and without a payload it is already there.
   */
  lemma PayloadBattle(
    cfg: Config, forceFull: bool, delivered: Option<Snapshot>, deliveredBattle: nat, strip: bool, target: Snapshot,
    battle: Battle, b: Build, payload: Option<Payload>, c: Client, at: nat)
    requires BattleOk(battle)
    requires IsPayload(cfg, forceFull, delivered, deliveredBattle, strip, target, battle, b, payload)
    requires deliveredBattle <= at <= battle.revision && c.battle == BattleAt(battle, at, cfg.includeMode)
    ensures Receive(cfg, c, payload).battle == BattleAt(battle, battle.revision, cfg.includeMode)
    ensures payload.None? ==> deliveredBattle == battle.revision
  {
    hide LogExplains, IsPatch, Agree, IsChunkPatch, IsAdapted, Covers;
    CatchUpExact(battle.history, battle.changes, battle.revision, deliveredBattle, at, cfg.includeMode, b.catchUp);
    if !(forceFull || delivered.None? || b.catchUp.NeedsFull?) {
      DiffHasNoBattle(delivered.value, target, b.diff);
      BattlePatchKept(cfg, delivered.value, strip, b.catchUp, b.diff, b.stripped);
      if payload.Some? && !cfg.honours && b.catchUp.Changes? {
        LegacyBattle(battle, deliveredBattle, at, cfg.includeMode, b.catchUp, payload.value.patch.battleChunks.value);
      }
    }
  }

  lemma DiffHasNoBattle(before: Snapshot, after: Snapshot, diff: Option<Patch>)
    requires diff.Some? ==> IsPatch(before, after, diff.value)
    ensures diff.Some? ==> diff.value.battleChunks.None?
  {
  }

  lemma LegacyBattle(
    battle: Battle, since: nat, at: nat, includeMode: bool, catchUp: CatchUp, adapted: Scope<ChunkKey>)
    requires BattleOk(battle) && at <= battle.revision && catchUp.Changes?
    requires IsCatchUp(battle.history[battle.revision], battle.changes, battle.revision, since, includeMode, true,
                       catchUp)
    requires IsAdapted(catchUp.scope, adapted)
    ensures ApplyScope(IgnoreClears, BattleAt(battle, at, includeMode), adapted)
            == ApplyScope(HonourClears, BattleAt(battle, at, includeMode), catchUp.scope)
  {
    hide LogExplains, WholeWhereCleared, IsAdapted;
    ChunkPatchIsWhole(battle.history, battle.revision, at, ChangedSince(battle.changes, since), includeMode,
                      catchUp.scope);
    AdaptedExact(BattleAt(battle, at, includeMode), catchUp.scope, adapted);
  }

  // ---------------------------------------------------------------- one payload: snapshot

  /** A legacy client ends where a current one would, scope by scope. */
  lemma LegacyScope(
    required: seq<string>, optional: seq<string>, a: Table<string>, b: Table<string>, s: Option<Scope<string>>,
    r: Option<Scope<string>>)
    requires ScopeDiff(optional, a, b, s) && AdaptedOptional(s, r)
    requires Conforms(a, required, optional) && Conforms(b, required, optional)
    ensures ApplyOptional(IgnoreClears, a, r) == ApplyOptional(HonourClears, a, s)
  {
    if s.Some? {
      hide Conforms, IsAdapted, WholeWhereCleared;
      ConformsClearable(required, optional, a, b);
      DiffIsWhole(optional, a, b, s.value);
      AdaptedExact(a, s.value, r.value);
    }
  }

  lemma LegacyPatchExact(c: Client, before: Snapshot, after: Snapshot, p: Patch, merged: Patch, q: Patch)
    requires IsPatch(before, after, p) && WellFormed(before) && WellFormed(after)
    requires merged == p.(battleChunks := merged.battleChunks) && IsAdaptedPatch(merged, q)
    requires Agree(c.snapshot, before)
    ensures ApplyPatch(IgnoreClears, c, q).snapshot == ApplyPatch(HonourClears, c, p).snapshot
  {
    hide Conforms, ScopeDiff, AdaptedOptional, ApplyOptional, BuildTabPatch, ApplyTabPatch, TabOrDefault;
    LegacyScope(PLAYER_REQUIRED, PLAYER_OPTIONAL, before.players, after.players, p.players, q.players);
    LegacyScope(ENTITY_REQUIRED, ENTITY_OPTIONAL, before.entities, after.entities, p.entities, q.entities);
    LegacyScope(WAYPOINT_REQUIRED, WAYPOINT_OPTIONAL, before.waypoints, after.waypoints, p.waypoints, q.waypoints);
    LegacyScope(MARK_REQUIRED, MARK_OPTIONAL, before.playerMarks, after.playerMarks, p.playerMarks, q.playerMarks);
    LegacyLastSeen(before.lastSeenPlayers, before.lastSeenPlayers, after.lastSeenPlayers, p.lastSeenPlayers,
                   q.lastSeenPlayers);
  }

  /**
   In all six scopes: an adapted patch takes a client that ignores clears to the very state to which the patch it was
   adapted from takes a client that honours them, snapshot and battle map alike.
   */
  lemma LegacyClientExact(
    cfg: Config, c: Client, before: Snapshot, after: Snapshot, diff: Option<Patch>, battle: Battle, since: nat,
    at: nat, catchUp: CatchUp, q: Patch)
    requires BattleOk(battle) && WellFormed(before) && WellFormed(after)
    requires IsCatchUp(battle.history[battle.revision], battle.changes, battle.revision, since, cfg.includeMode, true,
                       catchUp)
    requires diff.Some? ==> IsPatch(before, after, diff.value)
    requires WithBattle(diff, catchUp).Some? && IsAdaptedPatch(WithBattle(diff, catchUp).value, q)
    requires Agree(c.snapshot, before) && at <= battle.revision && c.battle == BattleAt(battle, at, cfg.includeMode)
    ensures ApplyPatch(IgnoreClears, c, q) == ApplyPatch(HonourClears, c, WithBattle(diff, catchUp).value)
  {
    hide BattleOk, IsCatchUp, WellFormed, Agree, IsAdapted, ApplyScope, BattleAt;
    var merged := WithBattle(diff, catchUp).value;
    if diff.Some? {
      DiffHasNoBattle(before, after, diff);
      hide IsPatch, IsAdaptedPatch;
      LegacyPatchExact(c, before, after, diff.value, merged, q);
      BattleDoesNotMatter(HonourClears, c, diff.value, merged.battleChunks);
    }
    LegacyBattleScope(cfg, c, battle, since, at, catchUp, merged, q);
  }

  lemma LegacyBattleScope(
    cfg: Config, c: Client, battle: Battle, since: nat, at: nat, catchUp: CatchUp, merged: Patch, q: Patch)
    requires BattleOk(battle) && at <= battle.revision && c.battle == BattleAt(battle, at, cfg.includeMode)
    requires IsCatchUp(battle.history[battle.revision], battle.changes, battle.revision, since, cfg.includeMode, true,
                       catchUp)
    requires merged.battleChunks == if catchUp.Changes? then Some(catchUp.scope) else None
    requires IsAdaptedPatch(merged, q)
    ensures ApplyPatch(IgnoreClears, c, q).battle == ApplyPatch(HonourClears, c, merged).battle
  {
    hide BattleOk, IsCatchUp, IsAdapted, ApplyScope;
    if catchUp.Changes? {
      LegacyBattle(battle, since, at, cfg.includeMode, catchUp, q.battleChunks.value);
    }
  }

  lemma BattleDoesNotMatter(rule: MergeRule, c: Client, p: Patch, battleChunks: Option<Scope<ChunkKey>>)
    ensures ApplyPatch(rule, c, p.(battleChunks := battleChunks)).snapshot == ApplyPatch(rule, c, p).snapshot
  {
  }

  lemma FullSyncs(cfg: Config, s: Snapshot)
    ensures Synced(cfg, s, s)
  {
  }

  /** The patch of a payload, empty if there is none. */
  function PatchOf(payload: Option<Payload>): (p: Patch)
    requires !IsFull(payload)
  {
    if payload.Some? then payload.value.patch else EMPTY_PATCH
  }

  lemma ReceivePatch(cfg: Config, c: Client, payload: Option<Payload>)
    requires !IsFull(payload)
    ensures Receive(cfg, c, payload).snapshot == ApplyPatch(Rule(cfg), c, PatchOf(payload)).snapshot
  {
  }

  /** What goes out is the diff in the form of the connection. */
  lemma PayloadIsSent(cfg: Config, strip: bool, loose: bool, delivered: Snapshot, b: Build, payload: Option<Payload>)
    requires !IsFull(payload) && b.diff.Some? && b.merged == WithBattle(b.diff, b.catchUp)
    requires b.stripped == if strip then StripPatch(b.merged.value, delivered) else b.merged
    requires payload.None? <==> b.stripped.None?
    requires payload.Some? ==> SentAs(cfg, b.stripped.value, payload.value.patch)
    ensures SentPatch(FormOf(cfg, strip, loose), delivered, b.diff.value, PatchOf(payload))
  {
    hide IsAdapted, StripUpserts;
    NothingAdapted<string>();
  }

  lemma NothingAdapted<K(!new)>()
    ensures IsAdapted<K>(Scope([], []), Scope([], []))
  {
  }

  /** Without a diff no table of the snapshot is touched. */
  lemma NothingButBattle(
    cfg: Config, strip: bool, delivered: Snapshot, b: Build, payload: Option<Payload>, c: Client)
    requires !IsFull(payload) && b.diff.None? && b.merged == WithBattle(b.diff, b.catchUp)
    requires b.stripped == if strip && b.merged.Some? then StripPatch(b.merged.value, delivered) else b.merged
    requires payload.None? <==> b.stripped.None?
    requires payload.Some? ==> SentAs(cfg, b.stripped.value, payload.value.patch)
    ensures Receive(cfg, c, payload).snapshot == c.snapshot
  {
  }

  /**
   Any payload but a full one, and no payload at all, is right for a client if and only if the patch from the delivered
   snapshot to the target fits what the client holds, in the form in which the connection gets it.
   */
  lemma PayloadExact(
    cfg: Config, forceFull: bool, delivered: Option<Snapshot>, deliveredBattle: nat, strip: bool, target: Snapshot,
    battle: Battle, b: Build, payload: Option<Payload>, c: Client, loose: bool)
    requires BattleOk(battle)
    requires IsPayload(cfg, forceFull, delivered, deliveredBattle, strip, target, battle, b, payload)
    requires !IsFull(payload)
    ensures delivered.Some?
    ensures InStep(loose, Receive(cfg, c, payload).snapshot, target)
            <==> PatchFits(FormOf(cfg, strip, loose), c.snapshot, delivered.value, target)
  {
    hide BattleOk, IsCatchUp, IsPatch, PatchFits, SentPatch, BattleAt, InStep, StripPatch, SentAs, ApplyPatch, Receive;
    var form := FormOf(cfg, strip, loose);
    if b.diff.None? {
      AgreementFits(form, c.snapshot, delivered.value, target);
      NothingButBattle(cfg, strip, delivered.value, b, payload, c);
    } else {
      PayloadIsSent(cfg, strip, loose, delivered.value, b, payload);
      PatchExact(form, c, delivered.value, target, b.diff.value, PatchOf(payload));
      ReceivePatch(cfg, c, payload);
    }
  }

  /**
   A client in step with the delivered snapshot is in step with the target after the payload, or without one, if and
   only if the payload is full or stripping was safe, as it always is for clients that honour clears.
   */
  lemma PayloadSyncs(
    cfg: Config, forceFull: bool, delivered: Option<Snapshot>, deliveredBattle: nat, strip: bool, target: Snapshot,
    battle: Battle, b: Build, payload: Option<Payload>, c: Client)
    requires BattleOk(battle) && (strip ==> cfg.unreliable)
    requires IsPayload(cfg, forceFull, delivered, deliveredBattle, strip, target, battle, b, payload)
    requires WellFormed(target) && delivered.Some? && WellFormed(delivered.value)
    requires Synced(cfg, c.snapshot, delivered.value)
    ensures Synced(cfg, Receive(cfg, c, payload).snapshot, target)
            <==> IsFull(payload)
                 || StripSafe(FormOf(cfg, strip, cfg.unreliable), PLAYER_OPTIONAL, delivered.value.players,
                              target.players)
  {
    hide BattleOk, IsPayload, WellFormed, PatchFits, StripSafe, AgreeBesidesPlayers, SameSettled;
    if IsFull(payload) {
      FullPayload(cfg, forceFull, delivered, deliveredBattle, strip, target, battle, b, payload);
      FullSyncs(cfg, target);
    } else {
      PayloadExact(cfg, forceFull, delivered, deliveredBattle, strip, target, battle, b, payload, c, cfg.unreliable);
      InStepPatchFits(FormOf(cfg, strip, cfg.unreliable), c.snapshot, delivered.value, target);
    }
  }

  lemma FullPayload(
    cfg: Config, forceFull: bool, delivered: Option<Snapshot>, deliveredBattle: nat, strip: bool, target: Snapshot,
    battle: Battle, b: Build, payload: Option<Payload>)
    requires BattleOk(battle) && IsFull(payload)
    requires IsPayload(cfg, forceFull, delivered, deliveredBattle, strip, target, battle, b, payload)
    ensures payload.value.snapshot == target
  {
    hide IsCatchUp, IsPatch, Agree;
  }

  // ---------------------------------------------------------------- building the payload

  method AdaptOptional<K(==, !new)>(s: Option<Scope<K>>) returns (r: Option<Scope<K>>)
    ensures AdaptedOptional(s, r)
  {
    if s.None? {
      r := None;
    } else {
      var scope := AdaptScope(s.value);
      r := Some(scope);
    }
  }

  method AdaptOutboundPatch(cfg: Config, p: Patch) returns (q: Patch)
    ensures SentAs(cfg, p, q)
  {
    if cfg.honours {
      return p;
    }
    var players := AdaptOptional(p.players);
    var entities := AdaptOptional(p.entities);
    var waypoints := AdaptOptional(p.waypoints);
    var battleChunks := AdaptOptional(p.battleChunks);
    var lastSeenPlayers := AdaptOptional(p.lastSeenPlayers);
    var playerMarks := AdaptOptional(p.playerMarks);
    q := p.(players := players, entities := entities, waypoints := waypoints, battleChunks := battleChunks,
            lastSeenPlayers := lastSeenPlayers, playerMarks := playerMarks);
  }

  /** The payload of one frame, given the cache's answer for the delivered revision. */
  method StatePayload(
    cfg: Config, forceFull: bool, delivered: Option<Snapshot>, catchUp: CatchUp, full: Table<ChunkKey>, strip: bool,
    target: Snapshot, ghost deliveredBattle: nat, ghost battle: Battle)
    returns (payload: Option<Payload>)
    requires BattleOk(battle) && full == BattleAt(battle, battle.revision, cfg.includeMode)
    requires IsCatchUp(battle.history[battle.revision], battle.changes, battle.revision, deliveredBattle,
                       cfg.includeMode, true, catchUp)
    ensures exists b :: IsPayload(cfg, forceFull, delivered, deliveredBattle, strip, target, battle, b, payload)
  {
    hide IsCatchUp, Agree, IsPatch, Stripped, IsAdaptedPatch, LogExplains;
    if forceFull || delivered.None? || catchUp.NeedsFull? {
      payload := Some(Full(target, full));
      assert IsPayload(cfg, forceFull, delivered, deliveredBattle, strip, target, battle,
                       Build(catchUp, None, None, None), payload);
      return;
    }
    var diff := BuildPatch(delivered.value, target);
    var merged := WithBattle(diff, catchUp);
    var patch := merged;
    if strip && patch.Some? {
      if patch.value.players.Some? {
        var players := StripScope(delivered.value.players, patch.value.players.value);
        patch := Some(patch.value.(players := players));
      }
      patch := if Blank(patch.value) then None else patch;
    }
    payload := None;
    if patch.Some? {
      var sent := AdaptOutboundPatch(cfg, patch.value);
      payload := Some(Delta(sent));
    }
    assert IsPayload(cfg, forceFull, delivered, deliveredBattle, strip, target, battle,
                     Build(catchUp, diff, merged, patch), payload);
  }

  // ---------------------------------------------------------------- steps

  /**
   One connection. `acks` are the `Delivered` events not yet processed, oldest first. `clientBattleAt` is the battle
   revision of the last payload the client read and `started` whether it has read any; neither exists in the program.
   */
  datatype State = State(
    battle: Battle, delivered: Option<Snapshot>, deliveredRevision: nat, deliveredBattle: nat, forceFull: bool,
    roomRevision: nat, slot: Option<Frame>, acks: seq<Frame>, client: Client, clientBattleAt: nat, started: bool)

  ghost predicate Init(s: State) {
    && BattleOk(s.battle)
    && s.delivered.None? && s.deliveredRevision == 0 && s.deliveredBattle == 0 && s.forceFull
    && s.slot.None? && s.acks == [] && s.clientBattleAt == 0 && !s.started
  }

  datatype Action =
    | BattleChange(battle: Battle)
    | Broadcast(target: Snapshot, strip: bool, digestDue: bool, build: Build, payload: Option<Payload>)
    | Write
    | ProcessDelivered
    | Resync

  /** The relay computes a frame and, if there is anything to send, overwrites the slot. */
  ghost predicate BroadcastStep(cfg: Config, s: State, s': State, a: Action)
    requires a.Broadcast?
  {
    && BattleOk(s.battle) && WellFormed(a.target) && (a.strip ==> cfg.unreliable)
    && IsPayload(cfg, s.forceFull, s.delivered, s.deliveredBattle, a.strip, a.target, s.battle, a.build, a.payload)
    && var frame := Frame(s.roomRevision + 1, a.payload, a.target, s.battle.revision);
       var base := s.(roomRevision := s.roomRevision + 1);
       s' == if a.payload.None? && !a.digestDue then base
             else base.(slot := Some(frame), forceFull := s.forceFull && a.payload.None?)
  }

  /** The writer takes the slot, the client reads the payload, `Delivered` is queued. */
  ghost predicate WriteStep(cfg: Config, s: State, s': State) {
    && s.slot.Some?
    && var f := s.slot.value;
       s' == s.(slot := None, acks := s.acks + [f], client := Receive(cfg, s.client, f.payload),
                clientBattleAt := if f.payload.Some? then f.battleRevision else s.clientBattleAt,
                started := s.started || f.payload.Some?)
  }

  ghost predicate DeliveredStep(s: State, s': State) {
    && s.acks != []
    && var f := s.acks[0];
       var rest := s.(acks := s.acks[1..]);
       s' == if f.revision < s.deliveredRevision then rest
             else rest.(delivered := Some(f.snapshot), deliveredRevision := f.revision,
                        deliveredBattle := f.battleRevision)
  }

  ghost predicate BattleStep(s: State, s': State, battle: Battle) {
    BattleOk(battle) && s.battle.history <= battle.history && s' == s.(battle := battle)
  }

  ghost predicate Step(cfg: Config, s: State, s': State, a: Action) {
    match a
    case BattleChange(battle) => BattleStep(s, s', battle)
    case Broadcast(_, _, _, _, _) => BroadcastStep(cfg, s, s', a)
    case Write => WriteStep(cfg, s, s')
    case ProcessDelivered => DeliveredStep(s, s')
    case Resync => s' == s.(forceFull := true)
  }

  /** The relay computes frames only when it has processed every `Delivered` event. */
  ghost predicate Prompt(s: State, a: Action) {
    a.Broadcast? ==> s.acks == []
  }

  ghost predicate IsRun(cfg: Config, run: seq<State>, actions: seq<Action>) {
    && |run| == |actions| + 1
    && Init(run[0])
    && forall i :: 0 <= i < |actions| ==> Step(cfg, run[i], run[i + 1], actions[i])
  }

  /** A stripped patch for a legacy client does not clear a field and leave out another that counts. */
  ghost predicate SafeStrip(cfg: Config, s: State, a: Action) {
    a.Broadcast? && s.delivered.Some? && !IsFull(a.payload) ==>
      StripSafe(FormOf(cfg, a.strip, cfg.unreliable), PLAYER_OPTIONAL, s.delivered.value.players, a.target.players)
  }

  ghost predicate PromptRun(run: seq<State>, actions: seq<Action>)
    requires |run| == |actions| + 1
  {
    forall i :: 0 <= i < |actions| ==> Prompt(run[i], actions[i])
  }

  /** Up to some step, stripping was safe; always so with clients that honour clears or get no datagrams. */
  ghost predicate SafeUntil(cfg: Config, run: seq<State>, actions: seq<Action>, i: nat)
    requires i < |run| == |actions| + 1
  {
    forall k :: 0 <= k < i ==> SafeStrip(cfg, run[k], actions[k])
  }

  // ---------------------------------------------------------------- battle chunks in every run

  /** What a waiting frame will do to the battle map of the client as it stands. */
  ghost predicate SlotBattleOk(cfg: Config, s: State, f: Frame)
    requires BattleOk(s.battle)
  {
    && f.battleRevision <= s.battle.revision
    && s.clientBattleAt <= f.battleRevision
    && (f.payload.None? ==> s.started && f.battleRevision == s.clientBattleAt)
    && (!s.started ==> f.payload.Some? && f.payload.value.Full?)
    && Receive(cfg, s.client, f.payload).battle == BattleAt(s.battle, f.battleRevision, cfg.includeMode)
  }

  ghost predicate BattleInv(cfg: Config, s: State) {
    && BattleOk(s.battle)
    && s.deliveredBattle <= s.clientBattleAt <= s.battle.revision
    && (forall i :: 0 <= i < |s.acks| ==> s.acks[i].battleRevision <= s.clientBattleAt)
    && (s.delivered.Some? || s.acks != [] ==> s.started)
    && (s.started ==> s.client.battle == BattleAt(s.battle, s.clientBattleAt, cfg.includeMode))
    && (s.slot.Some? ==> SlotBattleOk(cfg, s, s.slot.value))
  }

  lemma BattleChangeKeeps(cfg: Config, s: State, s': State, battle: Battle)
    requires BattleInv(cfg, s) && BattleStep(s, s', battle)
    ensures BattleInv(cfg, s')
  {
  }

  lemma BroadcastKeepsBattle(cfg: Config, s: State, s': State, a: Action)
    requires BattleInv(cfg, s) && a.Broadcast? && BroadcastStep(cfg, s, s', a)
    ensures BattleInv(cfg, s')
  {
    hide BattleOk, WellFormed, BattleAt, Agree, IsCatchUp;
    if s.started {
      PayloadBattle(cfg, s.forceFull, s.delivered, s.deliveredBattle, a.strip, a.target, s.battle, a.build, a.payload,
                    s.client, s.clientBattleAt);
    }
  }

  lemma WriteKeepsBattle(cfg: Config, s: State, s': State)
    requires BattleInv(cfg, s) && WriteStep(cfg, s, s')
    ensures BattleInv(cfg, s')
  {
  }

  lemma DeliveredKeepsBattle(cfg: Config, s: State, s': State)
    requires BattleInv(cfg, s) && DeliveredStep(s, s')
    ensures BattleInv(cfg, s')
  {
  }

  lemma StepKeepsBattle(cfg: Config, s: State, s': State, a: Action)
    requires BattleInv(cfg, s) && Step(cfg, s, s', a)
    ensures BattleInv(cfg, s')
  {
    hide BattleStep, BroadcastStep, WriteStep, DeliveredStep, BattleOk, BattleAt;
    match a
    case BattleChange(battle) => BattleChangeKeeps(cfg, s, s', battle);
    case Broadcast(_, _, _, _, _) => BroadcastKeepsBattle(cfg, s, s', a);
    case Write => WriteKeepsBattle(cfg, s, s');
    case ProcessDelivered => DeliveredKeepsBattle(cfg, s, s');
    case Resync =>
  }

  /**
   In every run, however acknowledgements and frames interleave and whatever is overwritten, a client that has read a
   payload holds exactly the battle map of one revision, never older than the one the relay diffs against.
   */
  lemma {:induction false} BattleConvergence(cfg: Config, run: seq<State>, actions: seq<Action>, i: nat)
    requires IsRun(cfg, run, actions) && i < |run|
    ensures BattleInv(cfg, run[i])
    decreases i
  {
    if i > 0 {
      BattleConvergence(cfg, run, actions, i - 1);
      assert Step(cfg, run[i - 1], run[i - 1 + 1], actions[i - 1]);
      StepKeepsBattle(cfg, run[i - 1], run[i], actions[i - 1]);
    }
  }

  /** Frames are written, and their events processed, in the order in which they were computed. */
  ghost predicate InOrder(s: State) {
    && s.deliveredRevision <= s.roomRevision
    && (forall i :: 0 <= i < |s.acks| ==> s.deliveredRevision <= s.acks[i].revision <= s.roomRevision)
    && (forall i, j :: 0 <= i < j < |s.acks| ==> s.acks[i].revision <= s.acks[j].revision)
    && (s.slot.Some? ==>
          && s.deliveredRevision <= s.slot.value.revision <= s.roomRevision
          && forall i :: 0 <= i < |s.acks| ==> s.acks[i].revision <= s.slot.value.revision)
  }

  /** The latest event, pending or processed, names the battle revision of the client. */
  ghost predicate AckInv(s: State) {
    && InOrder(s)
    && (s.acks != [] ==> s.acks[|s.acks| - 1].battleRevision == s.clientBattleAt)
    && (s.acks == [] && s.delivered.Some? ==> s.deliveredBattle == s.clientBattleAt)
  }

  lemma StepKeepsAcks(cfg: Config, s: State, s': State, a: Action)
    requires BattleInv(cfg, s) && AckInv(s) && Step(cfg, s, s', a)
    ensures AckInv(s')
  {
    hide BattleOk, BattleInv, WriteStep, DeliveredStep, BroadcastStep, AckInv;
    match a
    case BattleChange(_) => SameAcks(s, s');
    case Broadcast(_, _, _, _, _) => BroadcastKeepsAcks(cfg, s, s', a);
    case Write => WriteKeepsAcks(cfg, s, s');
    case ProcessDelivered => DeliveredKeepsAcks(s, s');
    case Resync => SameAcks(s, s');
  }

  lemma SameAcks(s: State, s': State)
    requires AckInv(s) && s' == s.(battle := s'.battle, forceFull := s'.forceFull)
    ensures AckInv(s')
  {
  }

  lemma BroadcastKeepsAcks(cfg: Config, s: State, s': State, a: Action)
    requires AckInv(s) && a.Broadcast? && BroadcastStep(cfg, s, s', a)
    ensures AckInv(s')
  {
    hide BattleOk, IsPayload, WellFormed;
  }

  lemma WriteKeepsAcks(cfg: Config, s: State, s': State)
    requires BattleInv(cfg, s) && AckInv(s) && WriteStep(cfg, s, s')
    ensures AckInv(s')
  {
    hide BattleOk, BattleAt, Receive;
  }

  lemma DeliveredKeepsAcks(s: State, s': State)
    requires AckInv(s) && DeliveredStep(s, s')
    ensures AckInv(s')
  {
  }

  lemma {:induction false} AcksInOrder(cfg: Config, run: seq<State>, actions: seq<Action>, i: nat)
    requires IsRun(cfg, run, actions) && i < |run|
    ensures AckInv(run[i])
    decreases i
  {
    hide Step;
    if i > 0 {
      AcksInOrder(cfg, run, actions, i - 1);
      BattleConvergence(cfg, run, actions, i - 1);
      assert Step(cfg, run[i - 1], run[i - 1 + 1], actions[i - 1]);
      StepKeepsAcks(cfg, run[i - 1], run[i], actions[i - 1]);
    }
  }

  /**
   In every run: when no event is pending, the client holds the battle map of the very revision the relay diffs
   against; while events are pending, that of the last of them.
   */
  lemma BattleAtBase(cfg: Config, run: seq<State>, actions: seq<Action>, i: nat)
    requires IsRun(cfg, run, actions) && i < |run|
    ensures var s := run[i];
            && BattleOk(s.battle) && s.deliveredBattle <= s.battle.revision
            && (s.acks == [] && s.delivered.Some? ==>
                  s.client.battle == BattleAt(s.battle, s.deliveredBattle, cfg.includeMode))
            && (s.acks != [] ==>
                  var last := s.acks[|s.acks| - 1];
                  last.battleRevision <= s.battle.revision
                  && s.client.battle == BattleAt(s.battle, last.battleRevision, cfg.includeMode))
  {
    hide IsRun, BattleAt, LogExplains;
    AcksInOrder(cfg, run, actions, i);
    BattleConvergence(cfg, run, actions, i);
  }

  // ---------------------------------------------------------------- snapshots in prompt runs

  ghost predicate SyncInv(cfg: Config, s: State) {
    && |s.acks| <= 1
    && s.deliveredRevision <= s.roomRevision
    && (s.delivered.Some? ==> WellFormed(s.delivered.value))
    && (s.started <==> s.delivered.Some? || s.acks != [])
    && (s.acks != [] ==>
          && s.slot.None? && WellFormed(s.acks[0].snapshot)
          && s.deliveredRevision <= s.acks[0].revision <= s.roomRevision
          && Synced(cfg, s.client.snapshot, s.acks[0].snapshot))
    && (s.acks == [] && s.delivered.Some? ==> Synced(cfg, s.client.snapshot, s.delivered.value))
    && (s.slot.Some? ==>
          && WellFormed(s.slot.value.snapshot)
          && s.deliveredRevision <= s.slot.value.revision <= s.roomRevision
          && (s.slot.value.payload.Some? || s.started)
          && Synced(cfg, Receive(cfg, s.client, s.slot.value.payload).snapshot, s.slot.value.snapshot))
  }

  lemma BroadcastKeepsSync(cfg: Config, s: State, s': State, a: Action)
    requires SyncInv(cfg, s) && a.Broadcast? && BroadcastStep(cfg, s, s', a) && Prompt(s, a) && SafeStrip(cfg, s, a)
    ensures SyncInv(cfg, s')
  {
    hide WellFormed, AgreeBesidesPlayers, SameSettled, BattleOk, IsCatchUp, IsPatch, Agree, StripSafe;
    if s.delivered.Some? {
      PayloadSyncs(cfg, s.forceFull, s.delivered, s.deliveredBattle, a.strip, a.target, s.battle, a.build, a.payload,
                   s.client);
    } else {
      FullSyncs(cfg, a.target);
    }
  }

  lemma StepKeepsSync(cfg: Config, s: State, s': State, a: Action)
    requires SyncInv(cfg, s) && Step(cfg, s, s', a) && Prompt(s, a) && SafeStrip(cfg, s, a)
    ensures SyncInv(cfg, s')
  {
    hide WellFormed, Synced, BattleOk, BroadcastStep;
    if a.Broadcast? {
      BroadcastKeepsSync(cfg, s, s', a);
    }
  }

  /**
   In every run in which the relay computes frames only with no `Delivered` event pending, the client is in step with
   the acknowledged snapshot whenever nothing is in flight, and with the written frame while its event is pending;
   overwritten frames lose nothing. In step means equal, up to positions on datagram connections.
   */
  lemma {:induction false} SnapshotConvergence(cfg: Config, run: seq<State>, actions: seq<Action>, i: nat)
    requires IsRun(cfg, run, actions) && PromptRun(run, actions) && i < |run| && SafeUntil(cfg, run, actions, i)
    ensures SyncInv(cfg, run[i])
    decreases i
  {
    if i > 0 {
      SnapshotConvergence(cfg, run, actions, i - 1);
      assert Step(cfg, run[i - 1], run[i - 1 + 1], actions[i - 1]) && Prompt(run[i - 1], actions[i - 1]);
      assert SafeStrip(cfg, run[i - 1], actions[i - 1]);
      StepKeepsSync(cfg, run[i - 1], run[i], actions[i - 1]);
    }
  }

  lemma SafeUnlessLegacyDatagrams(cfg: Config, run: seq<State>, actions: seq<Action>, i: nat)
    requires IsRun(cfg, run, actions) && i < |run| && (cfg.honours || !cfg.unreliable)
    ensures SafeUntil(cfg, run, actions, i)
  {
    hide BattleOk, IsPayload, WellFormed;
    forall k | 0 <= k < i
      ensures SafeStrip(cfg, run[k], actions[k])
    {
      assert Step(cfg, run[k], run[k + 1], actions[k]);
    }
  }

  /** The first frame of a prompt run that is not stripped safely takes the client out of step when it is written. */
  lemma UnsafeStripDiverges(cfg: Config, run: seq<State>, actions: seq<Action>, i: nat)
    requires IsRun(cfg, run, actions) && PromptRun(run, actions) && i < |actions|
    requires SafeUntil(cfg, run, actions, i) && !SafeStrip(cfg, run[i], actions[i])
    ensures actions[i].Broadcast? && Synced(cfg, run[i].client.snapshot, run[i].delivered.value)
    ensures !Synced(cfg, Receive(cfg, run[i].client, actions[i].payload).snapshot, actions[i].target)
  {
    hide Step, Synced, SyncInv, SafeStrip, Receive, SafeUntil;
    SnapshotConvergence(cfg, run, actions, i);
    assert Step(cfg, run[i], run[i + 1], actions[i]);
    UnsafeBroadcast(cfg, run[i], run[i + 1], actions[i]);
  }

  lemma UnsafeBroadcast(cfg: Config, s: State, s': State, a: Action)
    requires SyncInv(cfg, s) && Step(cfg, s, s', a) && Prompt(s, a) && !SafeStrip(cfg, s, a)
    ensures a.Broadcast? && Synced(cfg, s.client.snapshot, s.delivered.value)
    ensures !Synced(cfg, Receive(cfg, s.client, a.payload).snapshot, a.target)
  {
    hide WellFormed, Synced, BattleOk, IsPayload, StripSafe, Receive;
    PayloadSyncs(cfg, s.forceFull, s.delivered, s.deliveredBattle, a.strip, a.target, s.battle, a.build, a.payload,
                 s.client);
  }

  /**
   Both halves of the client, in every run that diffs with no event pending: at rest it holds the acknowledged snapshot,
   up to positions on datagram connections, and exactly the battle map of the acknowledged revision; while an event is
   pending, those of its frame.
   */
  lemma ClientConvergence(cfg: Config, run: seq<State>, actions: seq<Action>, i: nat)
    requires IsRun(cfg, run, actions) && PromptRun(run, actions) && i < |run| && SafeUntil(cfg, run, actions, i)
    ensures var s := run[i];
            && BattleOk(s.battle) && s.deliveredBattle <= s.battle.revision
            && (s.acks == [] && s.delivered.Some? ==>
                  && Synced(cfg, s.client.snapshot, s.delivered.value)
                  && s.client.battle == BattleAt(s.battle, s.deliveredBattle, cfg.includeMode))
            && (s.acks != [] ==>
                  && |s.acks| == 1 && s.acks[0].battleRevision <= s.battle.revision
                  && Synced(cfg, s.client.snapshot, s.acks[0].snapshot)
                  && s.client.battle == BattleAt(s.battle, s.acks[0].battleRevision, cfg.includeMode))
  {
    hide IsRun, PromptRun, Synced, BattleAt, WellFormed, LogExplains;
    BattleAtBase(cfg, run, actions, i);
    SnapshotConvergence(cfg, run, actions, i);
  }

  // ---------------------------------------------------------------- one write, whatever has been acknowledged

  /** The broadcast that computed the frame in the slot. */
  lemma {:induction false} SlotOrigin(cfg: Config, run: seq<State>, actions: seq<Action>, i: nat) returns (j: nat)
    requires IsRun(cfg, run, actions) && i < |run| && run[i].slot.Some?
    ensures j < i && actions[j].Broadcast? && BroadcastStep(cfg, run[j], run[j + 1], actions[j])
    ensures run[i].slot == Some(Frame(run[j].roomRevision + 1, actions[j].payload, actions[j].target,
                                      run[j].battle.revision))
    decreases i
  {
    hide IsPayload, BattleOk, WellFormed, Receive;
    assert i > 0;
    assert Step(cfg, run[i - 1], run[i - 1 + 1], actions[i - 1]);
    j := i - 1;
    if !actions[j].Broadcast? || (actions[j].payload.None? && !actions[j].digestDue) {
      j := SlotOrigin(cfg, run, actions, i - 1);
    }
  }

  /**
   In every run, prompt or not, on every kind of connection: writing a patch brings the client to the snapshot of the
   frame, exactly or up to positions, if and only if the patch, in the form in which the connection gets it and computed
   against what had been acknowledged then, fits what the client holds now.
   */
  lemma WriteExact(cfg: Config, run: seq<State>, actions: seq<Action>, i: nat, loose: bool) returns (j: nat)
    requires IsRun(cfg, run, actions) && i < |actions| && actions[i].Write?
    requires run[i].slot.Some? && !IsFull(run[i].slot.value.payload)
    ensures j < i && actions[j].Broadcast? && run[j].delivered.Some?
    ensures actions[j].target == run[i].slot.value.snapshot
    ensures InStep(loose, run[i + 1].client.snapshot, run[i].slot.value.snapshot)
            <==> PatchFits(FormOf(cfg, actions[j].strip, loose), run[i].client.snapshot, run[j].delivered.value,
                           run[i].slot.value.snapshot)
  {
    hide BattleOk, WellFormed, PatchFits, InStep, IsPayload, BattleAt, Receive;
    j := SlotOrigin(cfg, run, actions, i);
    assert Step(cfg, run[i], run[i + 1], actions[i]);
    var a := actions[j];
    PayloadExact(cfg, run[j].forceFull, run[j].delivered, run[j].deliveredBattle, a.strip, a.target, run[j].battle,
                 a.build, a.payload, run[i].client, loose);
  }

  // ---------------------------------------------------------------- recovery

  /**
   When a frame is full and when there is nothing to send: full exactly when forced, when nothing was delivered, or when
   the log does not reach back to the delivered battle revision; without stripping, nothing exactly when the delivered
   snapshot agrees with the target and the battle map has not changed.
   */
  lemma PayloadShape(
    cfg: Config, forceFull: bool, delivered: Option<Snapshot>, deliveredBattle: nat, strip: bool, target: Snapshot,
    battle: Battle, b: Build, payload: Option<Payload>)
    requires BattleOk(battle)
    requires IsPayload(cfg, forceFull, delivered, deliveredBattle, strip, target, battle, b, payload)
    ensures IsFull(payload) <==>
            || forceFull || delivered.None? || deliveredBattle > battle.revision
            || battle.revision - deliveredBattle > |battle.changes|
    ensures !strip ==>
              (payload.None? <==> !forceFull && delivered.Some? && Agree(delivered.value, target)
                                  && deliveredBattle == battle.revision)
  {
    hide IsPatch, Agree, StripPatch, IsChunkPatch, IsAdaptedPatch;
  }

  /** A frame computed when a full state is due carries the whole target and the whole battle map. */
  lemma ForcedIsWhole(
    cfg: Config, delivered: Option<Snapshot>, deliveredBattle: nat, strip: bool, target: Snapshot, battle: Battle,
    b: Build, payload: Option<Payload>)
    requires BattleOk(battle)
    requires IsPayload(cfg, true, delivered, deliveredBattle, strip, target, battle, b, payload)
    ensures payload == Some(Full(target, BattleAt(battle, battle.revision, cfg.includeMode)))
  {
    hide IsCatchUp, IsPatch, Agree;
  }

  /** The battle map of a past revision does not change any more. */
  lemma {:induction false} HistoryStays(cfg: Config, run: seq<State>, actions: seq<Action>, j: nat, i: nat)
    requires IsRun(cfg, run, actions) && j <= i < |run|
    ensures BattleOk(run[j].battle) && BattleOk(run[i].battle)
    ensures run[j].battle.history <= run[i].battle.history
    decreases i
  {
    hide Receive, IsPayload, WellFormed, LogExplains;
    if j < i {
      HistoryStays(cfg, run, actions, j, i - 1);
      assert Step(cfg, run[i - 1], run[i - 1 + 1], actions[i - 1]);
    } else if i > 0 {
      HistoryStays(cfg, run, actions, i - 1, i - 1);
      assert Step(cfg, run[i - 1], run[i - 1 + 1], actions[i - 1]);
    }
  }

  /** The client holds exactly the target of the broadcast and the battle map of the time it was computed. */
  ghost predicate Holds(cfg: Config, s: State, target: Snapshot, revision: nat) {
    && s.client.snapshot == target && revision < |s.battle.history|
    && s.client.battle == BattleAt(s.battle, revision, cfg.includeMode)
  }

  /**
   In every run, prompt or not, and whatever the client holds: writing a frame that was computed when a full state was
   due leaves the client with exactly the snapshot of the frame and the battle map of its revision.
   */
  lemma ForcedWriteHeals(cfg: Config, run: seq<State>, actions: seq<Action>, i: nat) returns (j: nat)
    requires IsRun(cfg, run, actions) && i < |actions| && actions[i].Write? && run[i].slot.Some?
    ensures j < i && actions[j].Broadcast? && actions[j].target == run[i].slot.value.snapshot
    ensures run[j].forceFull ==> Holds(cfg, run[i + 1], run[i].slot.value.snapshot, run[i].slot.value.battleRevision)
  {
    hide IsPayload, WellFormed, BattleOk;
    j := SlotOrigin(cfg, run, actions, i);
    assert Step(cfg, run[i], run[i + 1], actions[i]);
    if run[j].forceFull {
      ForcedSlotHeals(cfg, run, actions, j, i);
    }
  }

  lemma ForcedSlotHeals(cfg: Config, run: seq<State>, actions: seq<Action>, j: nat, i: nat)
    requires IsRun(cfg, run, actions) && j < i < |actions| && actions[i].Write?
    requires actions[j].Broadcast? && run[j].forceFull
    requires run[i].slot == Some(Frame(run[j].roomRevision + 1, actions[j].payload, actions[j].target,
                                       run[j].battle.revision))
    ensures Holds(cfg, run[i + 1], actions[j].target, run[j].battle.revision)
  {
    hide WellFormed, BattleOk, IsPayload;
    assert Step(cfg, run[j], run[j + 1], actions[j]);
    assert Step(cfg, run[i], run[i + 1], actions[i]);
    var a := actions[j];
    ForcedIsWhole(cfg, run[j].delivered, run[j].deliveredBattle, a.strip, a.target, run[j].battle, a.build, a.payload);
    HistoryStays(cfg, run, actions, j, i + 1);
    BattleSizes(run[j].battle);
  }

  lemma BattleSizes(b: Battle)
    requires BattleOk(b)
    ensures b.revision < |b.history|
  {
  }

  /** The broadcast has something to send, if only a digest, and replaces what waits in the slot. */
  predicate Overwrites(a: Action) {
    a.Broadcast? && (a.payload.Some? || a.digestDue)
  }

  lemma {:induction false} SlotStays(cfg: Config, run: seq<State>, actions: seq<Action>, j: nat, i: nat)
    requires IsRun(cfg, run, actions) && j <= i < |run|
    requires forall k :: j <= k < i ==> !Overwrites(actions[k]) && !actions[k].Write?
    ensures run[i].slot == run[j].slot
    decreases i
  {
    hide WriteStep, BattleOk, IsPayload, WellFormed;
    if j < i {
      SlotStays(cfg, run, actions, j, i - 1);
      assert Step(cfg, run[i - 1], run[i - 1 + 1], actions[i - 1]);
    }
  }

  /** After a resync a full state stays due until the next broadcast, which therefore computes one. */
  lemma {:induction false} ResyncIsKept(cfg: Config, run: seq<State>, actions: seq<Action>, r: nat, i: nat)
    requires IsRun(cfg, run, actions) && r < i < |run| && actions[r].Resync?
    requires forall k :: r < k < i ==> !actions[k].Broadcast?
    ensures run[i].forceFull
    ensures i < |actions| && actions[i].Broadcast? ==>
              && BattleOk(run[i].battle)
              && actions[i].payload == Some(Full(actions[i].target,
                                                 BattleAt(run[i].battle, run[i].battle.revision, cfg.includeMode)))
    decreases i
  {
    hide IsPayload, WellFormed, LogExplains;
    assert Step(cfg, run[i - 1], run[i - 1 + 1], actions[i - 1]);
    if r < i - 1 {
      ResyncIsKept(cfg, run, actions, r, i - 1);
    }
    if i < |actions| && actions[i].Broadcast? {
      assert Step(cfg, run[i], run[i + 1], actions[i]);
      var a := actions[i];
      ForcedIsWhole(cfg, run[i].delivered, run[i].deliveredBattle, a.strip, a.target, run[i].battle, a.build,
                    a.payload);
    }
  }

  /**
   So a resync brings any client back in step, unless a later frame replaces the full one before it is written: after
   the resync at `r`, the broadcast at `j` and the write at `i` the client holds exactly what was broadcast.
   */
  lemma ResyncHeals(cfg: Config, run: seq<State>, actions: seq<Action>, r: nat, j: nat, i: nat)
    requires IsRun(cfg, run, actions) && r < j < i < |actions|
    requires actions[r].Resync? && actions[j].Broadcast? && actions[i].Write?
    requires forall k :: r < k < j ==> !actions[k].Broadcast?
    requires forall k :: j < k < i ==> !Overwrites(actions[k]) && !actions[k].Write?
    ensures Holds(cfg, run[i + 1], actions[j].target, run[j].battle.revision)
  {
    hide WellFormed, BattleAt, BattleOk, IsPayload, Holds;
    ResyncIsKept(cfg, run, actions, r, j);
    assert Step(cfg, run[j], run[j + 1], actions[j]);
    SlotStays(cfg, run, actions, j + 1, i);
    ForcedSlotHeals(cfg, run, actions, j, i);
  }
}
