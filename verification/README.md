# Verification of the relay's state replication

A model of the engine that keeps clients in step with a room: the battle chunk cache and its change log, the snapshot
diff and its delivery through a one-slot watch, broadcast with shared results, source grouping and arbitration, the tab
history, the datagram dictionary handshake, movement datagrams and the stream frame codec.

`dafny verify dfyconfig.toml` checks all of it.

## How the model is laid out

| file | what it models |
|---|---|
| `Prelude.dfy` | options, map lookups, elapsed time, text trimming, string order |
| `Records.dfy` | messages as maps from wire field to value; upserts, scopes, `map_patch`, the client's merge |
| `BattleLog.dfy` | battle values, their public projection, the trimmed change log compared with the map at every revision |
| `BattleIndex.dfy` | the expiry index as one flat queue of tickets: eviction, expiry, pruning, whole runs |
| `BattleReport.dfy` | which entries of a report count, under which key and with which value |
| `BattleCache.dfy` | `BattleRoomCache` as a class: batches, loops, generations, log; proved against the three files above |
| `BattleKeys.dfy`, `BattleDigest.dfy` | textual chunk keys; what the two battle digests hash |
| `Snapshots.dfy`, `Positions.dfy`, `LegacyPatch.dfy` | `build_patch`, position stripping, patches for clients below 0.6.5 |
| `PatchFit.dfy` | for which clients a patch is right, in every form: with or without clears, stripped or not, judged exactly or up to positions |
| `Delivery.dfy`, `StaleBase.dfy` | payloads and the relay, slot, writer and client as steps; the run that loses a change |
| `LegacyStripped.dfy` | stripped patches for clients below 0.6.5: when they are exact, and a payload that costs coordinates |
| `ProtocolEpochs.dfy`, `Broadcast.dfy` | negotiation and epochs; the four tables shared by the recipients of a round |
| `Inbound.dfy`, `PlayerFields.dfy` | patches sent to the relay, which upserts before it deletes; players with named fields, and the hand-written field lists read as maps |
| `Grouping.dfy`, `Arbitration.dfy` | same-server groups by union-find; which source of an object is shown |
| `TabHistory.dfy` | the revisioned table with deltas, digests and sync |
| `DatagramDict.dfy`, `Movement.dfy`, `Frames.dfy` | dictionary handshake, movement batches, varint frames |

Conventions. A message is the map of its present wire fields, so an absent optional field is an absent key. Where the
relay iterates over a hash map, the result is a relation (`IsDiff`, `IsPayload`) that admits every order, and the methods
are proved to produce one of its members. A hash is represented by what it hashes. Revisions and generations are
unbounded; report times do not decrease. Outcomes of calls into code that is not modelled (encoded sizes, zstd
training, the room view of an audience) are parameters. Fields that exist in the model only (`history`, `stamps`,
`clock`, `past`, `clientBattleAt`) are ghost or marked as such.

## What the proofs found

- A snapshot patch is right for a client if and only if it fits what the client holds. This is proved for every form in
  which a connection may get it: merged with clears or adapted for clients below 0.6.5, stripped of positions or not,
  and for agreement exactly or up to positions (`PatchFit.PatchExact`, for each write of a run `Delivery.WriteExact`).
  Where base and target agree the client has to agree with them; where they differ every field is carried or held
  already, and nothing is left over (`PatchFit.FitsAt`). For clients that honour clears, holding the base itself is
  sufficient, not necessary. The code does not make the relay wait for a pending `Delivered` event before it diffs, and
  a change from A to B and back to A that overtakes its acknowledgement is lost
  (`StaleBase.OvertakenDeliveredDiverges`). The battle patch has no such weakness: at rest the client holds the battle
  map of the relay's base in every run (`Delivery.BattleAtBase`).
- A resync is the way back for any client that is out of step: the next frame computed is full and, once written, leaves
  the client with exactly its snapshot and battle map (`Delivery.ResyncHeals`). A frame that replaces it in the slot
  before it is written, if only for a digest, loses it (`StaleBase.ResyncMayBeLost`).
- Adapted patches for clients below 0.6.5 are exact if and only if clearing upserts are whole objects
  (`LegacyPatch.AdaptedExact`). Nothing keeps such a client from taking positions by datagram, and then its patches are
  stripped: they do what they do to a current client if and only if no player that stays loses a field
  (`LegacyStripped.StrippedExact`); otherwise such a player can lose its coordinates
  (`LegacyStripped.CoordinatesAreLost`). Such a connection stays in step exactly as long as no stripped upsert clears
  one field and leaves out another that counts (`Delivery.SnapshotConvergence`, `Delivery.UnsafeStripDiverges`).
- Last-seen upserts never name fields to clear, so a client that merged them field by field would keep stale fields
  (`Snapshots.LastSeenMergeExact`).
- `MOVEMENT_MAX_CHUNKS_PER_TICK` is exceeded by one chunk with one entry as soon as a roster needs more than sixteen
  chunks (`Movement.BatchIsTruncation`, `Movement.LimitExceededByOne`), contrary to its comment.
- The comment that repeated `dict_ready` answers do not matter needs a condition: no offer may be lost of a dictionary
  that the client holds and that is not the current one (`DatagramDict.BarrierHolds`). Training may come up with earlier
  dictionaries as long as their offers arrive. A lost offer outside the condition leaves the encoder waiting for a
  dictionary it may activate and the client may evict, and the run can go on to a datagram the client cannot read
  (`DatagramDict.LosingLeadsThere`, `DatagramDict.LosingAnotherIsFatal`,
  `DatagramDict.StaleAnswerBreaksTheBarrier`).
- At most one offer is under way with single answers, or as long as no dictionary is offered that the client holds or is
  still answering (`DatagramDict.OneOfferUnderWay`). With repeated answers the condition is exact: an offer that breaks
  it lets a second one come under way (`DatagramDict.OfferingLeadsThere`, `DatagramDict.OfferingAgainPilesUp`).
- A lost offer ends training for the rest of the connection if answers come once
  (`DatagramDict.EveryLostOfferStalls`). With repeated answers it does so if and only if neither the client nor the
  control stream has a copy of the dictionary (`DatagramDict.LostOfferStalls`, `DatagramDict.LostOfferMayHeal`).
- A tab history delta brings a client to the full table if and only if the client agrees with the base table on every
  player the delta is silent about (`TabHistory.TabHistoryRoom.Sync`). Without a digest a purge breaks this
  (`TabHistory.PurgeNeedsDigest`); with a digest it holds up to the revisions of single entries, which digests do not
  see.
- The battle digest cannot tell a missing colour mode from the default one (`BattleDigest.DigestExact`).
- The takeover delay protects an external source only while it reports; without one a game source shows at once
  (`Arbitration.NoDelayWithoutExternals`).

## Model

| member | source | states |
|---|---|---|
| `Prelude.TrimExact` | src/relay.rs:438-445 | trimming drops white space at both ends and nothing else |
| `Prelude.StringLessExact` | src/relay.rs:2848-2857 | texts are ordered by their first difference, a proper prefix first |
| `Records.ClearFields` | src/relay.rs:3884-3946 | clearing names one after the other removes exactly the fields these names stand for; a name that stands for no field, such as that of a required field, is ignored |
| `Records.FieldRoundTrip` | src/relay.rs:3948-4025 | on records as maps, clearing the cleared fields of (old, new) and applying the delta of new to old gives new if and only if every dropped field is optional |
| `Records.NamedIsCleared` | src/relay.rs:3884-4025 | on the names the relay itself sends, the relay's clearing and that of a client that drops whatever is named agree |
| `Records.ApplyUpsertsAt` | scripts/load_test_live.py:256-272 | after a fold of upserts with distinct ids each object is the merge of its one upsert, all others are untouched |
| `Records.ApplyScopeAt` | scripts/load_test_live.py:264-272 | what a client holds at any id after deletes and then upserts |
| `Records.MapPatch` | src/relay.rs:3332-3355 | no patch if and only if the tables are equal; otherwise deletes exactly the vanished ids and upserts exactly the new or changed ones |
| `Records.DiffExact` | src/relay.rs:3332-3355 | a diff against one table applied to another gives the target if and only if the two agree where the diff is silent and nothing uncleared is left over |
| `Records.DiffRoundTrip` | src/relay.rs:3332-3355 | merging the diff of two tables into the first gives the second if and only if only optional fields disappear |
| `Records.ReplaceRoundTrip` | src/relay.rs:3414-3424 | a scope of whole objects is exact for a client that replaces them |
| `BattleLog.MissingFields` | src/relay.rs:3284-3298 | names exactly the optional public fields a value lacks, the mode only for clients that know it |
| `BattleLog.ChunkUpsertExact` | src/relay.rs:532-547 | a chunk upsert with its missing fields overrides whatever projection the client held |
| `BattleLog.ProjectionExact` | src/relay.rs:569-587 | a client sees the colour and the optional public fields, the mode only if it knows modes, and none of the four private fields |
| `BattleLog.UnrecordedKeysUnchanged` | src/relay.rs:655-675 | between any revision the log covers and the current one the map changes on recorded keys only |
| `BattleLog.CollectChanged` | src/relay.rs:524-529 | the keys recorded after the delivered revision, whatever the batches |
| `BattleLog.BuildChunkPatch` | src/relay.rs:530-554 | upserts exactly the changed keys that still have a value and deletes exactly the others |
| `BattleLog.CatchUpExact` | src/relay.rs:506-554 | a patch since r, merged into the projection at any r' with r <= r' <= current, gives the full projection now |
| `BattleLog.CatchUpFromAnyRevision` | src/relay.rs:506-554 | the same for all revisions at once, with the answers "nothing" and "full" included |
| `BattleLog.TrimKeepsExplanation` | src/relay.rs:666-673 | a log with its oldest batch dropped still explains the history |
| `BattleLog.RecordKeepsExplanation` | src/relay.rs:655-665 | a log extended by the changed keys explains the extended history |
| `BattleIndex.EvictionRemovesOldest` | src/relay.rs:609-636 | eviction stops exactly at the limit, keeps values, and never removes a chunk of a later generation than one it keeps |
| `BattleIndex.ExpiryIsByLastWrite` | src/relay.rs:476-485 | expiry removes exactly the chunks whose last write is older than the retention, so an overwrite outlives its stale index rows |
| `BattleIndex.EvictPruned` | src/relay.rs:609-636 | eviction does the same to a store and to its pruned form |
| `BattleIndex.ExpirePruned` | src/relay.rs:476-485 | expiry does the same to a store and to its pruned form |
| `BattleIndex.UpsertKeepsIndex` | src/relay.rs:423-474 | after an upsert every live chunk has the ticket of its own generation, tickets are ordered, and the limit holds |
| `BattleIndex.CleanupKeepsIndex` | src/relay.rs:476-491 | the same after a cleanup, and nothing older than the retention survives |
| `BattleIndex.PruningKeepsIndex` | src/relay.rs:682-693 | pruning keeps the index invariant |
| `BattleIndex.StepAlike` | src/relay.rs:423-491 | stores that differ in stale tickets only stay so under every operation |
| `BattleIndex.PruningUnobservable` | src/relay.rs:468-471 | whenever and however often the index is pruned, a run caches the same chunks with the same generations |
| `BattleIndex.RunIsSteps` | src/relay.rs:423-491 | such a run is one operation after the other, each upsert under the next generation |
| `BattleIndex.StepKeepsTrimmed` | src/relay.rs:423-491 | no operation brings in a chunk whose dimension is empty or has white space around it |
| `BattleReport.AcceptedIsTrimmed` | src/relay.rs:438-445 | an accepted entry has a trimmed, non-empty dimension; the invariant of the cache carries this to all its keys |
| `BattleReport.AcceptedExact` | src/relay.rs:368-375 | an entry is stored exactly if it has a reference, both coordinates, a dimension that is not blank, and data; under its own trimmed dimension and coordinates and with its own value |
| `BattleReport.ReportIsStored` | src/relay.rs:434-474 | whatever is cached after a report is what the last entry about the chunk says, or what was there before; with room enough that is all of it |
| `BattleReport.TableRoundTrip` | src/relay.rs:434-459 | storing the wire entries of any table in an empty cache with room gives exactly that table |
| `BattleCache.WriteEntries` | src/relay.rs:434-459 | the write loop gives the reference map and collects every key whose value changed |
| `BattleCache.PopOldestKey` | src/relay.rs:615-636 | one pop discards the oldest ticket and drops an emptied batch |
| `BattleCache.EvictToLimit` | src/relay.rs:609-613 | the eviction loop over batches is the reference eviction over tickets |
| `BattleCache.ExpireBatches` | src/relay.rs:476-485 | the expiry loop over batches is the reference expiry over tickets |
| `BattleCache.PruneStaleIndexes` | src/relay.rs:682-693 | the batches left hold exactly the live tickets, in order |
| `BattleCache.TrimLog` | src/relay.rs:666-673 | the log becomes its longest suffix within both limits, with the operation count kept exact |
| `BattleCache.TrimmedExact` | src/relay.rs:420-421 | at most 256 batches and 65536 keys are kept, and nothing is dropped that could be kept |
| `BattleCache.RecordChanges` | src/relay.rs:655-675 | a revision is recorded if and only if something changed, and the log explains the history with it |
| `BattleCache.BattleRoomCache.constructor` | src/relay.rs:404-421 | an empty cache satisfies the invariant |
| `BattleCache.BattleRoomCache.Upsert` | src/relay.rs:423-474 | keeps the whole invariant, stores what the report tells, holds the size limit, behaves as the reference step up to stale tickets, and records nothing when known values are repeated |
| `BattleCache.BattleRoomCache.Cleanup` | src/relay.rs:476-491 | nothing older than the retention survives, nothing younger is lost except to the limit, a revision is recorded if and only if the cache changed |
| `BattleCache.BattleRoomCache.PatchSince` | src/relay.rs:506-554 | full if and only if the revision is ahead or no longer covered; the answer brings a client at any later revision to the full entries |
| `BattleKeys.IntRoundTrip` | src/relay.rs:3859-3861 | an integer written as text reads back, and is refused exactly outside 32 bits |
| `BattleKeys.IntSpelled` | src/relay.rs:3859-3861 | the text of an integer has a sign exactly if it is negative, and no leading zeros |
| `BattleKeys.KeyRoundTrip` | src/relay.rs:3859-3882 | every dimension, bars included, and all 32-bit coordinates come back from their key |
| `BattleKeys.KeySpelled` | src/relay.rs:3859-3861 | a key is the dimension as it is, then x, then z, with bars between |
| `BattleKeys.KeysAreInjective` | src/relay.rs:3859-3882 | different chunks have different keys |
| `BattleDigest.ListingIsUnique` | src/relay.rs:4158-4185 | a set of chunks can be listed in the order of a contract in one way only |
| `BattleDigest.SortItems` | src/relay.rs:4158-4185 | sorting orders the items and keeps each as often as it was |
| `BattleDigest.CacheDigest` | src/relay.rs:4207-4256 | the cache hashes each entry's line once, in the order of the contract |
| `BattleDigest.StreamSpelled` | src/relay.rs:4207-4295 | the lines of a digest spelled out: one for each chunk, ordered by textual key or by dimension, x and z, with the colour, the colour mode or its default, and every other public field |
| `BattleDigest.ChunkDigest` | src/relay.rs:4144-4205 | wire entries of a table hash its lines in the order of the contract, however they are listed; incomplete entries are skipped |
| `BattleDigest.StreamIsUnique` | src/relay.rs:4144-4256 | a table has one digest under each contract |
| `BattleDigest.ProjectionHashesAlike` | src/relay.rs:569-587 | private fields do not reach the hash, and a mode removed is a mode not hashed |
| `BattleDigest.DigestsAgree` | src/relay.rs:493-504 | for every cache in a valid state the digest it hashes directly equals the digest of its full entries listed in any order, for both contracts and with or without modes |
| `BattleDigest.DigestExact` | src/relay.rs:4258-4295 | digests are equal if and only if the tables have the same chunks with the same colour and the same value in every public field, a missing colour mode counting as the default one and modes only if they are hashed |
| `Snapshots.TabRoundTrip` | src/relay.rs:3300-3330 | no tab patch if and only if the states agree; otherwise it leads from the one to the other |
| `Snapshots.BuildPatch` | src/relay.rs:3033-3097 | no patch if and only if the snapshots agree; otherwise every scope is the diff of its tables |
| `Snapshots.PatchBesidesPlayers` | src/relay.rs:3033-3097 | outside the players the patch takes any agreeing client to agreement with the new snapshot |
| `Snapshots.PatchRoundTrip` | src/relay.rs:3033-3097 | merging the patch of (old, new) into a client that agrees with old gives agreement with new in every scope |
| `Snapshots.PatchCounts` | src/relay.rs:3081-3097 | the patch also brings the new server time, and the number of connections exactly when they have changed |
| `PatchFit.PatchExact` | src/relay.rs:3033-3097 | in whatever form it is sent, the patch of (old, new) takes any client to new, exactly or up to positions, if and only if the client fits: in the four merged tables, last-seen players, tab state and connections alike |
| `PatchFit.TableExact` | src/relay.rs:3332-3355 | the same for one table: a difference, stripped or not, adapted or not, is right if and only if it fits the client key by key |
| `PatchFit.OutcomeAt` | src/relay.rs:3165-3217 | what a client is left with at any id, from what it held and the two objects that were compared |
| `PatchFit.PlainFits` | src/relay.rs:3332-3355 | unstripped and with clears, fitting is the condition on plain differences |
| `PatchFit.LegacyFits` | src/protocol_compat.rs:384-452 | for a client below 0.6.5 a changed object fits if and only if something is cleared or the client holds no field beyond those of the target |
| `PatchFit.InStepPatchFits` | src/relay.rs:3149-3162 | for a client in step with the old snapshot the patch fits if and only if stripping is safe |
| `Snapshots.LastSeenMergeExact` | src/relay.rs:3414-3424 | merged field by field, last-seen upserts are exact if and only if no field disappears |
| `Positions.StripScope` | src/relay.rs:3170-3217 | stripping keeps new players whole, drops positions and unchanged fields of known ones, and drops empty upserts |
| `Positions.StripUpsertsAt` | src/relay.rs:3174-3212 | each upsert is kept or dropped on its own, and ids stay distinct |
| `Positions.StrippedPatchSettles` | src/relay.rs:3170-3221 | stripped or not, a patch takes a client that agrees on ids and settled fields to the same agreement with new; new players are complete |
| `LegacyPatch.AdaptScope` | src/protocol_compat.rs:384-452 | every clearing upsert deletes its object first and no upsert clears any more |
| `LegacyPatch.AdaptedExact` | src/protocol_compat.rs:384-452 | a legacy client on the adapted scope equals a current client on the original if and only if clearing upserts carry whole objects |
| `LegacyPatch.DiffIsWhole` | src/relay.rs:3332-3355 | the relay's own diffs carry whole objects |
| `LegacyStripped.StrippedExact` | src/protocol_compat.rs:384-452 | a legacy client that holds the players, with any positions, ends where a current client fed the same stripped players ends if and only if no player that stays loses a field |
| `LegacyStripped.KeepingFieldsIsSafe` | src/relay.rs:3165-3217 | if no player that stays loses a field, stripping is safe |
| `LegacyStripped.CoordinatesAreLost` | src/relay.rs:3149-3162 | for every version below 0.6.5, a payload a broadcast may build for a connection that takes positions by datagram, with stored players as that version sees them, that leaves the client without coordinates |
| `Delivery.AdaptOutboundPatch` | src/protocol_compat.rs:384-452 | patches go out unchanged, or adapted scope by scope for clients that ignore clears |
| `Delivery.StatePayload` | src/relay.rs:3117-3163 | full exactly when forced, nothing was delivered or the log is too short; otherwise diff, battle scope, strip and adapt in this order, and nothing if nothing is left |
| `Delivery.PayloadShape` | src/relay.rs:3117-3163 | full exactly when forced, nothing was delivered or the log does not reach back; unstripped, nothing exactly when snapshot and battle map are unchanged |
| `Delivery.PayloadBattle` | src/relay.rs:3117-3163 | from any revision since the delivered one the payload takes the client's battle map to the current one; no payload only if there is nothing to take |
| `Delivery.PayloadSyncs` | src/relay.rs:3117-3163 | on every kind of connection, a client in step with the delivered snapshot is in step with the target afterwards, also if no payload is built, if and only if the payload is full or stripping was safe |
| `Delivery.LegacyClientExact` | src/protocol_compat.rs:384-452 | the adapted payload and the payload it was adapted from lead their clients to the same state, snapshot and battle map |
| `Delivery.BattleConvergence` | src/relay.rs:2137-2256 | in every run, with frames overwritten and acknowledgements late, the client holds exactly the battle map of one revision, never older than the relay's base |
| `Delivery.BattleAtBase` | src/relay.rs:930-943 | in every run the client holds the battle map of the relay's base whenever no event is pending, and that of the last pending event otherwise |
| `Delivery.SnapshotConvergence` | src/relay.rs:930-943 | in every run that diffs with no acknowledgement pending and strips safely, the client is in step with the written or acknowledged snapshot; overwritten frames lose nothing |
| `Delivery.SafeUnlessLegacyDatagrams` | src/relay.rs:3149-3162 | stripping is safe in every run of a client that honours clears or takes no positions by datagram |
| `Delivery.UnsafeStripDiverges` | src/relay.rs:3149-3162 | the first frame that is not stripped safely takes a client that was in step out of step |
| `Delivery.ClientConvergence` | src/relay.rs:930-943 | both halves together: at rest the client holds the acknowledged snapshot, up to datagram positions, and the battle map of the acknowledged revision |
| `Delivery.PayloadExact` | src/relay.rs:3117-3163 | any payload but a full one, and none at all, takes a client to agreement with the target if and only if the patch fits it in the form of its connection |
| `Delivery.WriteExact` | src/relay.rs:2137-2256 | in every run, prompt or not, and on every kind of connection, a written frame brings the client to its snapshot if and only if the client fits the base it was computed against |
| `Delivery.ForcedWriteHeals` | src/relay.rs:3141-3147 | in every run and for any client, writing a frame computed when a full state was due leaves the client with exactly the snapshot of the frame and the battle map of its revision |
| `Delivery.ResyncIsKept` | src/relay.rs:948-952 | after a resync a full state stays due until the next broadcast, which computes one |
| `Delivery.ResyncHeals` | src/relay.rs:948-952 | so a resync brings any client back in step, unless a later frame replaces the full one before it is written |
| `StaleBase.OvertakenDeliveredDiverges` | src/relay.rs:2245-2256 | a run of stored players without that discipline ends idle with the client out of step |
| `StaleBase.ResyncMayBeLost` | src/relay.rs:2245-2256 | a continuation of that run in which a digest that falls due replaces the full frame in the slot, and the client stays wrong |
| `ProtocolEpochs.EpochOf` | src/protocol_compat.rs:120-126 | the latest epoch whose version is not newer, the first one for anything older |
| `ProtocolEpochs.AtLeastExact` | src/protocol_compat.rs:120-126 | versions are compared by major, then minor, then patch number |
| `ProtocolEpochs.EpochFixesFeatures` | src/protocol_compat.rs:270-300 | versions of one epoch support the same features |
| `ProtocolEpochs.RulesMirrorFeatures` | src/protocol_compat.rs:169-197 | a compatibility rule is active exactly for peers without its feature |
| `ProtocolEpochs.Negotiate` | src/protocol_compat.rs:208-231 | accepted if and only if both sides share a version, and then with the newest shared one; otherwise the side that is too old is named |
| `Broadcast.ProjectionKeepsForm` | src/protocol_compat.rs:320-367 | a projection removes optional fields only |
| `Broadcast.ProjectionIsStable` | src/protocol_compat.rs:324-330 | projecting twice is projecting once, and a peer with every feature sees the snapshot itself |
| `Broadcast.ProjectionExact` | src/protocol_compat.rs:320-367 | field by field, what a peer of each version sees of a snapshot: no last-seen players before 0.6.4, no sources of positions before 0.6.5, no decorated labels before 0.7.0, and everything else |
| `Broadcast.TargetExact` | src/relay.rs:2080-2112 | map viewers are sent a projection of the whole room, players and external sources one of what their sources may see |
| `Broadcast.DigestSpelled` | src/relay.rs:4080-4130 | what a room digest hashes for a peer of each version: which contract, whether modes and last-seen players, and the players as the peer sees them |
| `Broadcast.RoomDigestExact` | src/relay.rs:4080-4130 | two room digests are equal if and only if the peer sees the same players, entities, waypoints, last-seen players and chunks |
| `Broadcast.SameProjection` | src/relay.rs:2107-2112 | recipients with one projection key have one target |
| `Broadcast.SamePayload` | src/relay.rs:2137-2173 | a payload that could be built for one recipient could be built for every other with the same payload key |
| `Broadcast.SameDigest` | src/relay.rs:2174-2228 | the digest key suffices although it is coarser than the epoch |
| `Broadcast.BroadcastRoom` | src/relay.rs:2066-2228 | with all four tables shared, each recipient gets a target, a movement batch if it takes positions by datagram, a payload and a digest it could have got alone |
| `Inbound.ReceiveScope` | src/relay.rs:1150-1213 | the relay's loops clear known names, merge and fill in each upsert and delete afterwards, for every kind of object |
| `Inbound.ReportRoundTrip` | src/relay.rs:1150-1213 | a reported diff moves the relay's objects from the old table to the new one if and only if every changed object has the fields filled in, new ones the fields new objects start with, and only optional fields disappear |
| `Inbound.ConformingReport` | src/relay.rs:1150-1213 | between tables of complete objects the report is exact if and only if every changed object has the fields the relay fills in |
| `Inbound.EntityReport` | src/relay.rs:1165-1188 | reporting entities is exact if and only if every changed one has its velocity and extent |
| `Inbound.WaypointReport` | src/relay.rs:1189-1213 | reporting waypoints is exact if and only if every changed one has a symbol and says who may delete it |
| `Inbound.OrdersAgree` | src/relay.rs:1150-1213 | for every kind of object, upsert-first and delete-first agree if and only if no object is both upserted and deleted |
| `PlayerFields.ClearPlayerFields` | src/relay.rs:3884-3905 | the loop clears name by name, with two spellings of the identifier |
| `PlayerFields.ClearPlayerExact` | src/relay.rs:3884-3905 | read as a map, the player loses exactly the fields the names stand for |
| `PlayerFields.ApplyPlayerExact` | src/relay.rs:3532-3590 | read as maps, applying a delta overwrites exactly the fields it carries |
| `PlayerFields.DeltaExact` | src/relay.rs:3426-3448 | the delta of a player carries every field it has |
| `PlayerFields.ClearedExact` | src/relay.rs:3948-3973 | the names reported as cleared are exactly the optional fields that disappear, in order |
| `PlayerFields.NormalizeExact` | src/relay.rs:3450-3461 | normalising fills in the missing ones of nine fields and changes no other |
| `PlayerFields.SameRecordSamePlayer` | src/relay.rs:3426-3448 | reading by name loses nothing: players that read alike are equal |
| `PlayerFields.PlayerRoundTrip` | src/relay.rs:3426-3448 | clearing what is reported as cleared and applying the delta turns any player into any other |
| `PlayerFields.StorePlayer` | src/relay.rs:1150-1160 | storing an upsert field by field is what is proved of every kind of object |
| `PlayerFields.PlayerKindOk` | src/relay.rs:3884-3905 | every optional field of a player is cleared by its own name, and a new player has required fields only |
| `PlayerFields.PlayersConform` | src/relay.rs:3426-3448 | read as maps, players have the required fields and no unknown ones |
| `PlayerFields.PlayerReport` | src/relay.rs:1143-1164 | reporting players is exact if and only if every changed player is reported as the relay would normalise it |
| `Grouping.RootOfRoot` | src/relay.rs:2818-2823 | in a forest whose parents never exceed their index every root is its own root |
| `Grouping.CompressKeepsRoots` | src/relay.rs:2818-2823 | compressing a path changes no root |
| `Grouping.FindGroup` | src/relay.rs:2818-2823 | terminates, returns the root, keeps the forest and all roots |
| `Grouping.UnionGroups` | src/relay.rs:2825-2836 | merges exactly the two trees under the smaller root |
| `Grouping.RootsAreComponents` | src/relay.rs:1781-1788 | after the double loop two sources share a root if and only if a chain of shared identities links them |
| `Grouping.Representatives` | src/relay.rs:1781-1793 | the double loop computes for every source the representative of its component |
| `Grouping.RepresentativeIsLeast` | src/relay.rs:2825-2836 | a representative is the least index linked to its source |
| `Grouping.SameServerGrouping` | src/relay.rs:1739-1820 | lists every component once, ascending inside and by least member |
| `Grouping.GroupsPartition` | src/relay.rs:1790-1820 | two members are in one group if and only if they are linked, and no source is in two groups |
| `Arbitration.BestIsUnique` | src/relay.rs:2848-2857 | the comparison is total, so a bucket has one best candidate |
| `Arbitration.BestExact` | src/relay.rs:2848-2857 | the best candidate has top priority where priorities count, is the latest of those, and among several has the smallest id |
| `Arbitration.MaxBy` | src/relay.rs:2848-2857 | the scan finds the candidate that beats all others |
| `Arbitration.ResolveOne` | src/relay.rs:2896-2983 | the branches decide as the rules of showing external and game sources say |
| `Arbitration.PlayerSourceSelections.Resolve` | src/relay.rs:2884-2994 | every object is decided by its own memory and bucket, and objects without candidates are forgotten |
| `Arbitration.ShowsACandidate` | src/relay.rs:2956-2986 | an object shows one of its current candidates, and nothing if and only if it has none |
| `Arbitration.NewExternalIsLatest` | src/relay.rs:2929-2938 | an external source newly shown is the latest of all, and among several that of the smallest id |
| `Arbitration.NewGameIsTop` | src/relay.rs:2941-2948 | a game source newly shown has top priority, is the latest of those, and among several has the smallest id |
| `Arbitration.SelectedExternalStays` | src/relay.rs:2918-2928 | a selected external source that still reports gives way to a game source only |
| `Arbitration.OrderIndependent` | src/relay.rs:2884-2994 | the outcome depends on the set of candidates, not on their order |
| `Arbitration.DecidingAgainKeepsTheChoice` | src/relay.rs:2884-2994 | deciding again at the same time changes neither choice nor memory |
| `Arbitration.GameYieldsUpwardsOnly` | src/relay.rs:2957-2963 | a present game selection stays if and only if nothing has strictly higher priority, and yields to that only |
| `Arbitration.SeenSinceIsStreak` | src/relay.rs:2909-2917 | in every run the recorded time is the start of a game source's unbroken presence |
| `Arbitration.TakeoverExact` | src/relay.rs:2964-2972 | with external sources present and no present game selection, the best game source shows if and only if it was present in every round for at least 500 ms |
| `Arbitration.SwitchNeedsPresence` | src/relay.rs:2964-2972 | a present external selection gives way only to a game source present that long |
| `Arbitration.NoDelayWithoutExternals` | src/relay.rs:2981-2982 | without external sources a game source shows without delay |
| `Arbitration.SettleOne` | src/relay.rs:2847-2872 | the best candidate, or the previous one within the threshold |
| `Arbitration.SourceSelections.Resolve` | src/relay.rs:2838-2882 | every object is settled by its own previous source, and the selection becomes exactly what is shown |
| `Arbitration.NewlySettledIsTop` | src/relay.rs:2847-2857 | a source newly chosen has top priority, is the latest of those, and among several has the smallest id |
| `Arbitration.SettledIsFresh` | src/relay.rs:2859-2872 | what is shown has top priority and is at most 350 ms older than the newest such report |
| `Arbitration.KeepsExactly` | src/relay.rs:2859-2872 | a source keeps an object if and only if nothing outranks it or is newer by more than 350 ms |
| `Arbitration.SettlingIsStable` | src/relay.rs:2838-2882 | the outcome is determined, and choosing again keeps it |
| `TabHistory.TabHistoryRoom.ReportPlayers` | src/tab_history.rs:120-240 | the transaction is the reference step: last report of each player, accepted rows, one new revision if any; the invariant holds |
| `TabHistory.TabHistoryRoom.AdminDelete` | src/tab_history.rs:437-495 | deletes exactly the entries there were, with one new revision if any |
| `TabHistory.TabHistoryRoom.CommitRows` | src/tab_history.rs:526-562 | rows, delta rows, head and digest of the next revision, and nothing else |
| `TabHistory.TabHistoryRoom.PurgeRoom` | src/admin.rs:1205-1224 | a purged room is a new room |
| `TabHistory.AdvanceKeepsExplanation` | src/tab_history.rs:120-240 | in every interleaving the deltas and digests recorded agree with the table at every revision |
| `TabHistory.TrimmingKeepsExplanation` | src/tab_history.rs:564-589 | dropping the oldest delta rows keeps that agreement |
| `TabHistory.ChangesAreRecorded` | src/tab_history.rs:146-237 | an accepted change advances the revision by one with a delta row for exactly the players that changed |
| `TabHistory.ReportTakesEffectExactly` | src/tab_history.rs:150-233 | a report changes an entry if and only if there is none, or it falls short of it neither in priority nor in label quality and brings another label or a due refresh |
| `TabHistory.ChangesForAReason` | src/tab_history.rs:168-193 | an entry changes for a new label or for a refresh after the interval, and its times say which |
| `TabHistory.NeverDegrades` | src/tab_history.rs:159-167 | over any run without its deletion an entry's source priority and label quality never decrease |
| `TabHistory.LabelsAreKept` | src/tab_history.rs:718-734 | over any run without its deletion an entry with a label of its own, neither blank nor its prefix, never loses it, and one with any label never goes blank |
| `TabHistory.EtagSpelled` | src/tab_history.rs:195 | an etag hashes the player and its two times, in this order |
| `TabHistory.ReportExact` | src/tab_history.rs:120-240 | one entry after a batch: the last report of its player counts if it has the priority, costs no label, and brings something new or a due refresh; it is then stored with the low 24 bits of its colour, its priority, its times and the next revision |
| `TabHistory.DigestExact` | src/tab_history.rs:526-562 | digests are equal if and only if the tables are, but for the revisions of their entries |
| `TabHistory.OldestAvailable` | src/tab_history.rs:564-589 | the revision before the oldest delta row kept, or the current one |
| `TabHistory.LatestLeadsOn` | src/tab_history.rs:304-333 | applying only the last row of each player equals applying all deltas in turn |
| `TabHistory.SameAfterDelta` | src/tab_history.rs:304-333 | a delta takes two tables to one if and only if they agree where it is silent |
| `TabHistory.TabHistoryRoom.Sync` | src/tab_history.rs:246-344 | a delta if and only if asked for and usable, otherwise the first reason that applies or the full table, which replaces whatever the client holds; a delta gives the full table if and only if the client agrees with the base table wherever the delta is silent, deletes only players that are gone, and from any table with the base's digest gives the head's digest |
| `TabHistory.DeltaSyncsAcrossRuns` | src/tab_history.rs:246-344 | a client that held the whole table gets a delta, with or without naming the digest, and holds the whole table again after any reports and deletions, with old deltas dropped as the oldest available revision allows |
| `TabHistory.LateRowsHeal` | src/tab_history.rs:246-344 | a client whose table is newer than the revision it was told is brought up to date by the next delta |
| `TabHistory.PurgeNeedsDigest` | src/tab_history.rs:262-289 | across a purge a base revision without digest can yield a wrong table, and with its digest is refused |
| `DatagramDict.DatagramDictEncoder.Observe` | src/door_control.rs:146-192 | samples, training and pending dictionary as the reference step; an offer if and only if training was due and succeeded |
| `DatagramDict.ObservedExact` | src/door_control.rs:146-192 | which samples are kept, when exactly the encoder trains, and what success and failure leave of the samples |
| `DatagramDict.OnlyDictSuitesTrain` | src/door_control.rs:146-150 | a connection without dictionaries neither collects nor trains |
| `DatagramDict.DatagramDictEncoder.Activate` | src/door_control.rs:198-204 | the pending dictionary becomes current and current previous; any other id changes nothing |
| `DatagramDict.DatagramDictEncoder.Encode` | src/door_control.rs:209-224 | only the current dictionary is ever used, and only with compression on |
| `DatagramDict.SamplesAreLatest` | src/door_control.rs:150-158 | what is kept is a suffix of all samples |
| `DatagramDict.SamplesStayBounded` | src/door_control.rs:155-158 | at most four times the threshold as long as no batch is larger |
| `DatagramDict.SamplesStayBoundedInRuns` | src/door_control.rs:150-158 | in every run fed with movement batches the production policy holds at most 256 samples |
| `DatagramDict.BarrierHolds` | src/quic_transport.rs:197-242 | in every interleaving the client holds the encoder's current dictionary, and the previous one until it installs the pending one, if answers come once or no offer is lost of another dictionary the client holds |
| `DatagramDict.OneOfferUnderWay` | src/quic_transport.rs:197-242 | at most one offer is under way if answers come once or no dictionary is offered that the client holds or is still answering |
| `DatagramDict.OfferingLeadsThere` | src/quic_transport.rs:197-209 | an offer can be answered before it arrives if and only if it breaks that condition |
| `DatagramDict.OfferingAgainPilesUp` | src/door_control.rs:195-204 | from every such state the run can go on until two offers are under way |
| `DatagramDict.LosingLeadsThere` | src/quic_transport.rs:199-209 | a lost offer leaves the encoder waiting for another dictionary the client holds if and only if it breaks the condition of the barrier |
| `DatagramDict.LosingAnotherIsFatal` | src/door_control.rs:195-204 | from every such state the run can go on until the encoder uses a dictionary the client has evicted |
| `DatagramDict.TrainingsAreSpaced` | src/door_control.rs:160-167 | trainings of a run are at least the minimum interval apart |
| `DatagramDict.LostOfferStalls` | src/quic_transport.rs:199-209 | after a lost offer of a dictionary of which there is no copy the encoder keeps its dictionary and never trains again |
| `DatagramDict.LostOfferMayHeal` | src/door_control.rs:195-204 | if there is a copy, the run can go on until the encoder has activated the dictionary |
| `DatagramDict.EveryLostOfferStalls` | src/quic_transport.rs:199-209 | with single answers every lost offer has that effect, whatever the dictionary |
| `DatagramDict.StaleAnswerBreaksTheBarrier` | src/door_control.rs:195-204 | a run from the start with one repeated answer and one lost offer in which the encoder uses a dictionary the client has evicted |
| `DatagramDict.RecurringOffersPileUp` | src/door_control.rs:195-204 | with a repeated answer and a recurring dictionary two offers can be under way |
| `Movement.Pack` | src/relay.rs:3240-3282 | a greedy packing of a prefix of the entries: every chunk fits or is single, none could take the next entry, at most seventeen chunks, and nothing left out with sixteen |
| `Movement.PackingExists` | src/relay.rs:3240-3282 | any entries have an unlimited greedy packing |
| `Movement.BatchIsTruncation` | src/relay.rs:3240-3265 | the batch is that packing, or its first sixteen chunks and the first entry of the next |
| `Movement.MovementBatch` | src/relay.rs:3240-3265 | the entries are the players in the order of their ids, each once and whole |
| `Movement.NobodyTwice` | src/relay.rs:3229-3239 | nobody is in two chunks, and with at most sixteen nobody is left out |
| `Movement.LimitExceededByOne` | src/relay.rs:57-59 | a roster of large entries yields seventeen chunks |
| `Movement.DatagramsConverge` | src/relay.rs:61-67 | any datagrams of the target, lost, repeated or reordered, keep a settled client settled and bring everyone they carry up to date |
| `Movement.BatchIsFromTarget` | src/relay.rs:3240-3265 | every chunk of a batch carries players of its target, each once and whole |
| `Movement.BatchConverges` | src/relay.rs:61-67 | so any chunks of a batch have that effect, and all of at most sixteen bring everyone up to date |
| `Frames.SplitFrameHeader` | src/frame.rs:36-57 | the loop's verdict is that of the declarative scan of the buffer |
| `Frames.VerdictExact` | src/frame.rs:36-57 | when exactly a buffer is complete, malformed or incomplete, said without its scan; four continuing bytes are still incomplete |
| `Frames.EncodeVarint` | src/frame.rs:63-78 | writes the varint into the header array within four bytes |
| `Frames.VarintRoundTrip` | src/frame.rs:36-78 | every written length is read back, whatever follows |
| `Frames.WriteFrame` | src/frame.rs:122-134 | refuses exactly the overlong payloads, else emits header and payload |
| `Frames.VerdictStable` | src/frame.rs:36-57 | complete and malformed verdicts do not change when bytes are added |
| `Frames.ReadFrames` | src/frame.rs:85-117 | for every split into reads the frames and the verdict are those of parsing in one piece, and the buffer stays below 8 MiB + 4 + 16 KiB |
| `Frames.StreamRoundTrip` | src/frame.rs:85-134 | reading concatenated frames delivers exactly the payloads, and the verdict is that of what follows |
| `Frames.StreamStops` | src/frame.rs:85-134 | the frame at which the callback stops is the last one delivered, whatever follows |
| `Frames.NonMinimalAccepted` | src/frame.rs:36-57 | a frame whose length is padded with any number of zero groups is accepted if and only if its header stays within four bytes |
| `Frames.AcceptedIsPadded` | src/frame.rs:36-57 | no other headers are accepted |

## Left out

- Liveness: a lost dictionary offer is never repeated and a frame forced full by a resync may be overwritten; only safety and conditional convergence are stated.
- Delivery.SnapshotConvergence: assumes that a frame is computed only with no `Delivered` event pending and that stripping is safe, because the code ensures neither and both can fail.
- Delivery.ClientConvergence: assumes the same; `Delivery.WriteExact` says for every write what holds without it.
- Delivery.BroadcastStep: writer timeouts and closed connections end the session and are not steps of the model.
- Snapshots.Agree: does not compare `server_time`, the constant `room_code` and the derived connection count.
- BattleIndex.Run: revisions and generations do not wrap at 2^64, and report times do not decrease.
- Positions.StrippedPatchSettles: does not claim that positions lag by at most one refresh period, because a refresh patch still omits players unchanged since the delivered snapshot.
- Movement.Pack: bounds the estimate of encoded sizes, not the bytes of the envelope.
- Movement.DatagramsConverge: covers datagrams of one target; those of earlier targets may arrive late and are not ordered against patches.
- Broadcast.BroadcastRoom: takes the room view of each audience as given; building it, and reusing it between recipients of one scope, is not part of the model.
- TabHistory.TabHistoryRoom.ReportPlayers: reports arrive sanitised, with normalised UUIDs; truncation and span merging of labels are not modelled.
- TabHistory.TabHistoryRoom.Sync: reads head, rows and deltas at one instant, while the source runs separate queries without a transaction, so a report between them yields rows newer than the announced head (`TabHistory.LateRowsHeal` shows that the next delta heals this); JSON and hexadecimal forms and the chunking of answers are not modelled.
- BattleDigest.ChunkDigest: says nothing about the order of lines of entries that name the same chunk twice.
- ProtocolEpochs.Negotiate: takes versions as parsed; the text parser is not modelled.
- PlayerFields.StorePlayer: only players are also modelled with named fields; entities, waypoints and marks are maps, cleared by the names of their optional fields.
- Inbound.ReceiveScope: replacing whole tables, tab players and battle observations in a report are not modelled.
- Battle observations: resolving relative chunks by overlap scores, the string and value interners and memory counters of the cache.
- Relationship datasets, bulk transfers, reservations, tactical marks and the administration interface.
- Wire encodings (protobuf, JSON views, zstd, SHA-1 and SHA-256 internals), number formatting and Unicode normalisation.
- Sockets, TLS, tokio tasks, SQL text and schema migration; each write transaction is one step.
