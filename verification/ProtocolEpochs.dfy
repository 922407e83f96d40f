/** Protocol versions, their negotiation, and the epochs between which the capabilities of a peer do not change. */
module ProtocolEpochs {
  import opened Prelude

  datatype Version = Version(major: nat, minor: nat, patch: nat)

  const CURRENT := Version(0, 9, 0)
  const MINIMUM := Version(0, 6, 1)

  predicate AtLeast(v: Version, w: Version) {
    if v.major != w.major then v.major > w.major
    else if v.minor != w.minor then v.minor > w.minor
    else v.patch >= w.patch
  }

  /** Versions are compared by major, then minor, then patch number. */
  lemma AtLeastExact(v: Version, w: Version)
    ensures AtLeast(v, w) <==>
            || v.major > w.major
            || (v.major == w.major && v.minor > w.minor)
            || (v.major == w.major && v.minor == w.minor && v.patch >= w.patch)
  {
  }

  /** The first version of each epoch. */
  const EPOCHS :=
    [Version(0, 6, 1), Version(0, 6, 2), Version(0, 6, 3), Version(0, 6, 4), Version(0, 6, 5), Version(0, 7, 0),
     Version(0, 7, 1), Version(0, 8, 0), Version(0, 8, 1)]

  type Epoch = e: nat | e < 9

  ghost predicate IsLatest(v: Version, e: Epoch) {
    (e == 0 || AtLeast(v, EPOCHS[e])) && forall j :: e < j < 9 ==> !AtLeast(v, EPOCHS[j])
  }

  function EpochFrom(v: Version, i: Epoch): (e: Epoch)
    ensures e <= i && (e == 0 || AtLeast(v, EPOCHS[e])) && forall j :: e < j <= i ==> !AtLeast(v, EPOCHS[j])
  {
    if i == 0 || AtLeast(v, EPOCHS[i]) then i else EpochFrom(v, i - 1)
  }

  /** The latest epoch that has begun; the first one for versions older than all. */
  function EpochOf(v: Version): (e: Epoch)
    ensures IsLatest(v, e)
  {
    EpochFrom(v, 8)
  }

  // ---------------------------------------------------------------- capabilities

  datatype Features = Features(
    chunkMode: bool, sourceRole: bool, lastSeen: bool, sourceMetadata: bool, clearFields: bool, tabHistory: bool,
    structuredDigest: bool, relationships: bool)

  function FeaturesOf(v: Version): (f: Features) {
    Features(
      AtLeast(v, Version(0, 6, 2)), AtLeast(v, Version(0, 6, 3)), AtLeast(v, Version(0, 6, 4)),
      AtLeast(v, Version(0, 6, 5)), AtLeast(v, Version(0, 6, 5)), AtLeast(v, Version(0, 7, 0)),
      AtLeast(v, Version(0, 7, 1)), AtLeast(v, Version(0, 8, 0)))
  }

  /** A version supports what the first version of its epoch supports: every threshold starts an epoch. */
  lemma EpochFixesFeatures(v: Version, w: Version)
    requires EpochOf(v) == EpochOf(w)
    ensures FeaturesOf(v) == FeaturesOf(w)
  {
  }

  // ---------------------------------------------------------------- compatibility rules

  datatype Rule =
    | OmitBattleChunkMode | DefaultPlayerRole | OmitLastSeenPlayers | OmitPlayerSourceMetadata
    | FullSnapshotForClearFields | DisableTabHistory | LegacyBattleChunkDigest

  function IntroducedIn(r: Rule): (v: Version) {
    match r
    case OmitBattleChunkMode => Version(0, 6, 2)
    case DefaultPlayerRole => Version(0, 6, 3)
    case OmitLastSeenPlayers => Version(0, 6, 4)
    case OmitPlayerSourceMetadata => Version(0, 6, 5)
    case FullSnapshotForClearFields => Version(0, 6, 5)
    case DisableTabHistory => Version(0, 7, 0)
    case LegacyBattleChunkDigest => Version(0, 7, 1)
  }

  predicate Active(r: Rule, v: Version) {
    !AtLeast(v, IntroducedIn(r))
  }

  /** A rule is active exactly for the peers that lack its feature. */
  lemma RulesMirrorFeatures(v: Version)
    ensures var f := FeaturesOf(v);
            && Active(OmitBattleChunkMode, v) == !f.chunkMode && Active(DefaultPlayerRole, v) == !f.sourceRole
            && Active(OmitLastSeenPlayers, v) == !f.lastSeen && Active(OmitPlayerSourceMetadata, v) == !f.sourceMetadata
            && Active(FullSnapshotForClearFields, v) == !f.clearFields && Active(DisableTabHistory, v) == !f.tabHistory
            && Active(LegacyBattleChunkDigest, v) == !f.structuredDigest
  {
  }

  // ---------------------------------------------------------------- negotiation

  datatype NegotiationError = InvalidProtocolVersion | ClientProtocolTooOld | ServerProtocolTooOld

  datatype Negotiation = Accepted(negotiated: Version, epoch: Epoch) | Rejected(error: NegotiationError)

  /** Both peers speak the version. */
  predicate Common(peerCurrent: Version, peerMinimum: Version, v: Version) {
    AtLeast(v, MINIMUM) && AtLeast(CURRENT, v) && AtLeast(v, peerMinimum) && AtLeast(peerCurrent, v)
  }

  /**
   Peers whose version texts do not parse are passed as None. A peer is accepted exactly if there is a version both
   speak, and gets the newest such version; otherwise the side that is too old is named.
   */
  method Negotiate(peerCurrent: Option<Version>, peerMinimum: Option<Version>) returns (r: Negotiation)
    ensures r.Accepted? <==> peerCurrent.Some? && peerMinimum.Some?
                             && exists v :: Common(peerCurrent.value, peerMinimum.value, v)
    ensures r.Accepted? ==>
              Common(peerCurrent.value, peerMinimum.value, r.negotiated) && r.epoch == EpochOf(r.negotiated)
    ensures r.Accepted? ==>
              forall v :: Common(peerCurrent.value, peerMinimum.value, v) ==> AtLeast(r.negotiated, v)
    ensures r == Rejected(InvalidProtocolVersion) <==>
            peerCurrent.None? || peerMinimum.None? || !AtLeast(peerCurrent.value, peerMinimum.value)
    ensures r == Rejected(ClientProtocolTooOld) ==> !AtLeast(peerCurrent.value, MINIMUM)
    ensures r == Rejected(ServerProtocolTooOld) ==> !AtLeast(CURRENT, peerMinimum.value)
  {
    if peerCurrent.None? || peerMinimum.None? || !AtLeast(peerCurrent.value, peerMinimum.value) {
      return Rejected(InvalidProtocolVersion);
    }
    if !AtLeast(peerCurrent.value, MINIMUM) {
      return Rejected(ClientProtocolTooOld);
    }
    if !AtLeast(CURRENT, peerMinimum.value) {
      return Rejected(ServerProtocolTooOld);
    }
    var negotiated := if AtLeast(CURRENT, peerCurrent.value) then peerCurrent.value else CURRENT;
    assert Common(peerCurrent.value, peerMinimum.value, negotiated);
    r := Accepted(negotiated, EpochOf(negotiated));
  }
}
