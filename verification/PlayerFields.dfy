/**
 Players as the relay keeps them, with one named field per wire field, and the four hand-written lists of those fields:
 what a delta carries, what a delta overwrites, which names are reported as cleared, and what a name clears. Read as
 maps from field names to values they do what the rest of the model takes them to do.
 */
module PlayerFields {
  import opened Prelude
  import opened Records
  import opened Snapshots
  import opened Inbound

  datatype PlayerData = PlayerData(
    x: real, y: real, z: real, dimension: string, vx: Option<real>, vy: Option<real>, vz: Option<real>,
    playerName: Option<string>, playerUUID: Option<string>, health: Option<real>, maxHealth: Option<real>,
    armor: Option<real>, isRiding: Option<bool>, width: Option<real>, height: Option<real>,
    positionSourceId: Option<string>, positionSourceKind: Option<int>, positionSourceDisplayName: Option<string>,
    positionResolution: Option<int>)

  datatype PlayerDelta = PlayerDelta(
    x: Option<real>, y: Option<real>, z: Option<real>, dimension: Option<string>, vx: Option<real>,
    vy: Option<real>, vz: Option<real>, playerName: Option<string>, playerUUID: Option<string>,
    health: Option<real>, maxHealth: Option<real>, armor: Option<real>, isRiding: Option<bool>,
    width: Option<real>, height: Option<real>, positionSourceId: Option<string>, positionSourceKind: Option<int>,
    positionSourceDisplayName: Option<string>, positionResolution: Option<int>)

  // ---------------------------------------------------------------- reading by name

  function Num(v: Option<real>): (r: Option<Scalar>) {
    if v.Some? then Some(Number(v.value)) else None
  }

  function Int(v: Option<int>): (r: Option<Scalar>) {
    if v.Some? then Some(Integer(v.value)) else None
  }

  function Txt(v: Option<string>): (r: Option<Scalar>) {
    if v.Some? then Some(Text(v.value)) else None
  }

  function Flg(v: Option<bool>): (r: Option<Scalar>) {
    if v.Some? then Some(Flag(v.value)) else None
  }

  function FieldOf(p: PlayerData, name: string): (r: Option<Scalar>) {
    match name
    case "x" => Some(Number(p.x))
    case "y" => Some(Number(p.y))
    case "z" => Some(Number(p.z))
    case "dimension" => Some(Text(p.dimension))
    case "vx" => Num(p.vx)
    case "vy" => Num(p.vy)
    case "vz" => Num(p.vz)
    case "playerName" => Txt(p.playerName)
    case "playerUUID" => Txt(p.playerUUID)
    case "health" => Num(p.health)
    case "maxHealth" => Num(p.maxHealth)
    case "armor" => Num(p.armor)
    case "isRiding" => Flg(p.isRiding)
    case "width" => Num(p.width)
    case "height" => Num(p.height)
    case "positionSourceId" => Txt(p.positionSourceId)
    case "positionSourceKind" => Int(p.positionSourceKind)
    case "positionSourceDisplayName" => Txt(p.positionSourceDisplayName)
    case "positionResolution" => Int(p.positionResolution)
    case _ => None
  }

  function CarriedBy(d: PlayerDelta, name: string): (r: Option<Scalar>) {
    match name
    case "x" => Num(d.x)
    case "y" => Num(d.y)
    case "z" => Num(d.z)
    case "dimension" => Txt(d.dimension)
    case "vx" => Num(d.vx)
    case "vy" => Num(d.vy)
    case "vz" => Num(d.vz)
    case "playerName" => Txt(d.playerName)
    case "playerUUID" => Txt(d.playerUUID)
    case "health" => Num(d.health)
    case "maxHealth" => Num(d.maxHealth)
    case "armor" => Num(d.armor)
    case "isRiding" => Flg(d.isRiding)
    case "width" => Num(d.width)
    case "height" => Num(d.height)
    case "positionSourceId" => Txt(d.positionSourceId)
    case "positionSourceKind" => Int(d.positionSourceKind)
    case "positionSourceDisplayName" => Txt(d.positionSourceDisplayName)
    case "positionResolution" => Int(d.positionResolution)
    case _ => None
  }

  const PLAYER_FIELDS := PLAYER_REQUIRED + PLAYER_OPTIONAL

  const MOTION_NAMES := ["vx", "vy", "vz", "playerName", "playerUUID"]
  const BODY_NAMES := ["health", "maxHealth", "armor", "isRiding", "width", "height"]
  const SOURCE_NAMES :=
    ["positionSourceId", "positionSourceKind", "positionSourceDisplayName", "positionResolution"]

  function ToRecord(p: PlayerData): (r: Record) {
    map f | f in PLAYER_FIELDS && FieldOf(p, f).Some? :: FieldOf(p, f).value
  }

  function DeltaToRecord(d: PlayerDelta): (r: Record) {
    map f | f in PLAYER_FIELDS && CarriedBy(d, f).Some? :: CarriedBy(d, f).value
  }

  lemma OnlyPlayerFields(p: PlayerData, f: string)
    ensures FieldOf(p, f).Some? ==> f in PLAYER_FIELDS
    ensures f in PLAYER_REQUIRED ==> FieldOf(p, f).Some?
  {
  }

  lemma OnlyPlayerDeltas(d: PlayerDelta, f: string)
    ensures CarriedBy(d, f).Some? ==> f in PLAYER_FIELDS
  {
  }

  lemma ReadByName(p: PlayerData)
    ensures forall f :: Lookup(ToRecord(p), f) == FieldOf(p, f)
  {
    hide FieldOf;
    forall f
      ensures Lookup(ToRecord(p), f) == FieldOf(p, f)
    {
      OnlyPlayerFields(p, f);
    }
  }

  lemma DeltaByName(d: PlayerDelta)
    ensures forall f :: Lookup(DeltaToRecord(d), f) == CarriedBy(d, f)
  {
    hide CarriedBy;
    forall f
      ensures Lookup(DeltaToRecord(d), f) == CarriedBy(d, f)
    {
      OnlyPlayerDeltas(d, f);
    }
  }

  function RecordsOf(players: map<string, PlayerData>): (t: Table<string>) {
    map k | k in players :: ToRecord(players[k])
  }

  /** Every player has the required fields and no unknown ones. */
  lemma PlayersConform(players: map<string, PlayerData>)
    ensures Conforms(RecordsOf(players), PLAYER_REQUIRED, PLAYER_OPTIONAL)
  {
    hide ToRecord, FieldOf;
    forall k, f | k in players
      ensures f in PLAYER_REQUIRED ==> f in ToRecord(players[k])
      ensures f in ToRecord(players[k]) ==> f in PLAYER_FIELDS
    {
      ReadByName(players[k]);
      OnlyPlayerFields(players[k], f);
      assert Lookup(ToRecord(players[k]), f) == FieldOf(players[k], f);
    }
  }

  ghost predicate ReadAlike(p: PlayerData, q: PlayerData) {
    forall f :: FieldOf(p, f) == FieldOf(q, f)
  }

  lemma SameMotion(p: PlayerData, q: PlayerData)
    requires ReadAlike(p, q)
    ensures p.x == q.x && p.y == q.y && p.z == q.z && p.dimension == q.dimension && p.vx == q.vx && p.vy == q.vy
            && p.vz == q.vz
  {
    assert FieldOf(p, "x") == FieldOf(q, "x");
    assert FieldOf(p, "y") == FieldOf(q, "y");
    assert FieldOf(p, "z") == FieldOf(q, "z");
    assert FieldOf(p, "dimension") == FieldOf(q, "dimension");
    assert FieldOf(p, "vx") == FieldOf(q, "vx");
    assert FieldOf(p, "vy") == FieldOf(q, "vy");
    assert FieldOf(p, "vz") == FieldOf(q, "vz");
  }

  lemma SameBody(p: PlayerData, q: PlayerData)
    requires ReadAlike(p, q)
    ensures p.playerName == q.playerName && p.playerUUID == q.playerUUID && p.health == q.health
            && p.maxHealth == q.maxHealth && p.armor == q.armor && p.isRiding == q.isRiding
  {
    assert FieldOf(p, "playerName") == FieldOf(q, "playerName");
    assert FieldOf(p, "playerUUID") == FieldOf(q, "playerUUID");
    assert FieldOf(p, "health") == FieldOf(q, "health");
    assert FieldOf(p, "maxHealth") == FieldOf(q, "maxHealth");
    assert FieldOf(p, "armor") == FieldOf(q, "armor");
    assert FieldOf(p, "isRiding") == FieldOf(q, "isRiding");
  }

  lemma SameExtent(p: PlayerData, q: PlayerData)
    requires ReadAlike(p, q)
    ensures p.width == q.width && p.height == q.height && p.positionSourceId == q.positionSourceId
  {
    assert FieldOf(p, "width") == FieldOf(q, "width");
    assert FieldOf(p, "height") == FieldOf(q, "height");
    assert FieldOf(p, "positionSourceId") == FieldOf(q, "positionSourceId");
  }

  lemma SameSource(p: PlayerData, q: PlayerData)
    requires ReadAlike(p, q)
    ensures p.positionSourceKind == q.positionSourceKind && p.positionResolution == q.positionResolution
            && p.positionSourceDisplayName == q.positionSourceDisplayName
  {
    assert FieldOf(p, "positionSourceKind") == FieldOf(q, "positionSourceKind");
    assert FieldOf(p, "positionSourceDisplayName") == FieldOf(q, "positionSourceDisplayName");
    assert FieldOf(p, "positionResolution") == FieldOf(q, "positionResolution");
  }

  /** No two players read alike. */
  lemma SameRecordSamePlayer(p: PlayerData, q: PlayerData)
    requires ToRecord(p) == ToRecord(q)
    ensures p == q
  {
    hide ToRecord, FieldOf;
    ReadByName(p);
    ReadByName(q);
    assert forall f :: FieldOf(p, f) == Lookup(ToRecord(p), f) == FieldOf(q, f);
    SameMotion(p, q);
    SameBody(p, q);
    SameExtent(p, q);
    SameSource(p, q);
  }

  // ---------------------------------------------------------------- the four lists

  function PlayerDeltaOf(p: PlayerData): (d: PlayerDelta) {
    PlayerDelta(Some(p.x), Some(p.y), Some(p.z), Some(p.dimension), p.vx, p.vy, p.vz, p.playerName, p.playerUUID,
      p.health, p.maxHealth, p.armor, p.isRiding, p.width, p.height, p.positionSourceId, p.positionSourceKind,
      p.positionSourceDisplayName, p.positionResolution)
  }

  function OrElse<T>(v: Option<T>, other: T): (r: T) {
    if v.Some? then v.value else other
  }

  function OrKept<T>(v: Option<T>, kept: Option<T>): (r: Option<T>) {
    if v.Some? then v else kept
  }

  function ApplyPlayerDelta(p: PlayerData, d: PlayerDelta): (r: PlayerData) {
    PlayerData(OrElse(d.x, p.x), OrElse(d.y, p.y), OrElse(d.z, p.z), OrElse(d.dimension, p.dimension),
      OrKept(d.vx, p.vx), OrKept(d.vy, p.vy), OrKept(d.vz, p.vz), OrKept(d.playerName, p.playerName),
      OrKept(d.playerUUID, p.playerUUID), OrKept(d.health, p.health), OrKept(d.maxHealth, p.maxHealth),
      OrKept(d.armor, p.armor), OrKept(d.isRiding, p.isRiding), OrKept(d.width, p.width),
      OrKept(d.height, p.height), OrKept(d.positionSourceId, p.positionSourceId),
      OrKept(d.positionSourceKind, p.positionSourceKind),
      OrKept(d.positionSourceDisplayName, p.positionSourceDisplayName),
      OrKept(d.positionResolution, p.positionResolution))
  }

  function ClearedIf<T>(before: Option<T>, after: Option<T>, name: string): (r: seq<string>) {
    if before.Some? && after.None? then [name] else []
  }

  function PlayerClearedFields(before: PlayerData, after: PlayerData): (r: seq<string>) {
    ClearedIf(before.vx, after.vx, "vx")
    + ClearedIf(before.vy, after.vy, "vy")
    + ClearedIf(before.vz, after.vz, "vz")
    + ClearedIf(before.playerName, after.playerName, "playerName")
    + ClearedIf(before.playerUUID, after.playerUUID, "playerUUID")
    + ClearedIf(before.health, after.health, "health")
    + ClearedIf(before.maxHealth, after.maxHealth, "maxHealth")
    + ClearedIf(before.armor, after.armor, "armor")
    + ClearedIf(before.isRiding, after.isRiding, "isRiding")
    + ClearedIf(before.width, after.width, "width")
    + ClearedIf(before.height, after.height, "height")
    + ClearedIf(before.positionSourceId, after.positionSourceId, "positionSourceId")
    + ClearedIf(before.positionSourceKind, after.positionSourceKind, "positionSourceKind")
    + ClearedIf(before.positionSourceDisplayName, after.positionSourceDisplayName, "positionSourceDisplayName")
    + ClearedIf(before.positionResolution, after.positionResolution, "positionResolution")
  }

  function ClearField(p: PlayerData, name: string): (r: PlayerData) {
    match name
    case "vx" => p.(vx := None)
    case "vy" => p.(vy := None)
    case "vz" => p.(vz := None)
    case "playerName" => p.(playerName := None)
    case "playerUuid" | "playerUUID" => p.(playerUUID := None)
    case "health" => p.(health := None)
    case "maxHealth" => p.(maxHealth := None)
    case "armor" => p.(armor := None)
    case "isRiding" => p.(isRiding := None)
    case "width" => p.(width := None)
    case "height" => p.(height := None)
    case "positionSourceId" => p.(positionSourceId := None)
    case "positionSourceKind" => p.(positionSourceKind := None)
    case "positionSourceDisplayName" => p.(positionSourceDisplayName := None)
    case "positionResolution" => p.(positionResolution := None)
    case _ => p
  }

  function ClearPlayer(p: PlayerData, names: seq<string>): (r: PlayerData) {
    if names == [] then p else ClearField(ClearPlayer(p, names[..|names| - 1]), names[|names| - 1])
  }

  method ClearPlayerFields(p: PlayerData, names: seq<string>) returns (r: PlayerData)
    ensures r == ClearPlayer(p, names)
  {
    hide ClearField;
    r := p;
    for i := 0 to |names|
      invariant r == ClearPlayer(p, names[..i])
    {
      assert names[..i + 1][..i] == names[..i];
      r := ClearField(r, names[i]);
    }
    assert names[..|names|] == names;
  }

  function NormalizePlayer(p: PlayerData): (r: PlayerData) {
    p.(vx := Some(OrElse(p.vx, 0.0)), vy := Some(OrElse(p.vy, 0.0)), vz := Some(OrElse(p.vz, 0.0)),
       health := Some(OrElse(p.health, 0.0)), maxHealth := Some(OrElse(p.maxHealth, 20.0)),
       armor := Some(OrElse(p.armor, 0.0)), isRiding := Some(OrElse(p.isRiding, false)),
       width := Some(OrElse(p.width, 0.6)), height := Some(OrElse(p.height, 1.8)))
  }

  const DEFAULT_PLAYER :=
    PlayerData(0.0, 0.0, 0.0, "", None, None, None, None, None, None, None, None, None, None, None, None, None,
      None, None)

  /** Every optional field is cleared by its own name, and the identifier by a second spelling. */
  const PLAYER_CLEARING: Clearing := (map f | f in PLAYER_OPTIONAL :: f)["playerUuid" := "playerUUID"]

  const PLAYER_FILL: Record :=
    map["vx" := Number(0.0), "vy" := Number(0.0), "vz" := Number(0.0), "health" := Number(0.0),
        "maxHealth" := Number(20.0), "armor" := Number(0.0), "isRiding" := Flag(false), "width" := Number(0.6),
        "height" := Number(1.8)]

  function PlayerKind(): (k: Kind) {
    Kind(ToRecord(DEFAULT_PLAYER), PLAYER_CLEARING, PLAYER_FILL)
  }

  // ---------------------------------------------------------------- field by field

  /** The field that a name clears, if any. */
  function ClearedBy(name: string): (f: Option<string>) {
    if name in PLAYER_OPTIONAL then Some(name) else if name == "playerUuid" then Some("playerUUID") else None
  }

  lemma ClearingAt(name: string)
    ensures Lookup(PLAYER_CLEARING, name) == ClearedBy(name)
  {
    assert "playerUuid" !in PLAYER_OPTIONAL;
  }

  lemma ClearMotion(p: PlayerData, name: string, f: string)
    requires name in MOTION_NAMES
    ensures FieldOf(ClearField(p, name), f) == if f == name then None else FieldOf(p, f)
  {
  }

  lemma ClearBody(p: PlayerData, name: string, f: string)
    requires name in BODY_NAMES
    ensures FieldOf(ClearField(p, name), f) == if f == name then None else FieldOf(p, f)
  {
  }

  lemma ClearSource(p: PlayerData, name: string, f: string)
    requires name in SOURCE_NAMES
    ensures FieldOf(ClearField(p, name), f) == if f == name then None else FieldOf(p, f)
  {
  }

  lemma ClearOther(p: PlayerData, name: string, f: string)
    requires name !in PLAYER_OPTIONAL
    ensures FieldOf(ClearField(p, name), f) == if name == "playerUuid" && f == "playerUUID" then None else FieldOf(p, f)
  {
  }

  lemma ClearFieldAt(p: PlayerData, name: string, f: string)
    ensures FieldOf(ClearField(p, name), f) == if Lookup(PLAYER_CLEARING, name) == Some(f) then None else FieldOf(p, f)
  {
    hide FieldOf, ClearField;
    ClearingAt(name);
    if name in MOTION_NAMES {
      ClearMotion(p, name, f);
    } else if name in BODY_NAMES {
      ClearBody(p, name, f);
    } else if name in PLAYER_OPTIONAL {
      ClearSource(p, name, f);
    } else {
      ClearOther(p, name, f);
    }
  }

  lemma ApplyAt(p: PlayerData, d: PlayerDelta, f: string)
    ensures FieldOf(ApplyPlayerDelta(p, d), f) == if CarriedBy(d, f).Some? then CarriedBy(d, f) else FieldOf(p, f)
  {
    match f
    case "x" =>
    case "y" =>
    case "z" =>
    case "dimension" =>
    case "vx" =>
    case "vy" =>
    case "vz" =>
    case "playerName" =>
    case "playerUUID" =>
    case "health" =>
    case "maxHealth" =>
    case "armor" =>
    case "isRiding" =>
    case "width" =>
    case "height" =>
    case "positionSourceId" =>
    case "positionSourceKind" =>
    case "positionSourceDisplayName" =>
    case "positionResolution" =>
    case _ =>
  }

  lemma DeltaAt(p: PlayerData, f: string)
    ensures CarriedBy(PlayerDeltaOf(p), f) == FieldOf(p, f)
  {
  }

  lemma NormalizeAt(p: PlayerData, f: string)
    ensures FieldOf(NormalizePlayer(p), f)
            == if FieldOf(p, f).Some? then FieldOf(p, f) else Lookup(PLAYER_FILL, f)
  {
  }

  // ---------------------------------------------------------------- the lists agree with each other

  lemma {:induction false} ClearPlayerExact(p: PlayerData, names: seq<string>)
    ensures ToRecord(ClearPlayer(p, names)) == ToRecord(p) - NamedFields(PLAYER_CLEARING, names)
    decreases |names|
  {
    hide FieldOf, ClearField, ToRecord;
    ReadByName(p);
    ReadByName(ClearPlayer(p, names));
    if names != [] {
      var n := |names| - 1;
      var rest := ClearPlayer(p, names[..n]);
      ClearPlayerExact(p, names[..n]);
      ReadByName(rest);
      assert names == names[..n] + [names[n]];
      forall f
        ensures FieldOf(ClearPlayer(p, names), f)
                == if f in NamedFields(PLAYER_CLEARING, names) then None else FieldOf(p, f)
      {
        ClearFieldAt(rest, names[n], f);
        assert FieldOf(rest, f) == Lookup(ToRecord(rest), f);
      }
    }
    SameLookups(ToRecord(ClearPlayer(p, names)), ToRecord(p) - NamedFields(PLAYER_CLEARING, names));
  }

  lemma ApplyPlayerExact(p: PlayerData, d: PlayerDelta)
    ensures ToRecord(ApplyPlayerDelta(p, d)) == ApplyDelta(ToRecord(p), DeltaToRecord(d))
  {
    hide FieldOf, CarriedBy, ApplyPlayerDelta, ToRecord, DeltaToRecord;
    ReadByName(p);
    DeltaByName(d);
    ReadByName(ApplyPlayerDelta(p, d));
    forall f
      ensures Lookup(ToRecord(ApplyPlayerDelta(p, d)), f) == Lookup(ApplyDelta(ToRecord(p), DeltaToRecord(d)), f)
    {
      ApplyAt(p, d, f);
    }
    SameLookups(ToRecord(ApplyPlayerDelta(p, d)), ApplyDelta(ToRecord(p), DeltaToRecord(d)));
  }

  /** A delta carries the whole player. */
  lemma DeltaExact(p: PlayerData)
    ensures DeltaToRecord(PlayerDeltaOf(p)) == ToRecord(p)
  {
    hide FieldOf, CarriedBy, PlayerDeltaOf, ToRecord, DeltaToRecord;
    ReadByName(p);
    DeltaByName(PlayerDeltaOf(p));
    forall f
      ensures Lookup(DeltaToRecord(PlayerDeltaOf(p)), f) == Lookup(ToRecord(p), f)
    {
      DeltaAt(p, f);
    }
    SameLookups(DeltaToRecord(PlayerDeltaOf(p)), ToRecord(p));
  }

  function Dropped(name: string, before: Record, after: Record): (r: seq<string>) {
    if name in before && name !in after then [name] else []
  }

  lemma ClearedHead(names: seq<string>, before: Record, after: Record)
    requires names != []
    ensures ClearedFields(names, before, after)
            == Dropped(names[0], before, after) + ClearedFields(names[1..], before, after)
  {
  }

  lemma {:induction false} ClearedSnoc(names: seq<string>, name: string, before: Record, after: Record)
    ensures ClearedFields(names + [name], before, after)
            == ClearedFields(names, before, after) + Dropped(name, before, after)
  {
    hide ClearedFields, Dropped;
    var all := names + [name];
    ClearedHead(all, before, after);
    NothingCleared(before, after);
    if names == [] {
      assert all == [name] && all[1..] == [];
    } else {
      ClearedHead(names, before, after);
      ClearedSnoc(names[1..], name, before, after);
      assert all[0] == names[0] && all[1..] == names[1..] + [name];
    }
  }

  lemma NothingCleared(before: Record, after: Record)
    ensures ClearedFields([], before, after) == []
  {
  }

  lemma MotionPresent(p: PlayerData)
    ensures "vx" in ToRecord(p) <==> p.vx.Some?
    ensures "vy" in ToRecord(p) <==> p.vy.Some?
    ensures "vz" in ToRecord(p) <==> p.vz.Some?
    ensures "playerName" in ToRecord(p) <==> p.playerName.Some?
    ensures "playerUUID" in ToRecord(p) <==> p.playerUUID.Some?
  {
    hide ToRecord;
    ReadByName(p);
    assert Lookup(ToRecord(p), "vx") == FieldOf(p, "vx");
    assert Lookup(ToRecord(p), "vy") == FieldOf(p, "vy");
    assert Lookup(ToRecord(p), "vz") == FieldOf(p, "vz");
    assert Lookup(ToRecord(p), "playerName") == FieldOf(p, "playerName");
    assert Lookup(ToRecord(p), "playerUUID") == FieldOf(p, "playerUUID");
  }

  lemma BodyPresent(p: PlayerData)
    ensures "health" in ToRecord(p) <==> p.health.Some?
    ensures "maxHealth" in ToRecord(p) <==> p.maxHealth.Some?
    ensures "armor" in ToRecord(p) <==> p.armor.Some?
    ensures "isRiding" in ToRecord(p) <==> p.isRiding.Some?
    ensures "width" in ToRecord(p) <==> p.width.Some?
    ensures "height" in ToRecord(p) <==> p.height.Some?
  {
    hide ToRecord;
    ReadByName(p);
    assert Lookup(ToRecord(p), "health") == FieldOf(p, "health");
    assert Lookup(ToRecord(p), "maxHealth") == FieldOf(p, "maxHealth");
    assert Lookup(ToRecord(p), "armor") == FieldOf(p, "armor");
    assert Lookup(ToRecord(p), "isRiding") == FieldOf(p, "isRiding");
    assert Lookup(ToRecord(p), "width") == FieldOf(p, "width");
    assert Lookup(ToRecord(p), "height") == FieldOf(p, "height");
  }

  lemma SourcePresent(p: PlayerData)
    ensures "positionSourceId" in ToRecord(p) <==> p.positionSourceId.Some?
    ensures "positionSourceKind" in ToRecord(p) <==> p.positionSourceKind.Some?
    ensures "positionSourceDisplayName" in ToRecord(p) <==> p.positionSourceDisplayName.Some?
    ensures "positionResolution" in ToRecord(p) <==> p.positionResolution.Some?
  {
    hide ToRecord;
    ReadByName(p);
    assert Lookup(ToRecord(p), "positionSourceId") == FieldOf(p, "positionSourceId");
    assert Lookup(ToRecord(p), "positionSourceKind") == FieldOf(p, "positionSourceKind");
    assert Lookup(ToRecord(p), "positionSourceDisplayName") == FieldOf(p, "positionSourceDisplayName");
    assert Lookup(ToRecord(p), "positionResolution") == FieldOf(p, "positionResolution");
  }

  lemma ClearedMotion(before: PlayerData, after: PlayerData)
    ensures ClearedFields(MOTION_NAMES, ToRecord(before), ToRecord(after))
            == ClearedIf(before.vx, after.vx, "vx")
               + ClearedIf(before.vy, after.vy, "vy")
               + ClearedIf(before.vz, after.vz, "vz")
               + ClearedIf(before.playerName, after.playerName, "playerName")
               + ClearedIf(before.playerUUID, after.playerUUID, "playerUUID")
  {
    hide ToRecord, ClearedFields;
    var b, a := ToRecord(before), ToRecord(after);
    MotionPresent(before);
    MotionPresent(after);
    NothingCleared(b, a);
    var l0 := ["vx"];
    ClearedSnoc([], "vx", b, a);
    assert [] + ["vx"] == l0;
    var l1 := l0 + ["vy"];
    ClearedSnoc(l0, "vy", b, a);
    var l2 := l1 + ["vz"];
    ClearedSnoc(l1, "vz", b, a);
    var l3 := l2 + ["playerName"];
    ClearedSnoc(l2, "playerName", b, a);
    var l4 := l3 + ["playerUUID"];
    ClearedSnoc(l3, "playerUUID", b, a);
    assert MOTION_NAMES == l4;
  }

  lemma ClearedBody(before: PlayerData, after: PlayerData)
    ensures ClearedFields(MOTION_NAMES + BODY_NAMES, ToRecord(before), ToRecord(after))
            == ClearedFields(MOTION_NAMES, ToRecord(before), ToRecord(after))
               + ClearedIf(before.health, after.health, "health")
               + ClearedIf(before.maxHealth, after.maxHealth, "maxHealth")
               + ClearedIf(before.armor, after.armor, "armor")
               + ClearedIf(before.isRiding, after.isRiding, "isRiding")
               + ClearedIf(before.width, after.width, "width")
               + ClearedIf(before.height, after.height, "height")
  {
    hide ToRecord, ClearedFields;
    var b, a := ToRecord(before), ToRecord(after);
    BodyPresent(before);
    BodyPresent(after);
    var l0 := MOTION_NAMES + ["health"];
    ClearedSnoc(MOTION_NAMES, "health", b, a);
    var l1 := l0 + ["maxHealth"];
    ClearedSnoc(l0, "maxHealth", b, a);
    var l2 := l1 + ["armor"];
    ClearedSnoc(l1, "armor", b, a);
    var l3 := l2 + ["isRiding"];
    ClearedSnoc(l2, "isRiding", b, a);
    var l4 := l3 + ["width"];
    ClearedSnoc(l3, "width", b, a);
    var l5 := l4 + ["height"];
    ClearedSnoc(l4, "height", b, a);
    assert MOTION_NAMES + BODY_NAMES == l5;
  }

  lemma ClearedSource(before: PlayerData, after: PlayerData)
    ensures ClearedFields(MOTION_NAMES + BODY_NAMES + SOURCE_NAMES, ToRecord(before), ToRecord(after))
            == ClearedFields(MOTION_NAMES + BODY_NAMES, ToRecord(before), ToRecord(after))
               + ClearedIf(before.positionSourceId, after.positionSourceId, "positionSourceId")
               + ClearedIf(before.positionSourceKind, after.positionSourceKind, "positionSourceKind")
               + ClearedIf(before.positionSourceDisplayName, after.positionSourceDisplayName,
                           "positionSourceDisplayName")
               + ClearedIf(before.positionResolution, after.positionResolution, "positionResolution")
  {
    hide ToRecord, ClearedFields;
    var b, a := ToRecord(before), ToRecord(after);
    SourcePresent(before);
    SourcePresent(after);
    var l0 := MOTION_NAMES + BODY_NAMES + ["positionSourceId"];
    ClearedSnoc(MOTION_NAMES + BODY_NAMES, "positionSourceId", b, a);
    var l1 := l0 + ["positionSourceKind"];
    ClearedSnoc(l0, "positionSourceKind", b, a);
    var l2 := l1 + ["positionSourceDisplayName"];
    ClearedSnoc(l1, "positionSourceDisplayName", b, a);
    var l3 := l2 + ["positionResolution"];
    ClearedSnoc(l2, "positionResolution", b, a);
    assert MOTION_NAMES + BODY_NAMES + SOURCE_NAMES == l3;
  }

  /** The names reported as cleared are the optional fields that disappear. */
  lemma ClearedExact(before: PlayerData, after: PlayerData)
    ensures PlayerClearedFields(before, after) == ClearedFields(PLAYER_OPTIONAL, ToRecord(before), ToRecord(after))
  {
    hide ToRecord, ClearedFields, ClearedIf;
    ClearedMotion(before, after);
    ClearedBody(before, after);
    ClearedSource(before, after);
    assert PLAYER_OPTIONAL == MOTION_NAMES + BODY_NAMES + SOURCE_NAMES;
  }

  lemma NormalizeExact(p: PlayerData)
    ensures ToRecord(NormalizePlayer(p)) == PLAYER_FILL + ToRecord(p)
  {
    hide FieldOf, NormalizePlayer, ToRecord;
    ReadByName(p);
    ReadByName(NormalizePlayer(p));
    forall f
      ensures Lookup(ToRecord(NormalizePlayer(p)), f) == Lookup(PLAYER_FILL + ToRecord(p), f)
    {
      NormalizeAt(p, f);
    }
    SameLookups(ToRecord(NormalizePlayer(p)), PLAYER_FILL + ToRecord(p));
  }

  // ---------------------------------------------------------------- what the lists achieve together

  /** Clearing what is reported as cleared and applying the delta turns any player into any other. */
  lemma PlayerRoundTrip(before: PlayerData, after: PlayerData)
    ensures ApplyPlayerDelta(ClearPlayer(before, PlayerClearedFields(before, after)), PlayerDeltaOf(after)) == after
  {
    hide ToRecord, DeltaToRecord, FieldOf, ApplyPlayerDelta, PlayerDeltaOf, PlayerClearedFields, ClearPlayer;
    var names := PlayerClearedFields(before, after);
    var cleared := ClearPlayer(before, names);
    var b, a := ToRecord(before), ToRecord(after);
    ClearedExact(before, after);
    ClearPlayerExact(before, names);
    NamesClearThemselves();
    NamedIsCleared(PLAYER_CLEARING, PLAYER_OPTIONAL, b, b, a);
    ApplyPlayerExact(cleared, PlayerDeltaOf(after));
    DeltaExact(after);
    DropsOptionalOnly(before, after);
    FieldRoundTrip(PLAYER_OPTIONAL, b, a);
    SameRecordSamePlayer(ApplyPlayerDelta(cleared, PlayerDeltaOf(after)), after);
  }

  lemma NamesClearThemselves()
    ensures ClearsByName(PLAYER_CLEARING, PLAYER_OPTIONAL)
  {
    forall f | f in PLAYER_OPTIONAL
      ensures Lookup(PLAYER_CLEARING, f) == Some(f)
    {
      ClearingAt(f);
    }
  }

  lemma DropsOptionalOnly(before: PlayerData, after: PlayerData)
    ensures forall f :: f in ToRecord(before) && f !in ToRecord(after) ==> f in PLAYER_OPTIONAL
  {
    hide FieldOf, ToRecord;
    ReadByName(before);
    ReadByName(after);
    forall f | f in ToRecord(before) && f !in ToRecord(after)
      ensures f in PLAYER_OPTIONAL
    {
      OnlyPlayerFields(before, f);
      OnlyPlayerFields(after, f);
      assert Lookup(ToRecord(before), f) == FieldOf(before, f) && Lookup(ToRecord(after), f) == FieldOf(after, f);
    }
  }

  /** Storing one upsert into a player does what the relay does to any kind of object, for the kind of players. */
  method StorePlayer(before: Option<PlayerData>, id: string, delta: PlayerDelta, names: seq<string>)
    returns (r: PlayerData)
    ensures ToRecord(r) == Stored(PlayerKind(), if before.Some? then Some(ToRecord(before.value)) else None,
                                  Upsert(id, DeltaToRecord(delta), names))
  {
    hide ToRecord, DeltaToRecord, ClearPlayer, ApplyPlayerDelta, NormalizePlayer;
    var existing := if before.Some? then before.value else DEFAULT_PLAYER;
    ClearPlayerExact(existing, names);
    existing := ClearPlayerFields(existing, names);
    ApplyPlayerExact(existing, delta);
    existing := ApplyPlayerDelta(existing, delta);
    NormalizeExact(existing);
    r := NormalizePlayer(existing);
  }

  /** So whatever is proved of kinds of objects holds of players. */
  lemma PlayerKindOk()
    ensures KindOk(PlayerKind(), PLAYER_REQUIRED, PLAYER_OPTIONAL)
  {
    hide ToRecord;
    NamesClearThemselves();
    DefaultsAreRequired();
  }

  /** A new player starts with the required fields only. */
  lemma DefaultsAreRequired()
    ensures forall f :: f in ToRecord(DEFAULT_PLAYER) ==> f in PLAYER_REQUIRED
  {
    hide FieldOf, ToRecord;
    ReadByName(DEFAULT_PLAYER);
    forall f | f in ToRecord(DEFAULT_PLAYER)
      ensures f in PLAYER_REQUIRED
    {
      assert Lookup(ToRecord(DEFAULT_PLAYER), f) == FieldOf(DEFAULT_PLAYER, f);
      DefaultField(f);
    }
  }

  lemma DefaultField(f: string)
    ensures FieldOf(DEFAULT_PLAYER, f).Some? ==> f in PLAYER_REQUIRED
  {
  }

  lemma NormalizedHasFill(p: PlayerData)
    ensures NormalizePlayer(p) == p <==> PLAYER_FILL.Keys <= ToRecord(p).Keys
  {
    hide ToRecord, NormalizePlayer;
    NormalizeExact(p);
    var o := ToRecord(p);
    assert PLAYER_FILL + o == o <==> PLAYER_FILL.Keys <= o.Keys by {
      assert (PLAYER_FILL + o).Keys == PLAYER_FILL.Keys + o.Keys;
      assert forall f :: f in o ==> (PLAYER_FILL + o)[f] == o[f];
    }
    if ToRecord(NormalizePlayer(p)) == o {
      SameRecordSamePlayer(NormalizePlayer(p), p);
    }
  }

  /** Reporting players is exact if and only if every changed player is reported as the relay would normalise it. */
  lemma PlayerReport(before: map<string, PlayerData>, after: map<string, PlayerData>, s: Scope<string>)
    requires IsDiff(PLAYER_OPTIONAL, RecordsOf(before), RecordsOf(after), s)
    ensures StoreScope(PlayerKind(), RecordsOf(before), s) == RecordsOf(after)
            <==> forall k :: k in after && Lookup(before, k) != Some(after[k]) ==> NormalizePlayer(after[k]) == after[k]
  {
    hide IsDiff, StoreScope, Conforms, ToRecord, NormalizePlayer, KindOk;
    var b, a := RecordsOf(before), RecordsOf(after);
    PlayersConform(before);
    PlayersConform(after);
    PlayerKindOk();
    ConformingReport(PlayerKind(), PLAYER_REQUIRED, PLAYER_OPTIONAL, b, a, s);
    forall k | k in after
      ensures Lookup(b, k) == Some(a[k]) <==> Lookup(before, k) == Some(after[k])
      ensures PlayerKind().fill.Keys <= a[k].Keys <==> NormalizePlayer(after[k]) == after[k]
    {
      NormalizedHasFill(after[k]);
      if k in before && b[k] == a[k] {
        SameRecordSamePlayer(before[k], after[k]);
      }
    }
  }
}
