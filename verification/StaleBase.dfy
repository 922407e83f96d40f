/**
 Why the relay must have processed `Delivered` before it diffs: a concrete run in which a change from one to two and
 back to one, overtaken by its acknowledgement, is lost until that player changes again, while the relay believes the
 client to be up to date.
 */
module StaleBase {
  import opened Prelude
  import opened Records
  import opened BattleLog
  import opened Snapshots
  import opened Delivery
  import PlayerFields

  /** A player as the relay stores it, with every field that normalising fills in. */
  function At(x: int): (r: Record) {
    PlayerFields.PLAYER_FILL
    + map["x" := Number(x as real), "y" := Number(0.0), "z" := Number(0.0), "dimension" := Text("overworld")]
  }

  function Two(a: int, b: int): (r: Snapshot) {
    EMPTY_SNAPSHOT.(players := map["a" := At(a), "b" := At(b)])
  }

  function Move(id: string, x: int): (r: Patch) {
    EMPTY_PATCH.(players := Some(Scope([Upsert(id, At(x), [])], [])))
  }

  lemma PlaceOf(x: int)
    ensures Lookup(At(x), "x") == Some(Number(x as real))
  {
  }

  /** Players in different places differ. */
  lemma Elsewhere(x: int, y: int)
    ensures x != y ==> At(x) != At(y)
  {
    hide At;
    PlaceOf(x);
    PlaceOf(y);
  }

  lemma TwoWellFormed(a: int, b: int)
    ensures WellFormed(Two(a, b))
  {
  }

  lemma NothingCleared(x: int, y: int)
    ensures ClearedFields(PLAYER_OPTIONAL, At(x), At(y)) == []
  {
    var r := ClearedFields(PLAYER_OPTIONAL, At(x), At(y));
    assert At(x).Keys == At(y).Keys;
    FirstIsMember(r);
  }

  /** Moving one of the two players is a one-upsert diff. */
  lemma MoveIsDiff(id: string, before: Table<string>, after: Table<string>, x: int, y: int)
    requires id in before && before[id] == At(x) && x != y && after == before[id := At(y)]
    ensures IsDiff(PLAYER_OPTIONAL, before, after, Scope([Upsert(id, At(y), [])], []))
    ensures before != after
  {
    hide At, ClearedFields;
    NothingCleared(x, y);
    Elsewhere(x, y);
    var ups := [Upsert(id, At(y), [])];
    assert ups[0].id == id;
    forall k
      ensures HasId(ups, k) <==> k in after && Lookup(before, k) != Some(after[k])
    {
    }
  }

  lemma MoveIsPatch(id: string, before: Snapshot, after: Snapshot, x: int, y: int)
    requires id in before.players && before.players[id] == At(x) && x != y
    requires after == before.(players := before.players[id := At(y)])
    requires before.serverTime.None?
    ensures IsPatch(before, after, Move(id, y)) && !Agree(before, after)
  {
    MoveIsDiff(id, before.players, after.players, x, y);
    TabRoundTrip(before.tab, after.tab);
    EmptyDiffs(before.tab);
  }

  lemma EmptyDiffs(tab: Option<TabState>)
    ensures BuildTabPatch(tab, tab) == None
  {
  }

  const NO_BATTLE := Battle([map[]], [], 0)
  const CFG := Config(true, true, false)

  lemma NoBattleOk(includeMode: bool)
    ensures BattleOk(NO_BATTLE)
    ensures IsCatchUp(NO_BATTLE.history[0], NO_BATTLE.changes, 0, 0, includeMode, true, UpToDate)
    ensures BattleAt(NO_BATTLE, 0, includeMode) == map[]
  {
  }

  lemma MovePayload(id: string, before: Snapshot, after: Snapshot, x: int, y: int)
    requires id in before.players && before.players[id] == At(x) && x != y
    requires after == before.(players := before.players[id := At(y)])
    requires before.serverTime.None?
    ensures BattleOk(NO_BATTLE)
    ensures IsPayload(CFG, false, Some(before), 0, false, after, NO_BATTLE,
                      Build(UpToDate, Some(Move(id, y)), Some(Move(id, y)), Some(Move(id, y))),
                      Some(Delta(Move(id, y))))
  {
    NoBattleOk(true);
    MoveIsPatch(id, before, after, x, y);
  }

  /** Reading the move merges the new record into the held one. */
  lemma MoveReceived(c: Client, id: string, x: int, y: int)
    requires id in c.snapshot.players && c.snapshot.players[id] == At(x)
    ensures Receive(CFG, c, Some(Delta(Move(id, y))))
            == Client(c.snapshot.(players := c.snapshot.players[id := At(y)]), c.battle)
  {
    var u := Upsert(id, At(y), []);
    var t := c.snapshot.players;
    assert t - (set k: string | k in []) == t;
    assert Merged(HonourClears, Lookup(t, id), u) == At(y);
    assert ApplyUpserts(HonourClears, t, [u]) == ApplyUpserts(HonourClears, t[id := At(y)], [u][1..]);
  }

  function Sent(revision: nat, payload: Payload, target: Snapshot): (r: Frame) {
    Frame(revision, Some(payload), target, 0)
  }

  function Start(): (r: State) {
    State(NO_BATTLE, None, 0, 0, true, 0, None, [], Client(EMPTY_SNAPSHOT, map[]), 0, false)
  }

  const F1 := Sent(1, Full(Two(1, 1), map[]), Two(1, 1))
  const F2 := Sent(2, Delta(Move("a", 2)), Two(2, 1))
  const F3 := Sent(3, Delta(Move("b", 2)), Two(1, 2))

  function MoveAction(id: string, y: int, target: Snapshot): (a: Action) {
    Broadcast(target, false, false, Build(UpToDate, Some(Move(id, y)), Some(Move(id, y)), Some(Move(id, y))),
              Some(Delta(Move(id, y))))
  }

  function Actions(): (r: seq<Action>) {
    [Broadcast(Two(1, 1), false, false, Build(UpToDate, None, None, None), Some(Full(Two(1, 1), map[]))),
     Write, ProcessDelivered,
     MoveAction("a", 2, Two(2, 1)), Write,
     MoveAction("b", 2, Two(1, 2)), ProcessDelivered, Write, ProcessDelivered]
  }

  function States(): (r: seq<State>) {
    var s0 := Start();
    var s1 := s0.(roomRevision := 1, slot := Some(F1), forceFull := false);
    var s2 := s1.(slot := None, acks := [F1], client := Client(Two(1, 1), map[]), started := true);
    var s3 := s2.(acks := [], delivered := Some(Two(1, 1)), deliveredRevision := 1);
    var s4 := s3.(roomRevision := 2, slot := Some(F2));
    var s5 := s4.(slot := None, acks := [F2], client := Client(Two(2, 1), map[]));
    var s6 := s5.(roomRevision := 3, slot := Some(F3));
    var s7 := s6.(acks := [], delivered := Some(Two(2, 1)), deliveredRevision := 2);
    var s8 := s7.(slot := None, acks := [F3], client := Client(Two(2, 2), map[]));
    var s9 := s8.(acks := [], delivered := Some(Two(1, 2)), deliveredRevision := 3);
    [s0, s1, s2, s3, s4, s5, s6, s7, s8, s9]
  }

  lemma BroadcastSteps()
    ensures forall i :: i in {0, 3, 5} ==> Step(CFG, States()[i], States()[i + 1], Actions()[i])
  {
    hide IsPayload, WellFormed, Two, BattleOk;
    NoBattleOk(true);
    FirstPayload();
    TwoWellFormed(1, 1);
    TwoWellFormed(2, 1);
    TwoWellFormed(1, 2);
    TwoMoves();
  }

  lemma FirstPayload()
    ensures BattleOk(NO_BATTLE)
    ensures IsPayload(CFG, true, None, 0, false, Two(1, 1), NO_BATTLE, Build(UpToDate, None, None, None),
                      Some(Full(Two(1, 1), map[])))
  {
  }

  lemma TwoMoves()
    ensures BattleOk(NO_BATTLE)
    ensures IsPayload(CFG, false, Some(Two(1, 1)), 0, false, Two(2, 1), NO_BATTLE,
                      MoveAction("a", 2, Two(2, 1)).build, Some(Delta(Move("a", 2))))
    ensures IsPayload(CFG, false, Some(Two(1, 1)), 0, false, Two(1, 2), NO_BATTLE,
                      MoveAction("b", 2, Two(1, 2)).build, Some(Delta(Move("b", 2))))
  {
    hide IsPayload, At;
    MovePayload("a", Two(1, 1), Two(2, 1), 1, 2);
    MovePayload("b", Two(1, 1), Two(1, 2), 1, 2);
  }

  lemma FirstWrite()
    ensures Step(CFG, States()[1], States()[2], Write)
  {
    hide At;
    assert Receive(CFG, States()[1].client, F1.payload) == Client(Two(1, 1), map[]);
  }

  lemma SecondWrite()
    ensures Step(CFG, States()[4], States()[5], Write)
  {
    hide At;
    MoveReceived(States()[4].client, "a", 1, 2);
  }

  lemma ThirdWrite()
    ensures Step(CFG, States()[7], States()[8], Write)
  {
    hide At;
    MoveReceived(States()[7].client, "b", 1, 2);
  }

  lemma DeliveredSteps()
    ensures forall i :: i in {2, 6, 8} ==> Step(CFG, States()[i], States()[i + 1], Actions()[i])
  {
    hide Two;
  }

  /**
   There is a run, of exact payloads and with no message lost, that ends with nothing in flight and a client that
   differs from the snapshot the relay will diff against from now on.
   */
  lemma OvertakenDeliveredDiverges()
    ensures IsRun(CFG, States(), Actions())
    ensures var last := States()[9];
            && last.slot.None? && last.acks == [] && last.delivered.Some?
            && !Synced(CFG, last.client.snapshot, last.delivered.value)
  {
    hide At, Synced, Step;
    BroadcastSteps();
    FirstWrite();
    SecondWrite();
    ThirdWrite();
    DeliveredSteps();
    NoBattleOk(true);
    forall i | 0 <= i < |Actions()|
      ensures Step(CFG, States()[i], States()[i + 1], Actions()[i])
    {
      assert i in {0, 3, 5} || i in {1, 4, 7} || i in {2, 6, 8};
    }
    OutOfStep(2, 2, 1, 2);
  }

  lemma OutOfStep(a: int, b: int, c: int, d: int)
    requires a != c
    ensures !Synced(CFG, Two(a, b), Two(c, d))
  {
    hide At;
    Elsewhere(a, c);
    assert Two(a, b).players["a"] != Two(c, d).players["a"];
  }

  // ---------------------------------------------------------------- a resync that is lost

  function LostActions(): (r: seq<Action>) {
    [Resync,
     Broadcast(Two(1, 2), false, false, Build(UpToDate, None, None, None), Some(Full(Two(1, 2), map[]))),
     Broadcast(Two(1, 2), false, true, Build(UpToDate, None, None, None), None),
     Write, ProcessDelivered]
  }

  function LostStates(): (r: seq<State>) {
    var s9 := States()[9];
    var s10 := s9.(forceFull := true);
    var s11 := s10.(roomRevision := 4, slot := Some(Sent(4, Full(Two(1, 2), map[]), Two(1, 2))), forceFull := false);
    var s12 := s11.(roomRevision := 5, slot := Some(Frame(5, None, Two(1, 2), 0)));
    var s13 := s12.(slot := None, acks := [Frame(5, None, Two(1, 2), 0)]);
    var s14 := s13.(acks := [], deliveredRevision := 5);
    [s9, s10, s11, s12, s13, s14]
  }

  lemma FullAgain()
    ensures BattleOk(NO_BATTLE)
    ensures IsPayload(CFG, true, Some(Two(1, 2)), 0, false, Two(1, 2), NO_BATTLE, Build(UpToDate, None, None, None),
                      Some(Full(Two(1, 2), map[])))
    ensures IsPayload(CFG, false, Some(Two(1, 2)), 0, false, Two(1, 2), NO_BATTLE, Build(UpToDate, None, None, None),
                      None)
  {
    hide At;
    NoBattleOk(true);
  }

  lemma LostBroadcasts()
    ensures Step(CFG, LostStates()[0], LostStates()[1], Resync)
    ensures forall i :: i in {1, 2} ==> Step(CFG, LostStates()[i], LostStates()[i + 1], LostActions()[i])
  {
    hide IsPayload, WellFormed, Two, BattleOk;
    NoBattleOk(true);
    FullAgain();
    TwoWellFormed(1, 2);
  }

  lemma LostWrite()
    ensures forall i :: i in {3, 4} ==> Step(CFG, LostStates()[i], LostStates()[i + 1], LostActions()[i])
  {
    hide Two;
  }

  /**
   After that run the client asks for a full state, which is computed, but a digest that falls due before it is written
   replaces it in the slot: again nothing is in flight, no full state is due any more, and the client is still wrong.
   */
  lemma ResyncMayBeLost()
    ensures LostStates()[0] == States()[9]
    ensures forall i :: 0 <= i < |LostActions()| ==> Step(CFG, LostStates()[i], LostStates()[i + 1], LostActions()[i])
    ensures var last := LostStates()[5];
            && last.slot.None? && last.acks == [] && last.delivered.Some? && !last.forceFull
            && !Synced(CFG, last.client.snapshot, last.delivered.value)
  {
    hide At, Synced, Step;
    LostBroadcasts();
    LostWrite();
    forall i | 0 <= i < |LostActions()|
      ensures Step(CFG, LostStates()[i], LostStates()[i + 1], LostActions()[i])
    {
      assert i == 0 || i in {1, 2} || i in {3, 4};
    }
    OutOfStep(2, 2, 1, 2);
  }
}
