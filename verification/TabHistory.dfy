/**
 The tab history of one room: a revisioned table of player entries, the delta rows since some revision, the digest of
 every revision, and the sync that brings a client up to date.

 SQL tables are maps and every write transaction is one step. A SHA-256 value is represented by what it hashes: the etag
 of an entry by its player and its two times, the digest of a revision by the etags of all entries. The revision of an
 entry is in neither, so two tables with one digest may still differ in it.
 */
module TabHistory {
  import opened Prelude

  const REFRESH_INTERVAL_MS := 300_000

  // ---------------------------------------------------------------- entries

  datatype Player = Player(
    displayName: Option<string>, prefixedName: Option<string>, scoreboardPrefix: Option<string>,
    colour: Option<nat>, others: map<string, string>)

  /** A reported player and its normalised UUID. */
  datatype PlayerReport = PlayerReport(uuid: string, player: Player)

  /** What is left of a player once written as JSON: the colour keeps its low 24 bits. */
  function Persisted(p: Player): (r: Player) {
    p.(colour := if p.colour.Some? then Some(p.colour.value % 0x100_0000) else None)
  }

  function Text(t: Option<string>): (r: string) {
    Trim(if t.Some? then t.value else "")
  }

  /** 0: nothing to display; 1: the display name is only the team prefix; 2: a label of its own. */
  function LabelQuality(p: Player): (r: nat)
    ensures r <= 2
  {
    var prefix := if p.scoreboardPrefix.Some? then p.scoreboardPrefix else p.prefixedName;
    if Text(p.displayName) == "" then 0
    else if Text(prefix) != "" && Text(p.displayName) == Text(prefix) then 1
    else 2
  }

  datatype Entry = Entry(player: Player, labelFirstObservedAt: int, lastObservedAt: int, revision: nat)

  datatype Row = Row(entry: Entry, sourcePriority: int)

  datatype Etag = Etag(player: Player, labelFirstObservedAt: int, lastObservedAt: int)

  type Table = map<string, Entry>

  type Digest = map<string, Etag>

  function EtagOf(e: Entry): (r: Etag) {
    Etag(e.player, e.labelFirstObservedAt, e.lastObservedAt)
  }

  function DigestOf(t: Table): (r: Digest) {
    map u | u in t :: EtagOf(t[u])
  }

  function Contents(rows: map<string, Row>): (r: Table) {
    map u | u in rows :: rows[u].entry
  }

  /** What reporting a player does to its row; None if the report is ignored. */
  function Reported(row: Option<Row>, player: Player, now: int, priority: int, revision: nat): (r: Option<Row>) {
    if row.Some? && row.value.sourcePriority > priority then None
    else if row.Some? && LabelQuality(player) < LabelQuality(row.value.entry.player) then None
    else
      var labelChanged := row.None? || row.value.entry.player != Persisted(player);
      if !labelChanged && now - row.value.entry.lastObservedAt < REFRESH_INTERVAL_MS then None
      else
        var firstAt := if labelChanged then now else row.value.entry.labelFirstObservedAt;
        Some(Row(Entry(Persisted(player), firstAt, now, revision), priority))
  }

  // ---------------------------------------------------------------- tables and steps

  datatype Delta = Upserted(entry: Entry) | Removed

  datatype Head = Head(revision: nat, digest: Digest)

  datatype Tables = Tables(
    head: Option<Head>, entries: map<string, Row>, deltas: map<nat, map<string, Delta>>, revisions: map<nat, Digest>)

  const EMPTY := Tables(None, map[], map[], map[])

  function Revision(t: Tables): (r: nat) {
    if t.head.Some? then t.head.value.revision else 0
  }

  datatype Event =
    | Report(players: map<string, Player>, now: int, priority: int)
    | Delete(uuids: set<string>)
    | Purge

  /** The next revision of the room: its rows, their delta and its digest. */
  function Commit(t: Tables, rows: map<string, Row>, delta: map<string, Delta>): (r: Tables) {
    var revision, digest := Revision(t) + 1, DigestOf(Contents(rows));
    Tables(Some(Head(revision, digest)), rows, t.deltas[revision := delta], t.revisions[revision := digest])
  }

  function AcceptedRows(t: Tables, e: Event): (r: map<string, Row>)
    requires e.Report?
  {
    map u | u in e.players && Reported(Lookup(t.entries, u), e.players[u], e.now, e.priority, Revision(t) + 1).Some?
      :: Reported(Lookup(t.entries, u), e.players[u], e.now, e.priority, Revision(t) + 1).value
  }

  function AsUpserts(rows: map<string, Row>): (r: map<string, Delta>) {
    map u | u in rows :: Upserted(rows[u].entry)
  }

  function AsRemovals(uuids: set<string>): (r: map<string, Delta>) {
    map u | u in uuids :: Removed
  }

  function Advance(t: Tables, e: Event): (r: Tables) {
    match e
    case Report(_, _, _) =>
      var rows := AcceptedRows(t, e);
      if rows == map[] then t else Commit(t, t.entries + rows, AsUpserts(rows))
    case Delete(uuids) =>
      var gone := uuids * t.entries.Keys;
      if gone == {} then t else Commit(t, t.entries - gone, AsRemovals(gone))
    case Purge => EMPTY
  }

  /** The tables at each revision since the room was created or purged. */
  ghost function Remember(past: seq<Table>, t: Tables, e: Event): (r: seq<Table>) {
    if e.Purge? then [map[]]
    else if Revision(Advance(t, e)) == Revision(t) then past
    else past + [Contents(Advance(t, e).entries)]
  }

  function ApplyDelta(t: Table, d: map<string, Delta>): (r: Table) {
    map u | u in t.Keys + d.Keys && (u in d ==> d[u].Upserted?) :: if u in d then d[u].entry else t[u]
  }

  // ---------------------------------------------------------------- the invariant

  /** The digests recorded are those of the tables of the past. */
  ghost predicate DigestsRecorded(t: Tables, past: seq<Table>) {
    && (t.head.Some? ==>
          0 < t.head.value.revision < |past| && t.head.value.digest == DigestOf(past[t.head.value.revision]))
    && (forall r :: r in t.revisions <==> 0 < r < |past|)
    && forall r :: r in t.revisions ==> t.revisions[r] == DigestOf(past[r])
  }

  /** The delta rows kept cover the last revisions without a gap, and each leads from one table to the next. */
  ghost predicate DeltasRecorded(t: Tables, past: seq<Table>) {
    && (forall r :: r in t.deltas ==> 0 < r < |past| && t.deltas[r] != map[])
    && (forall r, s :: r in t.deltas && r < s < |past| ==> s in t.deltas)
    && forall r :: r in t.deltas && 0 < r < |past| ==> past[r] == ApplyDelta(past[r - 1], t.deltas[r])
  }

  /** Tables that agree with the history of the room, some of the oldest delta rows possibly dropped. */
  ghost predicate Explained(t: Tables, past: seq<Table>) {
    && |past| == Revision(t) + 1 && past[0] == map[] && past[Revision(t)] == Contents(t.entries)
    && (forall u :: u in t.entries ==> t.entries[u].entry.revision <= Revision(t))
    && DigestsRecorded(t, past) && DeltasRecorded(t, past)
  }

  lemma StartsExplained()
    ensures Explained(EMPTY, [map[]])
  {
    assert Contents(EMPTY.entries) == map[];
  }

  lemma CommitKeepsExplanation(t: Tables, past: seq<Table>, rows: map<string, Row>, delta: map<string, Delta>)
    requires Explained(t, past) && delta != map[]
    requires Contents(rows) == ApplyDelta(Contents(t.entries), delta)
    requires forall u :: u in rows ==> rows[u].entry.revision <= Revision(t) + 1
    ensures Explained(Commit(t, rows, delta), past + [Contents(rows)])
  {
    hide ApplyDelta, DigestOf, Contents, DigestsRecorded, DeltasRecorded;
    CommitRecordsDigest(t, past, rows, delta);
    CommitRecordsDelta(t, past, rows, delta);
  }

  lemma CommitRecordsDigest(t: Tables, past: seq<Table>, rows: map<string, Row>, delta: map<string, Delta>)
    requires |past| == Revision(t) + 1 && DigestsRecorded(t, past)
    ensures DigestsRecorded(Commit(t, rows, delta), past + [Contents(rows)])
  {
    hide DigestOf, Contents;
  }

  lemma CommitRecordsDelta(t: Tables, past: seq<Table>, rows: map<string, Row>, delta: map<string, Delta>)
    requires |past| == Revision(t) + 1 && DeltasRecorded(t, past) && delta != map[]
    requires Contents(rows) == ApplyDelta(past[Revision(t)], delta)
    ensures DeltasRecorded(Commit(t, rows, delta), past + [Contents(rows)])
  {
    hide ApplyDelta, DigestOf, Contents;
  }

  lemma RowsAreApplied(entries: map<string, Row>, rows: map<string, Row>, gone: set<string>)
    ensures Contents(entries + rows) == ApplyDelta(Contents(entries), AsUpserts(rows))
    ensures Contents(entries - gone) == ApplyDelta(Contents(entries), AsRemovals(gone))
  {
  }

  /** Every transaction leaves tables that agree with the history of the room. */
  lemma AdvanceKeepsExplanation(t: Tables, past: seq<Table>, e: Event)
    requires Explained(t, past)
    ensures Explained(Advance(t, e), Remember(past, t, e))
  {
    hide Explained, ApplyDelta, Contents, Commit;
    match e
    case Report(_, _, _) =>
      var rows := AcceptedRows(t, e);
      if rows != map[] {
        RowsAreApplied(t.entries, rows, {});
        RevisionsAreBounded(t, past);
        CommitKeepsExplanation(t, past, t.entries + rows, AsUpserts(rows)) by {
          var u :| u in rows;
          assert u in AsUpserts(rows);
        }
        CommitAdvances(t, t.entries + rows, AsUpserts(rows));
      }
    case Delete(uuids) =>
      var gone := uuids * t.entries.Keys;
      if gone != {} {
        RowsAreApplied(t.entries, map[], gone);
        RevisionsAreBounded(t, past);
        CommitKeepsExplanation(t, past, t.entries - gone, AsRemovals(gone)) by {
          var u :| u in gone;
          assert u in AsRemovals(gone);
        }
        CommitAdvances(t, t.entries - gone, AsRemovals(gone));
      }
    case Purge =>
      StartsExplained();
  }

  lemma RevisionsAreBounded(t: Tables, past: seq<Table>)
    requires Explained(t, past)
    ensures forall u :: u in t.entries ==> t.entries[u].entry.revision <= Revision(t)
  {
  }

  lemma CommitAdvances(t: Tables, rows: map<string, Row>, delta: map<string, Delta>)
    ensures Revision(Commit(t, rows, delta)) == Revision(t) + 1 && Commit(t, rows, delta).entries == rows
  {
  }

  /** `r` is `t` without some of its oldest delta rows. */
  ghost predicate IsTrimmed(t: Tables, r: Tables) {
    && r.head == t.head && r.entries == t.entries && r.revisions == t.revisions
    && (forall n :: n in r.deltas ==> n in t.deltas && r.deltas[n] == t.deltas[n])
    && forall n, m :: n in r.deltas && m in t.deltas && n < m ==> m in r.deltas
  }

  /** Dropping the oldest delta rows is always harmless to the invariant. */
  lemma TrimmingKeepsExplanation(t: Tables, r: Tables, past: seq<Table>)
    requires Explained(t, past) && IsTrimmed(t, r)
    ensures Explained(r, past)
  {
    hide Contents, DigestOf, ApplyDelta;
  }

  /**
   Every accepted change advances the revision by one, and the new revision has a delta row for exactly the players
   whose entry changed; without a change nothing is written.
   */
  lemma ChangesAreRecorded(t: Tables, past: seq<Table>, e: Event)
    requires Explained(t, past) && !e.Purge?
    ensures Advance(t, e) == t || Revision(Advance(t, e)) == Revision(t) + 1
    ensures Advance(t, e) != t ==>
              Revision(t) + 1 in Advance(t, e).deltas
              && forall u :: u in Advance(t, e).deltas[Revision(t) + 1] <==>
                             Lookup(Advance(t, e).entries, u) != Lookup(t.entries, u)
  {
    hide DigestsRecorded, DeltasRecorded, Contents, DigestOf;
    if e.Report? {
      forall u | u in AcceptedRows(t, e)
        ensures Lookup(t.entries, u) != Some(AcceptedRows(t, e)[u])
      {
        assert AcceptedRows(t, e)[u].entry.revision == Revision(t) + 1;
      }
    }
  }

  // ---------------------------------------------------------------- quality between deletions

  /** A run of transactions on one room. */
  ghost predicate IsRun(ts: seq<Tables>, es: seq<Event>) {
    |ts| == |es| + 1 && forall i :: 0 <= i < |es| ==> ts[i + 1] == Advance(ts[i], es[i])
  }

  predicate Spares(e: Event, u: string) {
    !e.Purge? && (e.Delete? ==> u !in e.uuids)
  }

  /** As good as before: by source priority and by label; a label that stays keeps the time it was first seen. */
  predicate AtLeast(before: Row, after: Row) {
    && before.sourcePriority <= after.sourcePriority
    && LabelQuality(before.entry.player) <= LabelQuality(after.entry.player)
    && before.entry.revision <= after.entry.revision
  }

  lemma StepNeverDegrades(t: Tables, past: seq<Table>, e: Event, u: string)
    requires Explained(t, past) && u in t.entries && Spares(e, u)
    ensures u in Advance(t, e).entries && AtLeast(t.entries[u], Advance(t, e).entries[u])
    ensures Advance(t, e).entries[u].entry.player == t.entries[u].entry.player ==>
              Advance(t, e).entries[u].entry.labelFirstObservedAt == t.entries[u].entry.labelFirstObservedAt
  {
    hide DigestsRecorded, DeltasRecorded, Contents, DigestOf, Text;
  }

  /**
   When an entry changes without being deleted, either its label is new, first and last seen at once, or it was due for
   a refresh: last seen at least the refresh interval after the previous time.
   */
  lemma ChangesForAReason(t: Tables, past: seq<Table>, e: Event, u: string)
    requires Explained(t, past) && u in t.entries && Spares(e, u)
    requires u in Advance(t, e).entries && Advance(t, e).entries[u] != t.entries[u]
    ensures e.Report? && u in e.players
    ensures var before, after := t.entries[u].entry, Advance(t, e).entries[u].entry;
            && after.player == Persisted(e.players[u]) && after.lastObservedAt == e.now
            && after.revision == Revision(t) + 1
            && if after.player != before.player then after.labelFirstObservedAt == e.now
               else after.lastObservedAt >= before.lastObservedAt + REFRESH_INTERVAL_MS
  {
    hide DigestsRecorded, DeltasRecorded, Contents, DigestOf, LabelQuality;
  }

  /**
   A report takes effect exactly for players without an entry and for entries it does not fall short of in source
   priority or label quality, if the label is another or a refresh is due.
   */
  lemma ReportTakesEffectExactly(t: Tables, past: seq<Table>, e: Event, u: string)
    requires Explained(t, past) && e.Report?
    ensures Lookup(Advance(t, e).entries, u) != Lookup(t.entries, u) <==>
            && u in e.players
            && (u in t.entries ==>
                  var held, p := t.entries[u], e.players[u];
                  && held.sourcePriority <= e.priority
                  && LabelQuality(held.entry.player) <= LabelQuality(p)
                  && (held.entry.player != Persisted(p) || e.now >= held.entry.lastObservedAt + REFRESH_INTERVAL_MS))
  {
    hide DigestsRecorded, DeltasRecorded, Contents, DigestOf, LabelQuality, Persisted;
    AdvanceAt(t, e, u);
    assert u in AcceptedRows(t, e) ==> AcceptedRows(t, e)[u].entry.revision == Revision(t) + 1;
  }

  lemma AdvanceAt(t: Tables, e: Event, u: string)
    requires e.Report?
    ensures Lookup(Advance(t, e).entries, u)
            == if u in AcceptedRows(t, e) then Some(AcceptedRows(t, e)[u]) else Lookup(t.entries, u)
  {
    hide Reported, DigestOf, Contents;
  }

  /** As long as an entry is not deleted, neither its source priority nor its label quality ever decreases. */
  lemma {:induction false} NeverDegrades(ts: seq<Tables>, es: seq<Event>, past: seq<Table>, u: string)
    requires IsRun(ts, es) && Explained(ts[0], past) && u in ts[0].entries
    requires forall i :: 0 <= i < |es| ==> Spares(es[i], u)
    ensures u in ts[|es|].entries && AtLeast(ts[0].entries[u], ts[|es|].entries[u])
  {
    hide Explained, Advance, LabelQuality;
    if es != [] {
      StepNeverDegrades(ts[0], past, es[0], u);
      AdvanceKeepsExplanation(ts[0], past, es[0]);
      assert IsRun(ts[1..], es[1..]);
      NeverDegrades(ts[1..], es[1..], Remember(past, ts[0], es[0]), u);
    }
  }

  // ---------------------------------------------------------------- what counts, said of the texts themselves

  /** There is nothing to display. */
  ghost predicate Blank(t: Option<string>) {
    t.None? || forall c :: c in t.value ==> IsSpace(c)
  }

  /** There is a label, and it is not just the team prefix. */
  ghost predicate OwnLabel(p: Player) {
    && !Blank(p.displayName)
    && (p.scoreboardPrefix.Some? ==> Trim(p.displayName.value) != Trim(p.scoreboardPrefix.value))
    && (p.scoreboardPrefix.None? && p.prefixedName.Some? ==> Trim(p.displayName.value) != Trim(p.prefixedName.value))
  }

  /** The report would take away a label of its own, or the only one. */
  ghost predicate LosesLabel(held: Player, reported: Player) {
    (OwnLabel(held) && !OwnLabel(reported)) || (!Blank(held.displayName) && Blank(reported.displayName))
  }

  lemma QualityExact(p: Player)
    ensures LabelQuality(p) == if Blank(p.displayName) then 0 else if OwnLabel(p) then 2 else 1
  {
    hide Trim;
    TrimsToNothing("");
    TrimsToNothing(if p.displayName.Some? then p.displayName.value else "");
  }

  /** Entries keep their labels: over any run without its deletion an entry never loses one. */
  lemma LabelsAreKept(ts: seq<Tables>, es: seq<Event>, past: seq<Table>, u: string)
    requires IsRun(ts, es) && Explained(ts[0], past) && u in ts[0].entries
    requires forall i :: 0 <= i < |es| ==> Spares(es[i], u)
    ensures u in ts[|es|].entries
    ensures !LosesLabel(ts[0].entries[u].entry.player, ts[|es|].entries[u].entry.player)
  {
    hide Explained, Advance, LabelQuality, OwnLabel, Blank;
    NeverDegrades(ts, es, past, u);
    QualityExact(ts[0].entries[u].entry.player);
    QualityExact(ts[|es|].entries[u].entry.player);
    BlankIsNotOwn(ts[0].entries[u].entry.player);
    BlankIsNotOwn(ts[|es|].entries[u].entry.player);
  }

  lemma BlankIsNotOwn(p: Player)
    ensures OwnLabel(p) ==> !Blank(p.displayName)
  {
  }

  /** The last report of the player in a batch. */
  ghost predicate IsLastReport(players: seq<PlayerReport>, u: string, i: nat) {
    i < |players| && players[i].uuid == u && forall j :: i < j < |players| ==> players[j].uuid != u
  }

  lemma {:induction false} LastReportCounts(players: seq<PlayerReport>, u: string, i: nat)
    requires IsLastReport(players, u, i)
    ensures Lookup(LastReports(players), u) == Some(players[i].player)
  {
    var n := |players| - 1;
    if i < n {
      assert players[n].uuid != u;
      LastReportCounts(players[..n], u, i);
    }
  }

  lemma {:induction false} NobodyElse(players: seq<PlayerReport>, u: string)
    requires forall i :: 0 <= i < |players| ==> players[i].uuid != u
    ensures u !in LastReports(players)
  {
    if players != [] {
      NobodyElse(players[..|players| - 1], u);
    }
  }

  /** The same player, the colour cut to its low 24 bits. */
  ghost predicate StoredAs(p: Player, q: Player) {
    && q.displayName == p.displayName && q.prefixedName == p.prefixedName
    && q.scoreboardPrefix == p.scoreboardPrefix && q.others == p.others
    && (q.colour.Some? <==> p.colour.Some?)
    && (q.colour.Some? ==> q.colour.value < 0x100_0000 && (p.colour.value - q.colour.value) % 0x100_0000 == 0)
  }

  lemma StoredIsUnique(p: Player, q: Player)
    ensures StoredAs(p, q) <==> q == Persisted(p)
  {
  }

  /** What a report does to one entry, if anything: it stores the report under the next revision, with its times. */
  ghost predicate Stores(held: Option<Row>, reported: Player, now: int, priority: int, revision: nat, after: Row) {
    && StoredAs(reported, after.entry.player) && after.sourcePriority == priority
    && after.entry.lastObservedAt == now && after.entry.revision == revision
    && after.entry.labelFirstObservedAt
       == if held.Some? && held.value.entry.player == after.entry.player then held.value.entry.labelFirstObservedAt
          else now
  }

  /** The report counts: it has the priority, costs no label, and brings something new or a due refresh. */
  ghost predicate Counts(held: Option<Row>, reported: Player, now: int, priority: int) {
    held.Some? ==>
      && held.value.sourcePriority <= priority && !LosesLabel(held.value.entry.player, reported)
      && (!StoredAs(reported, held.value.entry.player) || now - held.value.entry.lastObservedAt >= 5 * 60 * 1000)
  }

  /** One entry after a batch of reports: it is what the last report of its player says, if that counts. */
  lemma ReportExact(t: Tables, players: seq<PlayerReport>, now: int, priority: int, u: string)
    ensures var held := Lookup(t.entries, u);
            var after := Lookup(Advance(t, Report(LastReports(players), now, priority)).entries, u);
            && ((forall i :: 0 <= i < |players| ==> players[i].uuid != u) ==> after == held)
            && forall i: nat :: IsLastReport(players, u, i) ==>
                 if Counts(held, players[i].player, now, priority) then
                   after.Some? && Stores(held, players[i].player, now, priority, Revision(t) + 1, after.value)
                 else after == held
  {
    hide LastReports, Stores, Counts, Reported, DigestOf, Contents;
    var e := Report(LastReports(players), now, priority);
    AdvanceAt(t, e, u);
    if forall i :: 0 <= i < |players| ==> players[i].uuid != u {
      NobodyElse(players, u);
    }
    forall i: nat | IsLastReport(players, u, i)
      ensures Lookup(LastReports(players), u) == Some(players[i].player)
      ensures Reported(Lookup(t.entries, u), players[i].player, now, priority, Revision(t) + 1).Some?
              <==> Counts(Lookup(t.entries, u), players[i].player, now, priority)
      ensures Counts(Lookup(t.entries, u), players[i].player, now, priority) ==>
                Stores(Lookup(t.entries, u), players[i].player, now, priority, Revision(t) + 1,
                       Reported(Lookup(t.entries, u), players[i].player, now, priority, Revision(t) + 1).value)
    {
      LastReportCounts(players, u, i);
      ReportedExact(Lookup(t.entries, u), players[i].player, now, priority, Revision(t) + 1);
    }
  }

  lemma ReportedExact(held: Option<Row>, p: Player, now: int, priority: int, revision: nat)
    ensures Reported(held, p, now, priority, revision).Some? <==> Counts(held, p, now, priority)
    ensures Counts(held, p, now, priority) ==>
              Stores(held, p, now, priority, revision, Reported(held, p, now, priority, revision).value)
  {
    hide Persisted, StoredAs, LabelQuality, OwnLabel, Blank;
    StoredIsUnique(p, Persisted(p));
    QualityExact(p);
    BlankIsNotOwn(p);
    if held.Some? {
      StoredIsUnique(p, held.value.entry.player);
      QualityExact(held.value.entry.player);
      BlankIsNotOwn(held.value.entry.player);
    }
  }

  /** An etag hashes the player, the time its label was first seen, and the time it was last seen, in this order. */
  lemma EtagSpelled(e: Entry)
    ensures EtagOf(e).player == e.player && EtagOf(e).labelFirstObservedAt == e.labelFirstObservedAt
    ensures EtagOf(e).lastObservedAt == e.lastObservedAt
  {
  }

  /** Digests are equal exactly if the tables are, but for the revisions of their entries. */
  lemma DigestExact(a: Table, b: Table)
    ensures DigestOf(a) == DigestOf(b) <==>
            a.Keys == b.Keys
            && forall u :: u in a && u in b ==>
                 && a[u].player == b[u].player && a[u].labelFirstObservedAt == b[u].labelFirstObservedAt
                 && a[u].lastObservedAt == b[u].lastObservedAt
  {
    assert DigestOf(a).Keys == a.Keys && DigestOf(b).Keys == b.Keys;
    forall u | u in a && u in b
      ensures DigestOf(a)[u] == DigestOf(b)[u] <==>
              && a[u].player == b[u].player && a[u].labelFirstObservedAt == b[u].labelFirstObservedAt
              && a[u].lastObservedAt == b[u].lastObservedAt
    {
    }
  }

  // ---------------------------------------------------------------- sync

  datatype Mode = Full | DeltaMode

  datatype ResetReason = BaseUnknown | DigestMismatch | DeltaExpired

  datatype SyncResult = SyncResult(
    mode: Mode, revision: nat, digest: Digest, upsert: Table, deleteUuids: set<string>,
    resetReason: Option<ResetReason>)

  /** What a client makes of an answer without a reset reason: a full answer replaces its table. */
  function Synced(held: Table, r: SyncResult): (t: Table) {
    if r.mode.Full? then r.upsert else (held - r.deleteUuids) + r.upsert
  }

  ghost predicate IsOldest(t: Tables, oldest: nat) {
    if t.deltas == map[] then oldest == Revision(t)
    else oldest + 1 in t.deltas && forall r :: r in t.deltas ==> oldest < r
  }

  /** The revision before the oldest delta row kept; the current one if none is. */
  method OldestAvailable(t: Tables) returns (oldest: nat)
    requires forall r :: r in t.deltas ==> 0 < r
    ensures IsOldest(t, oldest)
  {
    if t.deltas == map[] {
      return Revision(t);
    }
    var first :| first in t.deltas.Keys;
    var pending := t.deltas.Keys - {first};
    while pending != {}
      invariant first in t.deltas && pending <= t.deltas.Keys
      invariant forall r :: r in t.deltas && r !in pending ==> first <= r
    {
      var r :| r in pending;
      pending := pending - {r};
      if r < first {
        first := r;
      }
    }
    return first - 1;
  }

  /** The last delta row of each player after revision `base`, up to revision `upTo`. */
  function Latest(deltas: map<nat, map<string, Delta>>, base: nat, upTo: nat): (r: map<string, Delta>)
    requires base <= upTo
  {
    if base == upTo then map[]
    else Latest(deltas, base, upTo - 1) + (if upTo in deltas then deltas[upTo] else map[])
  }

  lemma ApplyTwice(t: Table, d: map<string, Delta>, e: map<string, Delta>)
    ensures ApplyDelta(ApplyDelta(t, d), e) == ApplyDelta(t, d + e)
  {
  }

  /** Applying only the last row of each player gives the same table as applying every delta in turn. */
  lemma {:induction false} LatestLeadsOn(t: Tables, past: seq<Table>, base: nat, upTo: nat)
    requires Explained(t, past) && base <= upTo <= Revision(t)
    requires forall r :: base < r <= upTo ==> r in t.deltas
    ensures ApplyDelta(past[base], Latest(t.deltas, base, upTo)) == past[upTo]
  {
    hide Contents, DigestOf, ApplyDelta;
    if base == upTo {
      NothingToApply(past[base]);
    } else {
      LatestLeadsOn(t, past, base, upTo - 1);
      ApplyTwice(past[base], Latest(t.deltas, base, upTo - 1), t.deltas[upTo]);
    }
  }

  lemma NothingToApply(t: Table)
    ensures ApplyDelta(t, map[]) == t
  {
  }

  function UpsertsOf(d: map<string, Delta>): (r: Table) {
    map u | u in d && d[u].Upserted? :: d[u].entry
  }

  function RemovalsOf(d: map<string, Delta>): (r: set<string>) {
    set u | u in d && d[u].Removed?
  }

  /** Only players are deleted that the table no longer has, and none that are upserted. */
  ghost predicate OnlyGone(deletes: set<string>, upsert: Table, now: Table) {
    forall u :: u in deletes ==> u !in upsert && u !in now
  }

  lemma SplitDelta(t: Table, d: map<string, Delta>)
    ensures (t - RemovalsOf(d)) + UpsertsOf(d) == ApplyDelta(t, d)
    ensures OnlyGone(RemovalsOf(d), UpsertsOf(d), ApplyDelta(t, d))
  {
  }

  /** Deltas see only what the digest sees: tables with one digest stay so. */
  lemma SameDigestStays(a: Table, b: Table, d: map<string, Delta>)
    requires DigestOf(a) == DigestOf(b)
    ensures DigestOf(ApplyDelta(a, d)) == DigestOf(ApplyDelta(b, d))
  {
    assert a.Keys == DigestOf(a).Keys == b.Keys;
    forall u | u in ApplyDelta(a, d)
      ensures EtagOf(ApplyDelta(a, d)[u]) == EtagOf(ApplyDelta(b, d)[u])
    {
      if u !in d {
        assert DigestOf(a)[u] == DigestOf(b)[u];
      }
    }
  }

  /** When a delta may be sent: the base is a revision of this room, its digest fits, and its deltas are all kept. */
  ghost predicate Usable(t: Tables, past: seq<Table>, base: Option<nat>, digest: Option<Digest>) {
    && base.Some? && base.value < |past|
    && (digest.Some? ==> digest.value == DigestOf(past[base.value]))
    && forall r :: base.value < r < |past| ==> r in t.deltas
  }

  /** The same entry, or none, for every player without a delta row. */
  ghost predicate AgreesOutside(a: Table, b: Table, d: map<string, Delta>) {
    forall u :: u !in d ==> Lookup(a, u) == Lookup(b, u)
  }

  /** Why a delta is refused, if it is. */
  ghost function WhyRefused(t: Tables, past: seq<Table>, base: Option<nat>, digest: Option<Digest>)
    : (r: Option<ResetReason>)
    ensures r.None? <==> Usable(t, past, base, digest)
  {
    if base.None? || base.value >= |past| then Some(BaseUnknown)
    else if digest.Some? && digest.value != DigestOf(past[base.value]) then Some(DigestMismatch)
    else if exists r :: base.value < r < |past| && r !in t.deltas then Some(DeltaExpired)
    else None
  }

  class TabHistoryRoom {
    var head: Option<Head>
    var entries: map<string, Row>
    var deltas: map<nat, map<string, Delta>>
    var revisions: map<nat, Digest>
    ghost var past: seq<Table>

    ghost function State(): (t: Tables)
      reads this
    {
      Tables(head, entries, deltas, revisions)
    }

    ghost predicate Valid()
      reads this
    {
      Explained(State(), past)
    }

    constructor ()
      ensures Valid() && State() == EMPTY && past == [map[]]
    {
      head, entries, deltas, revisions, past := None, map[], map[], map[], [map[]];
      new;
      StartsExplained();
    }

    /** Records a batch of reports; the last report of a player counts. */
    method ReportPlayers(players: seq<PlayerReport>, now: int, priority: int) returns (changed: bool)
      requires Valid()
      modifies this
      ensures Valid() && State() == Advance(old(State()), Report(LastReports(players), now, priority))
      ensures past == Remember(old(past), old(State()), Report(LastReports(players), now, priority))
      ensures changed <==> State() != old(State())
    {
      hide Explained, Contents, Commit, Remember, AcceptedRows;
      ghost var before := State();
      var batch := KeepLast(players);
      ghost var event := Report(batch, now, priority);
      var revision := (if head.Some? then head.value.revision else 0) + 1;
      var rows := AcceptRows(entries, batch, now, priority, revision);
      SameRows(before, event, rows);
      AdvanceKeepsExplanation(before, past, event);
      past := Remember(past, before, event);
      changed := rows != map[];
      if changed {
        CommitAdvances(before, entries + rows, AsUpserts(rows));
        CommitRows(entries + rows, AsUpserts(rows), revision);
      }
    }

    /** Deletes the entries of the given players; reports which there were. */
    method AdminDelete(uuids: set<string>) returns (deleted: set<string>)
      requires Valid()
      modifies this
      ensures Valid() && State() == Advance(old(State()), Delete(uuids))
      ensures past == Remember(old(past), old(State()), Delete(uuids))
      ensures deleted == uuids * old(entries.Keys)
    {
      hide Explained, Contents, Commit, Remember;
      ghost var before := State();
      AdvanceKeepsExplanation(before, past, Delete(uuids));
      past := Remember(past, before, Delete(uuids));
      var rows, delta;
      rows, delta, deleted := RemoveRows(entries, uuids);
      if deleted != {} {
        CommitRows(rows, delta, (if head.Some? then head.value.revision else 0) + 1);
      }
    }

    /** Writes the next revision: its rows, delta rows, head and digest. */
    method CommitRows(rows: map<string, Row>, delta: map<string, Delta>, revision: nat)
      requires revision == Revision(State()) + 1
      modifies `head, `entries, `deltas, `revisions
      ensures State() == Commit(old(State()), rows, delta)
    {
      var digest := DigestOf(Contents(rows));
      entries, deltas := rows, deltas[revision := delta];
      head, revisions := Some(Head(revision, digest)), revisions[revision := digest];
    }

    /** An administrator empties every table of the room. */
    method PurgeRoom()
      modifies this
      ensures Valid() && State() == EMPTY && past == [map[]]
    {
      head, entries, deltas, revisions, past := None, map[], map[], map[], [map[]];
      StartsExplained();
    }

    /**
     Answers a sync request. A delta comes exactly when it was asked for and is usable; it is refused with a reason or
     replaced by a full answer as the request allows.
     */
    method Sync(preferDelta: bool, base: Option<nat>, baseDigest: Option<Digest>, allowFull: bool)
      returns (r: SyncResult)
      requires Valid()
      ensures r.revision == Revision(State()) && r.digest == DigestOf(Contents(entries))
      ensures r.mode.DeltaMode? && r.resetReason.None? <==> preferDelta && Usable(State(), past, base, baseDigest)
      ensures r.mode.Full? <==> !preferDelta || (allowFull && !Usable(State(), past, base, baseDigest))
      ensures r.mode.Full? ==> r.resetReason.None? && forall held :: Synced(held, r) == Contents(entries)
      ensures r.mode.DeltaMode? && r.resetReason.None? ==> Synced(past[base.value], r) == Contents(entries)
      ensures r.mode.DeltaMode? && r.resetReason.None? ==>
                forall held :: DigestOf(held) == DigestOf(past[base.value]) ==> DigestOf(Synced(held, r)) == r.digest
      ensures r.mode.DeltaMode? && r.resetReason.None? ==>
                forall held :: Synced(held, r) == Contents(entries)
                               <==> AgreesOutside(held, past[base.value], Latest(deltas, base.value, r.revision))
      ensures r.mode.DeltaMode? ==> r.resetReason == WhyRefused(State(), past, base, baseDigest)
      ensures r.resetReason.Some? ==> r.upsert == map[] && r.deleteUuids == {}
      ensures OnlyGone(r.deleteUuids, r.upsert, Contents(entries))
    {
      hide Explained, Contents, DigestOf, Usable, WhyRefused, IsOldest, Latest, UpsertsOf, RemovalsOf, AgreesOutside,
           OnlyGone;
      var t := Tables(head, entries, deltas, revisions);
      var revision := if head.Some? then head.value.revision else 0;
      var digest := if head.Some? then head.value.digest else map[];
      HeadIsCurrent(t, past);
      var mode, reason := if preferDelta then DeltaMode else Full, None;
      if preferDelta {
        var oldest := OldestAvailable(t);
        var known := if base == Some(0) then Some(map[])
                     else if base.Some? && base.value in revisions then Some(revisions[base.value]) else None;
        reason := if base.None? || known.None? then Some(BaseUnknown)
                  else if baseDigest.Some? && baseDigest != known then Some(DigestMismatch)
                  else if base.value < oldest then Some(DeltaExpired)
                  else None;
        ReasonExact(t, past, base, baseDigest, known, oldest);
        if reason.Some? && allowFull {
          mode, reason := Full, None;
        }
      }
      var upsert: Table, deletes: set<string> := map[], {};
      if mode.Full? {
        upsert := Contents(entries);
      } else if reason.None? {
        UsableBase(t, past, base, baseDigest);
        var latest := CollectLatest(deltas, base.value, revision);
        upsert, deletes := UpsertsOf(latest), RemovalsOf(latest);
        DeltaSyncs(t, past, base, baseDigest, latest);
      }
      NobodyDeleted(upsert, Contents(entries));
      r := SyncResult(mode, revision, digest, upsert, deletes, reason);
    }
  }

  lemma NobodyDeleted(upsert: Table, now: Table)
    ensures OnlyGone({}, upsert, now)
  {
  }

  function LastReports(players: seq<PlayerReport>): (r: map<string, Player>) {
    if players == [] then map[]
    else LastReports(players[..|players| - 1])[players[|players| - 1].uuid := players[|players| - 1].player]
  }

  method KeepLast(players: seq<PlayerReport>) returns (batch: map<string, Player>)
    ensures batch == LastReports(players)
  {
    batch := map[];
    for i := 0 to |players|
      invariant batch == LastReports(players[..i])
    {
      assert players[..i + 1][..i] == players[..i];
      batch := batch[players[i].uuid := players[i].player];
    }
    assert players[..|players|] == players;
  }

  method AcceptRows(entries: map<string, Row>, batch: map<string, Player>, now: int, priority: int, revision: nat)
    returns (rows: map<string, Row>)
    ensures forall u :: Lookup(rows, u) == if u in batch
                                           then Reported(Lookup(entries, u), batch[u], now, priority, revision)
                                           else None
  {
    hide Reported;
    rows := map[];
    var pending := batch.Keys;
    while pending != {}
      invariant pending <= batch.Keys
      invariant forall u :: Lookup(rows, u) == if u in batch && u !in pending
                                               then Reported(Lookup(entries, u), batch[u], now, priority, revision)
                                               else None
    {
      var u :| u in pending;
      pending := pending - {u};
      var row := Reported(Lookup(entries, u), batch[u], now, priority, revision);
      if row.Some? {
        rows := rows[u := row.value];
      }
    }
  }

  lemma SameRows(t: Tables, e: Event, rows: map<string, Row>)
    requires e.Report?
    requires forall u :: Lookup(rows, u) ==
                         if u in e.players
                         then Reported(Lookup(t.entries, u), e.players[u], e.now, e.priority, Revision(t) + 1) else None
    ensures rows == AcceptedRows(t, e)
  {
    hide Reported;
    forall u
      ensures Lookup(rows, u) == Lookup(AcceptedRows(t, e), u)
    {
    }
    SameLookups(rows, AcceptedRows(t, e));
  }

  method RemoveRows(entries: map<string, Row>, uuids: set<string>)
    returns (rows: map<string, Row>, delta: map<string, Delta>, deleted: set<string>)
    ensures deleted == uuids * entries.Keys && rows == entries - deleted && delta == AsRemovals(deleted)
  {
    rows, delta, deleted := entries, map[], {};
    var pending := uuids;
    while pending != {}
      invariant pending <= uuids && deleted == (uuids - pending) * entries.Keys
      invariant rows == entries - deleted && delta == AsRemovals(deleted)
    {
      var u :| u in pending;
      pending := pending - {u};
      if u in rows {
        rows, delta, deleted := rows - {u}, delta[u := Removed], deleted + {u};
      }
    }
  }

  /** One pass over the delta rows after `base`, in the order of their revisions. */
  method CollectLatest(deltas: map<nat, map<string, Delta>>, base: nat, revision: nat)
    returns (latest: map<string, Delta>)
    requires base <= revision
    ensures latest == Latest(deltas, base, revision)
  {
    latest := map[];
    for i := base to revision
      invariant latest == Latest(deltas, base, i)
    {
      if i + 1 in deltas {
        latest := latest + deltas[i + 1];
      }
    }
  }

  lemma HeadIsCurrent(t: Tables, past: seq<Table>)
    requires Explained(t, past)
    ensures (if t.head.Some? then t.head.value.digest else map[]) == DigestOf(Contents(t.entries))
    ensures forall r :: r in t.deltas ==> 0 < r
  {
    if t.head.None? {
      assert DigestOf(past[0]) == map[];
    }
  }

  lemma ReasonExact(
    t: Tables, past: seq<Table>, base: Option<nat>, digest: Option<Digest>, known: Option<Digest>, oldest: nat)
    requires Explained(t, past) && IsOldest(t, oldest)
    requires known == if base == Some(0) then Some(map[])
                      else if base.Some? then Lookup(t.revisions, base.value) else None
    ensures WhyRefused(t, past, base, digest)
            == if base.None? || known.None? then Some(BaseUnknown)
               else if digest.Some? && digest != known then Some(DigestMismatch)
               else if base.value < oldest then Some(DeltaExpired)
               else None
  {
    hide IsOldest, DeltasRecorded, Contents;
    assert DigestOf(past[0]) == map[];
    if base.Some? && known.Some? {
      CoversFromOldest(t, past, base.value, oldest);
    }
  }

  lemma CoversFromOldest(t: Tables, past: seq<Table>, base: nat, oldest: nat)
    requires Explained(t, past) && IsOldest(t, oldest) && base < |past|
    ensures base >= oldest <==> forall r :: base < r < |past| ==> r in t.deltas
  {
    hide DigestsRecorded, Contents, ApplyDelta;
    if base < oldest && oldest < |past| {
      assert base + 1 in t.deltas ==> oldest < base + 1;
    }
  }

  lemma UsableBase(t: Tables, past: seq<Table>, base: Option<nat>, digest: Option<Digest>)
    requires Explained(t, past) && Usable(t, past, base, digest)
    ensures base.Some? && base.value <= Revision(t) && |past| == Revision(t) + 1
  {
  }

  lemma DeltaSyncs(
    t: Tables, past: seq<Table>, base: Option<nat>, digest: Option<Digest>, latest: map<string, Delta>)
    requires Explained(t, past) && Usable(t, past, base, digest)
    requires base.value <= Revision(t) && latest == Latest(t.deltas, base.value, Revision(t))
    ensures (past[base.value] - RemovalsOf(latest)) + UpsertsOf(latest) == Contents(t.entries)
    ensures OnlyGone(RemovalsOf(latest), UpsertsOf(latest), Contents(t.entries))
    ensures forall held: Table :: (held - RemovalsOf(latest)) + UpsertsOf(latest) == Contents(t.entries)
                           <==> AgreesOutside(held, past[base.value], latest)
    ensures forall held :: DigestOf(held) == DigestOf(past[base.value]) ==>
                             DigestOf((held - RemovalsOf(latest)) + UpsertsOf(latest)) == DigestOf(Contents(t.entries))
  {
    hide Contents, DigestOf, UpsertsOf, RemovalsOf, ApplyDelta, AgreesOutside, OnlyGone;
    var start := past[base.value];
    LatestLeadsOn(t, past, base.value, Revision(t));
    SplitDelta(start, latest);
    forall held: Table | DigestOf(held) == DigestOf(start)
      ensures DigestOf((held - RemovalsOf(latest)) + UpsertsOf(latest)) == DigestOf(Contents(t.entries))
    {
      SplitDelta(held, latest);
      SameDigestStays(held, start, latest);
    }
    forall held: Table
      ensures (held - RemovalsOf(latest)) + UpsertsOf(latest) == Contents(t.entries)
              <==> AgreesOutside(held, start, latest)
    {
      SplitDelta(held, latest);
      SameAfterDelta(held, start, latest);
    }
  }

  /** A delta takes two tables to one exactly if they agree where it is silent. */
  lemma SameAfterDelta(a: Table, b: Table, d: map<string, Delta>)
    ensures ApplyDelta(a, d) == ApplyDelta(b, d) <==> AgreesOutside(a, b, d)
  {
    forall u
      ensures Lookup(ApplyDelta(a, d), u) == Lookup(ApplyDelta(b, d), u) <==> u in d || Lookup(a, u) == Lookup(b, u)
    {
    }
    if AgreesOutside(a, b, d) {
      SameLookups(ApplyDelta(a, d), ApplyDelta(b, d));
    }
  }

  /**
   A client whose table is newer than the revision it was told, as when rows were read after the head, is brought up to
   date by the next delta all the same.
   */
  lemma LateRowsHeal(t: Tables, past: seq<Table>, base: nat, at: nat)
    requires Explained(t, past) && base <= at <= Revision(t)
    requires forall r :: base < r < |past| ==> r in t.deltas
    ensures ApplyDelta(past[at], Latest(t.deltas, base, Revision(t))) == Contents(t.entries)
  {
    hide Contents, DigestOf, AgreesOutside, ApplyDelta;
    LatestLeadsOn(t, past, base, Revision(t));
    LaterTablesAgree(t, past, base, at);
    SameAfterDelta(past[at], past[base], Latest(t.deltas, base, Revision(t)));
  }

  lemma LaterTablesAgree(t: Tables, past: seq<Table>, base: nat, at: nat)
    requires Explained(t, past) && base <= at <= Revision(t)
    requires forall r :: base < r < |past| ==> r in t.deltas
    ensures AgreesOutside(past[at], past[base], Latest(t.deltas, base, Revision(t)))
  {
    hide Contents, DigestOf;
    LatestLeadsOn(t, past, base, at);
    forall u | u !in Latest(t.deltas, base, Revision(t))
      ensures Lookup(past[at], u) == Lookup(past[base], u)
    {
      LatestGrows(t.deltas, base, at, Revision(t), u);
    }
  }

  lemma {:induction false} LatestGrows(deltas: map<nat, map<string, Delta>>, base: nat, at: nat, upTo: nat, u: string)
    requires base <= at <= upTo
    ensures u in Latest(deltas, base, at) ==> u in Latest(deltas, base, upTo)
  {
    if at < upTo {
      LatestGrows(deltas, base, at, upTo - 1, u);
    }
  }

  // ---------------------------------------------------------------- sync over runs

  /** Without a purge the history only grows. */
  lemma {:induction false} HistoryGrows(ts: seq<Tables>, es: seq<Event>, past: seq<Table>) returns (now: seq<Table>)
    requires IsRun(ts, es) && Explained(ts[0], past) && forall i :: 0 <= i < |es| ==> !es[i].Purge?
    ensures past <= now && Explained(ts[|es|], now)
  {
    hide Explained, Advance;
    if es == [] {
      now := past;
    } else {
      AdvanceKeepsExplanation(ts[0], past, es[0]);
      assert IsRun(ts[1..], es[1..]);
      now := HistoryGrows(ts[1..], es[1..], Remember(past, ts[0], es[0]));
    }
  }

  /**
   A client that took the whole table at some moment and, after any reports and deletions, asks for the delta since then
   gets it, whether it names the digest or not, and holds the table of the later moment. Old delta rows may be gone, as
   long as the base is not older than the oldest.
   */
  lemma DeltaSyncsAcrossRuns(ts: seq<Tables>, es: seq<Event>, past: seq<Table>, t: Tables, oldest: nat)
    returns (now: seq<Table>)
    requires IsRun(ts, es) && Explained(ts[0], past) && forall i :: 0 <= i < |es| ==> !es[i].Purge?
    requires IsTrimmed(ts[|es|], t) && IsOldest(t, oldest) && oldest <= Revision(ts[0])
    ensures Revision(ts[0]) <= Revision(t) && Explained(t, now)
    ensures Usable(t, now, Some(Revision(ts[0])), None)
    ensures Usable(t, now, Some(Revision(ts[0])), Some(DigestOf(Contents(ts[0].entries))))
    ensures ApplyDelta(Contents(ts[0].entries), Latest(t.deltas, Revision(ts[0]), Revision(t))) == Contents(t.entries)
  {
    hide Contents, ApplyDelta, IsOldest, DigestsRecorded, DeltasRecorded, Latest;
    now := HistoryGrows(ts, es, past);
    TrimmingKeepsExplanation(ts[|es|], t, now);
    CoversFromOldest(t, now, Revision(ts[0]), oldest);
    LatestLeadsOn(t, now, Revision(ts[0]), Revision(t));
  }

  /**
   After a purge a base revision alone does not identify a table: a client that kept revision 1 from before the purge,
   and sends no digest, is answered with a delta that leaves it with the wrong table. Its digest gives it away.
   */
  lemma PurgeNeedsDigest(u: string, p: Player, q: Player, now: int, priority: int)
    requires p != q && Persisted(p) == p && Persisted(q) == q
    ensures var kept := Advance(EMPTY, Report(map[u := p], now, priority));
            var t := Advance(Advance(kept, Purge), Report(map[u := q], now, priority));
            var past := [map[], Contents(t.entries)];
            && Explained(t, past) && Revision(kept) == Revision(t) == 1
            && Usable(t, past, Some(1), None)
            && ApplyDelta(Contents(kept.entries), Latest(t.deltas, 1, 1)) != Contents(t.entries)
            && !Usable(t, past, Some(1), Some(DigestOf(Contents(kept.entries))))
  {
    hide Explained, Advance, Persisted;
    var first, second := Report(map[u := p], now, priority), Report(map[u := q], now, priority);
    var kept, t := Advance(EMPTY, first), Advance(EMPTY, second);
    PurgeEmpties(kept);
    FirstReport(u, p, now, priority);
    FirstReport(u, q, now, priority);
    StartsExplained();
    AdvanceKeepsExplanation(EMPTY, [map[]], second);
    assert Remember([map[]], EMPTY, second) == [map[], Contents(t.entries)];
    NothingToApply(Contents(kept.entries));
    assert DigestOf(Contents(kept.entries))[u].player == p;
    assert DigestOf(Contents(t.entries))[u].player == q;
  }

  lemma PurgeEmpties(t: Tables)
    ensures Advance(t, Purge) == EMPTY
  {
  }

  lemma FirstReport(u: string, p: Player, now: int, priority: int)
    requires Persisted(p) == p
    ensures var row := Row(Entry(p, now, now, 1), priority);
            Advance(EMPTY, Report(map[u := p], now, priority))
            == Commit(EMPTY, map[u := row], map[u := Upserted(row.entry)])
  {
    hide LabelQuality, Commit;
    var row := Row(Entry(p, now, now, 1), priority);
    var e := Report(map[u := p], now, priority);
    assert AcceptedRows(EMPTY, e) == map[u := row] && u in AcceptedRows(EMPTY, e);
    assert EMPTY.entries + AcceptedRows(EMPTY, e) == map[u := row];
    assert AsUpserts(map[u := row]) == map[u := Upserted(row.entry)];
  }
}
