/**
 Source arbitration: which of the sources reporting an object is shown. Times are milliseconds.

 A candidate carries what the arbitration asks about its source in this round: its priority for the object and whether
 it is an external source. The sources of one bucket are distinct.
 */
module Arbitration {
  import opened Prelude

  const GAME_TAKEOVER_DELAY := 500
  const SWITCH_THRESHOLD := 350

  datatype Candidate = Candidate(source: string, receivedAt: nat, priority: int, external: bool)

  type Bucket = set<Candidate>

  ghost predicate DistinctSources(b: Bucket) {
    forall c, d :: c in b && d in b && c.source == d.source ==> c == d
  }

  function Elements(s: seq<Candidate>): (r: Bucket) {
    set c | c in s
  }

  function Games(b: Bucket): (r: Bucket) {
    set c | c in b && !c.external
  }

  function Externals(b: Bucket): (r: Bucket) {
    set c | c in b && c.external
  }

  // ---------------------------------------------------------------- the best candidate

  /** Strictly better: by priority where it counts, then the later report, then the smaller source id. */
  predicate Beats(byPriority: bool, a: Candidate, b: Candidate) {
    if byPriority && a.priority != b.priority then a.priority > b.priority
    else if a.receivedAt != b.receivedAt then a.receivedAt > b.receivedAt
    else StringLess(a.source, b.source)
  }

  lemma BeatsTotal(byPriority: bool, a: Candidate, b: Candidate)
    requires a.source != b.source
    ensures Beats(byPriority, a, b) <==> !Beats(byPriority, b, a)
  {
    StringLessTotal(a.source, b.source);
  }

  lemma BeatsTransitive(byPriority: bool, a: Candidate, b: Candidate, c: Candidate)
    requires Beats(byPriority, a, b) && Beats(byPriority, b, c)
    ensures Beats(byPriority, a, c)
  {
    if a.receivedAt == b.receivedAt == c.receivedAt && (!byPriority || a.priority == b.priority == c.priority) {
      StringLessTransitive(a.source, b.source, c.source);
    }
  }

  /** `c` is in the bucket and beats everything else there. */
  ghost predicate IsBest(byPriority: bool, b: Bucket, c: Candidate) {
    c in b && forall d :: d in b && d != c ==> Beats(byPriority, c, d)
  }

  /** The maximum of a bucket, as a left-to-right scan finds it. */
  method MaxBy(byPriority: bool, s: seq<Candidate>) returns (r: Option<Candidate>)
    requires DistinctSources(Elements(s))
    ensures r.None? <==> Elements(s) == {}
    ensures r.Some? ==> r.value in s && IsBest(byPriority, Elements(s), r.value)
  {
    hide IsBest;
    r := None;
    assert s != [] ==> s[0] in Elements(s);
    for i := 0 to |s|
      invariant r.None? <==> i == 0
      invariant r.Some? ==> r.value in s && IsBest(byPriority, Elements(s[..i]), r.value)
    {
      assert Elements(s[..i + 1]) == Elements(s[..i]) + {s[i]} by {
        assert s[..i + 1] == s[..i] + [s[i]];
      }
      if r.Some? {
        ScanStep(byPriority, Elements(s), Elements(s[..i]), r.value, s[i]);
      } else {
        ScanStart(byPriority, s[i]);
      }
      if r.None? || !Beats(byPriority, r.value, s[i]) {
        r := Some(s[i]);
      }
    }
    assert s[..|s|] == s;
  }

  lemma ScanStart(byPriority: bool, only: Candidate)
    ensures IsBest(byPriority, Elements([]) + {only}, only)
  {
  }

  lemma ScanStep(byPriority: bool, all: Bucket, b: Bucket, best: Candidate, next: Candidate)
    requires DistinctSources(all) && b + {next} <= all && IsBest(byPriority, b, best)
    ensures IsBest(byPriority, b + {next}, if Beats(byPriority, best, next) then best else next)
  {
    if best != next {
      BeatsTotal(byPriority, best, next);
      if !Beats(byPriority, best, next) {
        forall d | d in b && d != best
          ensures Beats(byPriority, next, d)
        {
          BeatsTransitive(byPriority, next, best, d);
        }
      }
    }
  }

  lemma BestIsUnique(byPriority: bool, b: Bucket, c: Candidate, d: Candidate)
    requires DistinctSources(b) && IsBest(byPriority, b, c) && IsBest(byPriority, b, d)
    ensures c == d
  {
    if c != d {
      BeatsTotal(byPriority, c, d);
    }
  }

  /**
   The best candidate, said without a comparison of two: nothing has a higher priority, where priorities count; among
   those of its priority nothing is newer; and among those as new nothing has a smaller source id.
   */
  lemma BestExact(byPriority: bool, b: Bucket, c: Candidate)
    requires DistinctSources(b) && c in b
    ensures IsBest(byPriority, b, c) <==>
            && (byPriority ==> forall d :: d in b ==> d.priority <= c.priority)
            && (forall d :: d in b && (byPriority ==> d.priority == c.priority) ==> d.receivedAt <= c.receivedAt)
            && forall d :: d in b && (byPriority ==> d.priority == c.priority) && d.receivedAt == c.receivedAt ==>
                             d == c || StringLess(c.source, d.source)
  {
    forall d | d in b && d != c
      ensures Beats(byPriority, c, d) <==>
              if byPriority && d.priority != c.priority then d.priority < c.priority
              else d.receivedAt < c.receivedAt
                   || (d.receivedAt == c.receivedAt && StringLess(c.source, d.source))
    {
    }
  }

  lemma BestIsIn(b: Bucket, best: Candidate)
    requires IsBest(true, b, best)
    ensures best in b
  {
  }

  lemma BestHasTopPriority(b: Bucket, best: Candidate, c: Candidate)
    requires IsBest(true, b, best) && c in b
    ensures best.priority >= c.priority
  {
  }

  /** The candidate of a given source, if present. */
  method Find(s: seq<Candidate>, source: Option<string>) returns (r: Option<Candidate>)
    ensures r.Some? ==> r.value in s && source == Some(r.value.source)
    ensures r.None? ==> forall c :: c in s ==> source != Some(c.source)
  {
    if source.Some? {
      for i := 0 to |s|
        invariant forall c :: c in s[..i] ==> c.source != source.value
      {
        if s[i].source == source.value {
          return Some(s[i]);
        }
        assert s[..i + 1] == s[..i] + [s[i]];
      }
      assert s[..|s|] == s;
    }
    return None;
  }

  /** The game or the external candidates of a bucket, in order. */
  method Filter(s: seq<Candidate>, external: bool) returns (r: seq<Candidate>)
    ensures Elements(r) == if external then Externals(Elements(s)) else Games(Elements(s))
  {
    r := [];
    for i := 0 to |s|
      invariant forall c :: c in r <==> c in s[..i] && c.external == external
    {
      assert s[..i + 1] == s[..i] + [s[i]];
      if s[i].external == external {
        r := r + [s[i]];
      }
    }
    assert s[..|s|] == s;
  }

  // ---------------------------------------------------------------- players: external sources against game sources

  /** The memory of one object: its selected source, and since when each present game source has been seen. */
  datatype Memory = Memory(selected: Option<string>, seenSince: map<string, nat>)

  const FORGOTTEN := Memory(None, map[])

  function FirstSeen(m: Memory, now: nat, source: string): (r: nat) {
    if source in m.seenSince then m.seenSince[source] else now
  }

  /** The presence record after a round: present game sources keep their start or get the current time. */
  function Presence(m: Memory, now: nat, b: Bucket): (r: map<string, nat>)
    ensures forall g :: g in r <==> exists c :: c in b && !c.external && c.source == g
    ensures forall g :: g in r ==> r[g] == FirstSeen(m, now, g)
  {
    map c | c in b && !c.external :: c.source := FirstSeen(m, now, c.source)
  }

  /** The selected source still reports the object, from a game or from outside. */
  predicate Holds(m: Memory, b: Bucket, held: Candidate) {
    held in b && m.selected == Some(held.source)
  }

  /** Why a round may show an external candidate. */
  ghost predicate ShowsExternal(m: Memory, now: nat, b: Bucket, c: Candidate) {
    && c in b && c.external
    && (forall held :: held in b && m.selected == Some(held.source) ==> held == c)
    && (m.selected == Some(c.source) || IsBest(false, Externals(b), c))
    && forall g :: IsBest(true, Games(b), g) ==> Elapsed(now, FirstSeen(m, now, g.source)) < GAME_TAKEOVER_DELAY
  }

  /** Why a round may show a game candidate. */
  ghost predicate ShowsGame(m: Memory, now: nat, b: Bucket, c: Candidate) {
    && c in b && !c.external
    && if m.selected == Some(c.source) then forall g :: g in Games(b) ==> g.priority <= c.priority
       else
         && IsBest(true, Games(b), c)
         && (|| (exists held :: held in Games(b) && m.selected == Some(held.source) && held.priority < c.priority)
             || ((forall held :: held in Games(b) ==> m.selected != Some(held.source))
                 && (Externals(b) == {} || Elapsed(now, FirstSeen(m, now, c.source)) >= GAME_TAKEOVER_DELAY)))
  }

  /** What a round decides for one object: its new memory and the candidate shown. */
  ghost predicate Decides(m: Memory, now: nat, b: Bucket, after: Memory, shown: Option<Candidate>) {
    if b == {} then shown.None? && after == FORGOTTEN
    else
      && shown.Some? && after == Memory(Some(shown.value.source), Presence(m, now, b))
      && if shown.value.external then ShowsExternal(m, now, b, shown.value) else ShowsGame(m, now, b, shown.value)
  }

  /** One object's arbitration, as the relay runs it. */
  method ResolveOne(m: Memory, now: nat, bucket: seq<Candidate>) returns (after: Memory, shown: Option<Candidate>)
    requires DistinctSources(Elements(bucket))
    ensures Decides(m, now, Elements(bucket), after, shown)
  {
    hide IsBest;
    var externals := Filter(bucket, true);
    var games := Filter(bucket, false);
    var b := Elements(bucket);
    var kept := Find(externals, m.selected);
    var latest := MaxBy(false, externals);
    var bestExternal := if kept.Some? then kept else latest;
    var bestGame := MaxBy(true, games);
    var current := Find(games, m.selected);
    MembersAre(bucket, externals, games);
    match (bestExternal, bestGame, current) {
      case (_, Some(best), Some(held)) =>
        HeldOrBest(m, now, b, best, held);
        shown := if best.priority > held.priority then bestGame else current;
      case (Some(external), Some(best), None) =>
        OnlyBest(b, best);
        shown := if Elapsed(now, FirstSeen(m, now, best.source)) >= GAME_TAKEOVER_DELAY then bestGame else bestExternal;
      case (Some(external), None, _) =>
        NoBest(b);
        shown := bestExternal;
      case (None, Some(best), None) =>
        shown := bestGame;
      case (None, None, _) =>
        assert b == Games(b) + Externals(b);
        return FORGOTTEN, None;
    }
    after := Memory(Some(shown.value.source), Presence(m, now, b));
  }

  lemma MembersAre(bucket: seq<Candidate>, externals: seq<Candidate>, games: seq<Candidate>)
    requires Elements(externals) == Externals(Elements(bucket)) && Elements(games) == Games(Elements(bucket))
    ensures forall c :: c in externals <==> c in Elements(bucket) && c.external
    ensures forall c :: c in games <==> c in Elements(bucket) && !c.external
  {
    assert forall c :: c in externals <==> c in Elements(externals);
    assert forall c :: c in games <==> c in Elements(games);
  }

  lemma HeldOrBest(m: Memory, now: nat, b: Bucket, best: Candidate, held: Candidate)
    requires DistinctSources(b) && IsBest(true, Games(b), best) && held in Games(b) && m.selected == Some(held.source)
    ensures ShowsGame(m, now, b, if best.priority > held.priority then best else held)
  {
  }

  lemma OnlyBest(b: Bucket, best: Candidate)
    requires DistinctSources(b) && IsBest(true, Games(b), best)
    ensures forall g :: IsBest(true, Games(b), g) ==> g == best
  {
    forall g | IsBest(true, Games(b), g)
      ensures g == best
    {
      BestIsUnique(true, Games(b), g, best);
    }
  }

  lemma NoBest(b: Bucket)
    requires Games(b) == {}
    ensures forall g :: !IsBest(true, Games(b), g)
  {
  }

  /** The selections of all objects of a room scope. */
  class PlayerSourceSelections {
    var selectedSources: map<string, string>
    var gameSeenSince: map<string, map<string, nat>>

    ghost function MemoryOf(o: string): (m: Memory)
      reads this
    {
      Memory(Lookup(selectedSources, o), if o in gameSeenSince then gameSeenSince[o] else map[])
    }

    constructor ()
      ensures forall o :: MemoryOf(o) == FORGOTTEN
    {
      selectedSources, gameSeenSince := map[], map[];
    }

    /** Arbitrates every object with candidates and forgets all others. */
    method Resolve(candidates: map<string, seq<Candidate>>, now: nat) returns (resolved: map<string, Candidate>)
      requires forall o :: o in candidates ==> DistinctSources(Elements(candidates[o]))
      modifies this
      ensures forall o :: Decides(old(MemoryOf(o)), now, if o in candidates then Elements(candidates[o]) else {},
                                  MemoryOf(o), Lookup(resolved, o))
    {
      hide Decides, DistinctSources, Elements;
      resolved := map[];
      var nextSelected: map<string, string> := map[];
      var nextSeen: map<string, map<string, nat>> := map[];
      var pending := candidates.Keys;
      while pending != {}
        invariant pending <= candidates.Keys
        invariant unchanged(this)
        invariant forall o :: o !in candidates || o in pending ==> o !in resolved && o !in nextSelected
        invariant forall o :: o !in candidates || o in pending ==> o !in nextSeen
        invariant forall o :: o in candidates && o !in pending ==>
                    Decides(old(MemoryOf(o)), now, Elements(candidates[o]),
                            Memory(Lookup(nextSelected, o), if o in nextSeen then nextSeen[o] else map[]),
                            Lookup(resolved, o))
      {
        var o :| o in pending;
        pending := pending - {o};
        var m := Memory(if o in selectedSources then Some(selectedSources[o]) else None,
                        if o in gameSeenSince then gameSeenSince[o] else map[]);
        var after, shown := ResolveOne(m, now, candidates[o]);
        MemoryFollowsChoice(m, now, Elements(candidates[o]), after, shown);
        if shown.Some? {
          nextSelected := nextSelected[o := shown.value.source];
          nextSeen := nextSeen[o := after.seenSince];
          resolved := resolved[o := shown.value];
        }
      }
      forall o | o !in candidates
        ensures Decides(old(MemoryOf(o)), now, {}, FORGOTTEN, None)
      {
        NothingToDecide(old(MemoryOf(o)), now);
      }
      // An empty presence record is the same as none, so dropping it is not visible in MemoryOf.
      selectedSources, gameSeenSince := nextSelected, map o | o in nextSeen && nextSeen[o] != map[] :: nextSeen[o];
    }
  }

  lemma MemoryFollowsChoice(m: Memory, now: nat, b: Bucket, after: Memory, shown: Option<Candidate>)
    requires Decides(m, now, b, after, shown)
    ensures shown.None? ==> after == FORGOTTEN
    ensures shown.Some? ==> after.selected == Some(shown.value.source)
  {
  }

  lemma NothingToDecide(m: Memory, now: nat)
    ensures Decides(m, now, {}, FORGOTTEN, None)
  {
  }

  // ---------------------------------------------------------------- one round

  /**
   A round's outcome depends on the memory, the time and which candidates there are, and on nothing else: neither the
   order in which the sources are listed nor the order of a scan can be seen.
   */
  lemma OrderIndependent(
    m: Memory, now: nat, b: Bucket, m1: Memory, c1: Option<Candidate>, m2: Memory, c2: Option<Candidate>)
    requires DistinctSources(b) && Decides(m, now, b, m1, c1) && Decides(m, now, b, m2, c2)
    ensures m1 == m2 && c1 == c2
  {
    hide IsBest;
    if b != {} {
      if c1.value.external && c2.value.external {
        if m.selected != Some(c1.value.source) && m.selected != Some(c2.value.source) {
          BestIsUnique(false, Externals(b), c1.value, c2.value);
        }
      } else if !c1.value.external && !c2.value.external {
        OneGame(m, now, b, c1.value, c2.value);
      } else if c1.value.external {
        GameExcludesExternal(m, now, b, c2.value, c1.value);
      } else {
        GameExcludesExternal(m, now, b, c1.value, c2.value);
      }
    }
  }

  lemma OneGame(m: Memory, now: nat, b: Bucket, c: Candidate, d: Candidate)
    requires DistinctSources(b) && ShowsGame(m, now, b, c) && ShowsGame(m, now, b, d)
    ensures c == d
  {
    hide IsBest;
    if m.selected != Some(c.source) && m.selected != Some(d.source) {
      BestIsUnique(true, Games(b), c, d);
    }
  }

  lemma GameExcludesExternal(m: Memory, now: nat, b: Bucket, c: Candidate, d: Candidate)
    requires DistinctSources(b) && ShowsGame(m, now, b, c)
    ensures !ShowsExternal(m, now, b, d)
  {
    hide IsBest;
    assert d in b && d.external ==> d in Externals(b);
    if m.selected == Some(c.source) {
      assert d.external ==> c != d;
    }
  }

  /** Deciding again at the same time, with the same candidates, changes nothing. */
  lemma DecidingAgainKeepsTheChoice(
    m: Memory, now: nat, b: Bucket, m1: Memory, c1: Option<Candidate>, m2: Memory, c2: Option<Candidate>)
    requires DistinctSources(b) && Decides(m, now, b, m1, c1) && Decides(m1, now, b, m2, c2)
    ensures m2 == m1 && c2 == c1
  {
    hide IsBest, Presence;
    if b != {} {
      SamePresence(m, now, b, c1.value.source);
      if c1.value.external {
        ExternalAgain(m, now, b, c1.value);
      } else {
        GameAgain(m, now, b, c1.value);
      }
      OrderIndependent(m1, now, b, m1, c1, m2, c2);
    }
  }

  lemma SamePresence(m: Memory, now: nat, b: Bucket, selected: string)
    ensures Presence(Memory(Some(selected), Presence(m, now, b)), now, b) == Presence(m, now, b)
  {
  }

  lemma ExternalAgain(m: Memory, now: nat, b: Bucket, c: Candidate)
    requires DistinctSources(b) && ShowsExternal(m, now, b, c)
    ensures ShowsExternal(Memory(Some(c.source), Presence(m, now, b)), now, b, c)
  {
  }

  lemma GameAgain(m: Memory, now: nat, b: Bucket, c: Candidate)
    requires ShowsGame(m, now, b, c)
    ensures ShowsGame(Memory(Some(c.source), Presence(m, now, b)), now, b, c)
  {
  }

  /** An object shows something exactly when it has candidates, and then one of them. */
  lemma ShowsACandidate(m: Memory, now: nat, b: Bucket, after: Memory, shown: Option<Candidate>)
    requires Decides(m, now, b, after, shown)
    ensures shown.None? <==> b == {}
    ensures shown.Some? ==> shown.value in b
  {
  }

  /** An external candidate newly shown is the latest of all external ones; among several, that of the smallest id. */
  lemma NewExternalIsLatest(m: Memory, now: nat, b: Bucket, after: Memory, shown: Option<Candidate>, d: Candidate)
    requires DistinctSources(b) && Decides(m, now, b, after, shown)
    requires shown.Some? && shown.value.external && m.selected != Some(shown.value.source)
    requires d in b && d.external
    ensures d.receivedAt <= shown.value.receivedAt
    ensures d.receivedAt == shown.value.receivedAt ==> d == shown.value || StringLess(shown.value.source, d.source)
  {
    hide IsBest;
    assert d in Externals(b);
    BestExact(false, Externals(b), shown.value);
  }

  /** A game candidate newly shown has top priority, is the latest of those, and among several has the smallest id. */
  lemma NewGameIsTop(m: Memory, now: nat, b: Bucket, after: Memory, shown: Option<Candidate>, d: Candidate)
    requires DistinctSources(b) && Decides(m, now, b, after, shown)
    requires shown.Some? && !shown.value.external && m.selected != Some(shown.value.source)
    requires d in b && !d.external
    ensures d.priority <= shown.value.priority
    ensures d.priority == shown.value.priority ==> d.receivedAt <= shown.value.receivedAt
    ensures d.priority == shown.value.priority && d.receivedAt == shown.value.receivedAt ==>
              d == shown.value || StringLess(shown.value.source, d.source)
  {
    hide IsBest;
    assert d in Games(b);
    BestExact(true, Games(b), shown.value);
  }

  /** A selected external source that still reports keeps the object unless a game source takes over. */
  lemma SelectedExternalStays(m: Memory, now: nat, b: Bucket, after: Memory, shown: Option<Candidate>, held: Candidate)
    requires DistinctSources(b) && Decides(m, now, b, after, shown) && Holds(m, b, held) && held.external
    ensures shown.Some? && (shown.value == held || !shown.value.external)
  {
    hide IsBest;
  }

  /** A selected game source that is still present yields only to a game source of strictly higher priority. */
  lemma GameYieldsUpwardsOnly(m: Memory, now: nat, b: Bucket, after: Memory, shown: Option<Candidate>, held: Candidate)
    requires DistinctSources(b) && Decides(m, now, b, after, shown)
    requires Holds(m, b, held) && !held.external
    ensures shown.Some? && !shown.value.external
    ensures shown.value == held || shown.value.priority > held.priority
    ensures shown.value == held <==> forall g :: g in b && !g.external ==> g.priority <= held.priority
  {
  }

  // ---------------------------------------------------------------- runs

  datatype Round = Round(now: nat, bucket: Bucket)

  /** The rounds one object goes through, its memory before each and what each shows; time never goes back. */
  ghost predicate IsRun(rounds: seq<Round>, ms: seq<Memory>, shown: seq<Option<Candidate>>) {
    && |ms| == |rounds| + 1 && |shown| == |rounds| && ms[0] == FORGOTTEN
    && (forall i :: 0 <= i < |rounds| ==> DistinctSources(rounds[i].bucket))
    && (forall i, j :: 0 <= i < j < |rounds| ==> rounds[i].now <= rounds[j].now)
    && forall i :: 0 <= i < |rounds| ==> Decides(ms[i], rounds[i].now, rounds[i].bucket, ms[i + 1], shown[i])
  }

  predicate PlaysIn(r: Round, source: string) {
    exists c :: c in r.bucket && !c.external && c.source == source
  }

  /** A game source reported the object in every round from `j` to `i`. */
  predicate PresentThroughout(rounds: seq<Round>, j: nat, i: nat, source: string)
    requires j <= i < |rounds|
  {
    forall k :: j <= k <= i ==> PlaysIn(rounds[k], source)
  }

  /** The first round of the unbroken presence that reaches round `i`. */
  function StreakStart(rounds: seq<Round>, i: nat, source: string): (j: nat)
    requires i < |rounds| && PlaysIn(rounds[i], source)
    ensures j <= i && PresentThroughout(rounds, j, i, source)
    ensures j > 0 ==> !PlaysIn(rounds[j - 1], source)
  {
    if i == 0 || !PlaysIn(rounds[i - 1], source) then i else StreakStart(rounds, i - 1, source)
  }

  lemma DecidesPresence(m: Memory, now: nat, b: Bucket, after: Memory, shown: Option<Candidate>, source: string)
    requires Decides(m, now, b, after, shown)
    ensures source in after.seenSince <==> PlaysIn(Round(now, b), source)
    ensures source in after.seenSince ==> after.seenSince[source] == FirstSeen(m, now, source)
  {
  }

  /** The presence record of every run is the time at which the unbroken presence of each game source began. */
  lemma {:induction false} SeenSinceIsStreak(
    rounds: seq<Round>, ms: seq<Memory>, shown: seq<Option<Candidate>>, i: nat, source: string)
    requires IsRun(rounds, ms, shown) && i < |rounds|
    ensures source in ms[i + 1].seenSince <==> PlaysIn(rounds[i], source)
    ensures PlaysIn(rounds[i], source) ==>
              FirstSeen(ms[i], rounds[i].now, source) == rounds[StreakStart(rounds, i, source)].now
                                                      == ms[i + 1].seenSince[source]
  {
    hide Decides, DistinctSources, PlaysIn;
    DecidesPresence(ms[i], rounds[i].now, rounds[i].bucket, ms[i + 1], shown[i], source);
    assert rounds[i] == Round(rounds[i].now, rounds[i].bucket);
    if i > 0 {
      SeenSinceIsStreak(rounds, ms, shown, i - 1, source);
    }
  }

  /** Present in every round since `j`, which lies back by at least the takeover delay. */
  predicate LongSince(rounds: seq<Round>, j: int, i: nat, source: string)
    requires i < |rounds|
  {
    0 <= j <= i && rounds[i].now - rounds[j].now >= GAME_TAKEOVER_DELAY && PresentThroughout(rounds, j, i, source)
  }

  /** The game source has been present without a break for at least the takeover delay. */
  ghost predicate LongPresent(rounds: seq<Round>, i: nat, source: string)
    requires i < |rounds|
  {
    exists j :: LongSince(rounds, j, i, source)
  }

  lemma LongPresentByStreak(rounds: seq<Round>, i: nat, source: string)
    requires i < |rounds| && PlaysIn(rounds[i], source)
    requires forall i, j :: 0 <= i < j < |rounds| ==> rounds[i].now <= rounds[j].now
    ensures LongPresent(rounds, i, source) <==>
            Elapsed(rounds[i].now, rounds[StreakStart(rounds, i, source)].now) >= GAME_TAKEOVER_DELAY
  {
    hide PlaysIn;
    var start := StreakStart(rounds, i, source);
    if j :| LongSince(rounds, j, i, source) {
      StreakIsLongest(rounds, j, i, source);
    }
    if Elapsed(rounds[i].now, rounds[start].now) >= GAME_TAKEOVER_DELAY {
      assert LongSince(rounds, start, i, source);
    }
  }

  lemma {:induction false} StreakIsLongest(rounds: seq<Round>, j: nat, i: nat, source: string)
    requires j <= i < |rounds| && PresentThroughout(rounds, j, i, source)
    ensures StreakStart(rounds, i, source) <= j
  {
  }

  /**
   The takeover rule over every run. When external sources report the object and its selection is not a present game
   source, the best game source is shown exactly when it has been present in every round for at least the takeover
   delay; otherwise an external source is shown.
   */
  lemma TakeoverExact(
    rounds: seq<Round>, ms: seq<Memory>, shown: seq<Option<Candidate>>, i: nat, best: Candidate)
    requires IsRun(rounds, ms, shown) && i < |rounds|
    requires IsBest(true, Games(rounds[i].bucket), best) && Externals(rounds[i].bucket) != {}
    requires forall c :: c in Games(rounds[i].bucket) ==> ms[i].selected != Some(c.source)
    ensures shown[i].Some?
    ensures shown[i].value.external <==> !LongPresent(rounds, i, best.source)
    ensures !shown[i].value.external ==> shown[i].value == best
  {
    hide IsBest, Presence, DistinctSources, StreakStart;
    var r := rounds[i];
    assert PlaysIn(r, best.source) by {
      BestIsIn(Games(r.bucket), best);
    }
    SeenSinceIsStreak(rounds, ms, shown, i, best.source);
    LongPresentByStreak(rounds, i, best.source);
    TakeoverInOneRound(ms[i], r.now, r.bucket, ms[i + 1], shown[i], best);
  }

  lemma TakeoverInOneRound(
    m: Memory, now: nat, b: Bucket, after: Memory, shown: Option<Candidate>, best: Candidate)
    requires DistinctSources(b) && Decides(m, now, b, after, shown)
    requires IsBest(true, Games(b), best) && Externals(b) != {}
    requires forall c :: c in Games(b) ==> m.selected != Some(c.source)
    ensures shown.Some?
    ensures shown.value.external <==> Elapsed(now, FirstSeen(m, now, best.source)) < GAME_TAKEOVER_DELAY
    ensures !shown.value.external ==> shown.value == best
  {
    hide IsBest, Presence;
    BestIsIn(Games(b), best);
    if !shown.value.external {
      assert shown.value in Games(b);
      BestIsUnique(true, Games(b), best, shown.value);
    }
  }

  /**
   A switch from a shown external source that still reports the object to a game source happens only when that game
   source was present in every round for at least the takeover delay.
   */
  lemma SwitchNeedsPresence(rounds: seq<Round>, ms: seq<Memory>, shown: seq<Option<Candidate>>, i: nat, held: Candidate)
    requires IsRun(rounds, ms, shown) && 0 < i < |rounds|
    requires shown[i - 1].Some? && shown[i - 1].value.source == held.source && held in rounds[i].bucket && held.external
    ensures shown[i].Some?
    ensures shown[i].value == held || (!shown[i].value.external && LongPresent(rounds, i, shown[i].value.source))
  {
    hide IsBest, Presence;
    var b := rounds[i].bucket;
    MemoryFollowsChoice(ms[i - 1], rounds[i - 1].now, rounds[i - 1].bucket, ms[i], shown[i - 1]);
    SwitchInOneRound(ms[i], rounds[i].now, b, ms[i + 1], shown[i], held);
    if !shown[i].value.external {
      TakeoverExact(rounds, ms, shown, i, shown[i].value);
    }
  }

  lemma SwitchInOneRound(
    m: Memory, now: nat, b: Bucket, after: Memory, shown: Option<Candidate>, held: Candidate)
    requires DistinctSources(b) && Decides(m, now, b, after, shown) && Holds(m, b, held) && held.external
    ensures shown.Some? && (shown.value.external ==> shown.value == held) && Externals(b) != {}
    ensures !shown.value.external ==> IsBest(true, Games(b), shown.value)
    ensures forall c :: c in Games(b) ==> m.selected != Some(c.source)
  {
    hide IsBest;
    assert held in Externals(b);
  }

  /** Without the external source the delay does not apply: a game source seen for the first time is shown at once. */
  lemma NoDelayWithoutExternals(m: Memory, now: nat, b: Bucket, after: Memory, shown: Option<Candidate>)
    requires Decides(m, now, b, after, shown) && b != {} && Externals(b) == {}
    ensures shown.Some? && !shown.value.external
  {
    assert forall c :: c in b && c.external ==> c in Externals(b);
  }

  // ---------------------------------------------------------------- entities, waypoints and last-seen players

  /** The previous source keeps the object if it ties on priority and is not outdated by more than the threshold. */
  predicate Sticks(previous: Option<string>, b: Bucket, best: Candidate, p: Candidate) {
    && p in b && previous == Some(p.source) && p.priority == best.priority
    && Elapsed(best.receivedAt, p.receivedAt) <= SWITCH_THRESHOLD
  }

  /** What a round shows for one object. */
  ghost predicate Settles(previous: Option<string>, b: Bucket, shown: Option<Candidate>) {
    if b == {} then shown.None?
    else
      shown.Some?
      && exists best :: && IsBest(true, b, best)
                        && (|| Sticks(previous, b, best, shown.value)
                            || (shown.value == best && forall p :: !Sticks(previous, b, best, p)))
  }

  method SettleOne(previous: Option<string>, bucket: seq<Candidate>) returns (shown: Option<Candidate>)
    requires DistinctSources(Elements(bucket))
    ensures Settles(previous, Elements(bucket), shown)
  {
    hide IsBest;
    var best := MaxBy(true, bucket);
    if best.None? {
      return None;
    }
    var p := Find(bucket, previous);
    if p.Some? && p.value.priority == best.value.priority
       && Elapsed(best.value.receivedAt, p.value.receivedAt) <= SWITCH_THRESHOLD {
      assert Sticks(previous, Elements(bucket), best.value, p.value);
      return p;
    }
    return best;
  }

  /** The selections of one kind of object; every object without candidates is forgotten. */
  class SourceSelections {
    var selected: map<string, string>

    method Resolve(candidates: map<string, seq<Candidate>>) returns (resolved: map<string, Candidate>)
      requires forall o :: o in candidates ==> DistinctSources(Elements(candidates[o]))
      modifies this
      ensures forall o :: Settles(Lookup(old(selected), o), if o in candidates then Elements(candidates[o]) else {},
                                  Lookup(resolved, o))
      ensures forall o :: Lookup(selected, o) ==
                          if o in resolved then Some(resolved[o].source) else None
    {
      hide Settles, DistinctSources, Elements;
      resolved := map[];
      var next: map<string, string> := map[];
      var pending := candidates.Keys;
      while pending != {}
        invariant pending <= candidates.Keys
        invariant unchanged(this)
        invariant forall o :: o !in candidates || o in pending ==> o !in resolved
        invariant forall o :: Lookup(next, o) == if o in resolved then Some(resolved[o].source) else None
        invariant forall o :: o in candidates && o !in pending ==>
                    Settles(Lookup(old(selected), o), Elements(candidates[o]), Lookup(resolved, o))
      {
        var o :| o in pending;
        pending := pending - {o};
        var shown := SettleOne(if o in selected then Some(selected[o]) else None, candidates[o]);
        if shown.Some? {
          next := next[o := shown.value.source];
          resolved := resolved[o := shown.value];
        }
      }
      forall o | o !in candidates
        ensures Settles(Lookup(old(selected), o), {}, None)
      {
        NothingToSettle(Lookup(old(selected), o));
      }
      selected := next;
    }
  }

  lemma NothingToSettle(previous: Option<string>)
    ensures Settles(previous, {}, None)
  {
  }

  /** A candidate newly shown has top priority, is the latest of those, and among several has the smallest id. */
  lemma NewlySettledIsTop(previous: Option<string>, b: Bucket, shown: Option<Candidate>, d: Candidate)
    requires DistinctSources(b) && Settles(previous, b, shown)
    requires shown.Some? && previous != Some(shown.value.source) && d in b
    ensures d.priority <= shown.value.priority
    ensures d.priority == shown.value.priority ==> d.receivedAt <= shown.value.receivedAt
    ensures d.priority == shown.value.priority && d.receivedAt == shown.value.receivedAt ==>
              d == shown.value || StringLess(shown.value.source, d.source)
  {
    hide IsBest;
    BestIsIn(b, shown.value);
    BestExact(true, b, shown.value);
  }

  /** The candidate shown has the highest priority and is at most the threshold older than the newest such report. */
  lemma SettledIsFresh(previous: Option<string>, b: Bucket, shown: Option<Candidate>, c: Candidate)
    requires Settles(previous, b, shown) && c in b
    ensures shown.Some? && shown.value in b && c.priority <= shown.value.priority
    ensures c.priority == shown.value.priority ==> c.receivedAt <= shown.value.receivedAt + SWITCH_THRESHOLD
  {
  }

  /** A source keeps an object exactly as long as nothing outranks it or outdates it by more than the threshold. */
  lemma KeepsExactly(b: Bucket, shown: Option<Candidate>, p: Candidate)
    requires DistinctSources(b) && p in b && Settles(Some(p.source), b, shown)
    ensures shown == Some(p) <==>
            forall c :: c in b ==> c.priority <= p.priority
                                   && (c.priority == p.priority ==> c.receivedAt <= p.receivedAt + SWITCH_THRESHOLD)
  {
    var best :| IsBest(true, b, best)
                && (Sticks(Some(p.source), b, best, shown.value)
                    || (shown.value == best && forall q :: !Sticks(Some(p.source), b, best, q)));
    BestHasTopPriority(b, best, p);
    if shown == Some(p) {
      forall c | c in b
        ensures c.priority <= p.priority
                && (c.priority == p.priority ==> c.receivedAt <= p.receivedAt + SWITCH_THRESHOLD)
      {
        SettledIsFresh(Some(p.source), b, shown, c);
      }
    } else if !Sticks(Some(p.source), b, best, p) {
      assert best in b;
    }
  }

  /** The outcome is fixed by the previous source and the candidates, and choosing again keeps it. */
  lemma SettlingIsStable(previous: Option<string>, b: Bucket, s1: Option<Candidate>, s2: Option<Candidate>)
    requires DistinctSources(b) && Settles(previous, b, s1)
    requires Settles(previous, b, s2) || (s1.Some? && Settles(Some(s1.value.source), b, s2))
    ensures s1 == s2
  {
    if b != {} {
      var best :| IsBest(true, b, best)
                  && (|| Sticks(previous, b, best, s1.value)
                      || (s1.value == best && forall p :: !Sticks(previous, b, best, p)));
      OneBest(b, best);
      assert Sticks(Some(s1.value.source), b, best, s1.value);
    }
  }

  lemma OneBest(b: Bucket, best: Candidate)
    requires DistinctSources(b) && IsBest(true, b, best)
    ensures forall c :: IsBest(true, b, c) ==> c == best
  {
    forall c | IsBest(true, b, c)
      ensures c == best
    {
      BestIsUnique(true, b, c, best);
    }
  }
}
