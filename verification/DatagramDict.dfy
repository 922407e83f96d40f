/**
 The dictionary handshake for datagram compression. The relay trains a dictionary on recent movement chunks and offers
 it over an ordered control stream; the client installs it and answers ready; only then does the relay compress with
 it. Datagrams themselves may overtake the control stream.

 An id is the hash of the content and stands for the dictionary. The outcome of training is a parameter.
 */
module DatagramDict {
  import opened Prelude
  import Movement

  const TRAIN_CHUNKS := 64
  const DICT_SIZE := 4096
  const MIN_SAMPLE_BYTES := 4 * DICT_SIZE
  const MIN_RETRAIN_MS := 60_000

  type Chunk = seq<bv8>

  datatype Dict = Dict(id: string)

  datatype Suite = Plain | Zstd | ZstdDict

  datatype Policy = Policy(chunksThreshold: nat, minSampleBytes: nat, minInterval: nat)

  const PRODUCTION := Policy(TRAIN_CHUNKS, MIN_SAMPLE_BYTES, MIN_RETRAIN_MS)

  datatype Encoder = Encoder(
    suite: Suite, policy: Policy, current: Option<Dict>, previous: Option<Dict>, pending: Option<Dict>,
    samples: seq<Chunk>, lastTraining: Option<nat>)

  function NewEncoder(suite: Suite, policy: Policy): (e: Encoder) {
    Encoder(suite, policy, None, None, None, [], None)
  }

  function SampleBytes(s: seq<Chunk>): (r: nat) {
    if s == [] then 0 else SampleBytes(s[..|s| - 1]) + |s[|s| - 1]|
  }

  /** The samples after a batch: past four times the threshold the older half is dropped. */
  function Collected(e: Encoder, batch: seq<Chunk>): (r: seq<Chunk>) {
    var all := e.samples + batch;
    if |all| > e.policy.chunksThreshold * 4 then all[|all| / 2..] else all
  }

  /** A batch makes the encoder try to train. */
  predicate Trains(e: Encoder, batch: seq<Chunk>, now: nat) {
    && e.suite.ZstdDict? && e.pending.None?
    && |Collected(e, batch)| >= e.policy.chunksThreshold
    && SampleBytes(Collected(e, batch)) >= e.policy.minSampleBytes
    && (e.lastTraining.Some? ==> Elapsed(now, e.lastTraining.value) >= e.policy.minInterval)
  }

  function Observed(e: Encoder, batch: seq<Chunk>, now: nat, trained: Option<Dict>): (r: Encoder) {
    if !e.suite.ZstdDict? then e
    else if !Trains(e, batch, now) then e.(samples := Collected(e, batch))
    else if trained.None? then
      e.(samples := Collected(e, batch)[|Collected(e, batch)| / 2..], lastTraining := Some(now))
    else e.(samples := [], lastTraining := Some(now), pending := trained)
  }

  function Activated(e: Encoder, d: Dict): (r: Encoder) {
    if e.pending == Some(d) then e.(pending := None, previous := e.current, current := Some(d)) else e
  }

  /** How a datagram is written. */
  datatype Coding = Raw | Alone | With(dict: Dict)

  class DatagramDictEncoder {
    const suite: Suite
    const policy: Policy
    var current: Option<Dict>
    var previous: Option<Dict>
    var pending: Option<Dict>
    var samples: seq<Chunk>
    var lastTraining: Option<nat>

    ghost function State(): (e: Encoder)
      reads this
    {
      Encoder(suite, policy, current, previous, pending, samples, lastTraining)
    }

    constructor (suite: Suite, policy: Policy)
      ensures State() == NewEncoder(suite, policy)
    {
      this.suite, this.policy := suite, policy;
      current, previous, pending, samples, lastTraining := None, None, None, [], None;
    }

    /** Collects samples and, when due, makes the trained dictionary pending and returns it as an offer. */
    method Observe(batch: seq<Chunk>, now: nat, trained: Option<Dict>) returns (offer: Option<Dict>)
      modifies this
      ensures State() == Observed(old(State()), batch, now, trained)
      ensures offer == if Trains(old(State()), batch, now) then trained else None
    {
      if suite != ZstdDict {
        return None;
      }
      var s := samples;
      for i := 0 to |batch|
        invariant s == old(samples) + batch[..i]
        invariant State() == old(State())
      {
        s := s + [batch[i]];
      }
      assert batch[..|batch|] == batch;
      if |s| > policy.chunksThreshold * 4 {
        s := s[|s| / 2..];
      }
      samples := s;
      var bytes := TotalBytes(s);
      if pending.Some? || |s| < policy.chunksThreshold || bytes < policy.minSampleBytes
         || (lastTraining.Some? && Elapsed(now, lastTraining.value) < policy.minInterval) {
        return None;
      }
      lastTraining := Some(now);
      if trained.None? {
        samples := s[|s| / 2..];
        return None;
      }
      samples, pending := [], trained;
      return trained;
    }

    /** The pending dictionary becomes current and the current one previous; any other id is ignored. */
    method Activate(d: Dict)
      modifies this
      ensures State() == Activated(old(State()), d)
    {
      if pending == Some(d) {
        previous := current;
        current, pending := pending, None;
      }
    }

    method Encode() returns (c: Coding)
      ensures suite.Plain? <==> c.Raw?
      ensures c.With? <==> !suite.Plain? && current.Some?
      ensures c.With? ==> current == Some(c.dict)
    {
      if suite == Plain {
        return Raw;
      }
      return match current
        case Some(d) => With(d)
        case None => Alone;
    }
  }

  method TotalBytes(s: seq<Chunk>) returns (bytes: nat)
    ensures bytes == SampleBytes(s)
  {
    bytes := 0;
    for i := 0 to |s|
      invariant bytes == SampleBytes(s[..i])
    {
      assert s[..i + 1][..i] == s[..i];
      bytes := bytes + |s[i]|;
    }
    assert s[..|s|] == s;
  }

  // ---------------------------------------------------------------- samples

  /** The encoder keeps the latest of its samples. */
  lemma SamplesAreLatest(e: Encoder, batch: seq<Chunk>, now: nat, trained: Option<Dict>)
    requires e.suite.ZstdDict?
    ensures exists n :: 0 <= n <= |e.samples + batch|
                        && Observed(e, batch, now, trained).samples == (e.samples + batch)[n..]
  {
    var all, kept := e.samples + batch, Observed(e, batch, now, trained).samples;
    var n := |all| - |kept|;
    assert kept == all[n..] by {
      if |all| > e.policy.chunksThreshold * 4 {
        assert all[|all| / 2..] == Collected(e, batch);
      }
    }
  }

  /** Nothing but the bytes of the samples counts. */
  lemma {:induction false} SampleBytesExact(s: seq<Chunk>)
    ensures SampleBytes(s) == |Joined(s)|
  {
    if s != [] {
      SampleBytesExact(s[..|s| - 1]);
    }
  }

  /** The samples, one after the other. */
  function Joined(s: seq<Chunk>): (r: Chunk) {
    if s == [] then [] else Joined(s[..|s| - 1]) + s[|s| - 1]
  }

  /** The latest half of the samples, rounded up. */
  function LaterHalf(s: seq<Chunk>): (r: seq<Chunk>) {
    s[|s| - (|s| + 1) / 2..]
  }

  /** The samples after a batch: all of them, or the later half once there are more than four times the threshold. */
  function Kept(e: Encoder, batch: seq<Chunk>): (r: seq<Chunk>) {
    var all := e.samples + batch;
    if |all| <= 4 * e.policy.chunksThreshold then all else LaterHalf(all)
  }

  lemma CollectedExact(e: Encoder, batch: seq<Chunk>)
    ensures Collected(e, batch) == Kept(e, batch)
    ensures Collected(e, batch)[|Collected(e, batch)| / 2..] == LaterHalf(Kept(e, batch))
  {
    var all := e.samples + batch;
    assert |all| - (|all| + 1) / 2 == |all| / 2;
    var c := Collected(e, batch);
    assert |c| - (|c| + 1) / 2 == |c| / 2;
  }

  /**
   What one batch does to an encoder with dictionaries. It trains exactly if nothing is pending, the samples suffice in
   number and in bytes, and the last attempt is long enough ago. Success uses the samples up, failure costs the older
   half of them.
   */
  lemma ObservedExact(e: Encoder, batch: seq<Chunk>, now: nat, trained: Option<Dict>)
    requires e.suite.ZstdDict?
    ensures var kept := Kept(e, batch);
            var due := && e.pending.None? && |kept| >= e.policy.chunksThreshold
                       && |Joined(kept)| >= e.policy.minSampleBytes
                       && (e.lastTraining.None? || Elapsed(now, e.lastTraining.value) >= e.policy.minInterval);
            var after := Observed(e, batch, now, trained);
            && (Trains(e, batch, now) <==> due)
            && (!due ==> after == e.(samples := kept))
            && (due && trained.Some? ==> after == e.(samples := [], lastTraining := Some(now), pending := trained))
            && (due && trained.None? ==> after == e.(samples := LaterHalf(kept), lastTraining := Some(now)))
  {
    hide Collected, Kept, LaterHalf, SampleBytes, Joined;
    CollectedExact(e, batch);
    SampleBytesExact(Collected(e, batch));
  }

  /** A plain or dictionary-less connection never trains. */
  lemma OnlyDictSuitesTrain(e: Encoder, batch: seq<Chunk>, now: nat, trained: Option<Dict>)
    requires !e.suite.ZstdDict?
    ensures Observed(e, batch, now, trained) == e && !Trains(e, batch, now)
  {
  }

  /** The buffer stays within four times the threshold as long as no single batch is larger than that. */
  lemma SamplesStayBounded(e: Encoder, batch: seq<Chunk>, now: nat, trained: Option<Dict>)
    requires |e.samples| <= 4 * e.policy.chunksThreshold && |batch| <= 4 * e.policy.chunksThreshold
    ensures |Observed(e, batch, now, trained).samples| <= 4 * e.policy.chunksThreshold
  {
  }

  // ---------------------------------------------------------------- the two parties

  /** The client keeps its two latest dictionaries. */
  function KeepTwo(held: seq<Dict>, d: Dict): (r: seq<Dict>)
    ensures |r| <= 2 && r != [] && r[0] == d
    ensures held != [] ==> held[0] in r
  {
    if held == [] then [d]
    else if held[0] != d then [d, held[0]]
    else if |held| > 1 then [d, held[1]]
    else [d]
  }

  /** The encoder, both directions of the control stream, and the dictionaries the client holds. */
  datatype System = System(encoder: Encoder, offers: seq<Dict>, readies: seq<Dict>, held: seq<Dict>)

  datatype Action =
    | Observe(batch: seq<Chunk>, now: nat, trained: Option<Dict>, offerSent: bool)
    | Install
    | Ready
    | Resend(dict: Dict)

  predicate Enabled(s: System, a: Action) {
    match a
    case Observe(_, _, _, _) => true
    case Install => s.offers != []
    case Ready => s.readies != []
    case Resend(d) => d in s.held
  }

  /** A full queue drops the offer but leaves the dictionary pending. A client answers each install once. */
  function Next(s: System, a: Action): (r: System)
    requires Enabled(s, a)
  {
    match a
    case Observe(batch, now, trained, offerSent) =>
      var offer := if Trains(s.encoder, batch, now) then trained else None;
      s.(encoder := Observed(s.encoder, batch, now, trained),
         offers := if offer.Some? && offerSent then s.offers + [offer.value] else s.offers)
    case Install =>
      var d := s.offers[0];
      s.(offers := s.offers[1..], held := KeepTwo(s.held, d), readies := s.readies + [d])
    case Ready =>
      s.(encoder := Activated(s.encoder, s.readies[0]), readies := s.readies[1..])
    case Resend(d) =>
      s.(readies := s.readies + [d])
  }

  ghost predicate IsPath(ss: seq<System>, acts: seq<Action>) {
    && |ss| == |acts| + 1
    && forall i :: 0 <= i < |acts| ==> Enabled(ss[i], acts[i]) && ss[i + 1] == Next(ss[i], acts[i])
  }

  ghost predicate IsRun(ss: seq<System>, acts: seq<Action>) {
    && IsPath(ss, acts) && ss[0].encoder.samples == []
    && ss[0].encoder.current.None? && ss[0].encoder.previous.None? && ss[0].encoder.pending.None?
    && ss[0].offers == ss[0].readies == ss[0].held == []
  }

  /** The client answers every install exactly once. */
  predicate AnswersOnce(a: Action) {
    !a.Resend?
  }

  /** A dictionary offered is not one that the client holds or whose answer is still under way. */
  predicate OffersNew(s: System, a: Action) {
    a.Observe? && Trains(s.encoder, a.batch, a.now) && a.trained.Some? && a.offerSent ==>
      a.trained.value !in s.held && a.trained.value !in s.readies
  }

  /** The client holds the dictionary of every datagram written from now on. */
  predicate Decodable(s: System) {
    s.encoder.current.Some? ==> s.encoder.current.value in s.held
  }

  predicate OneOffer(s: System) {
    |s.offers| <= 1 && (s.offers != [] ==> s.encoder.pending == Some(s.offers[0]))
  }

  /** While no newer dictionary is installed, the client also holds the previous one. */
  predicate Settled(s: System) {
    && (s.encoder.current.Some? ==> s.held != [] && s.held[0] == s.encoder.current.value)
    && (s.encoder.previous.Some? ==> s.encoder.previous.value in s.held)
  }

  predicate Advanced(s: System) {
    s.encoder.pending.Some? && s.held != [] && s.held[0] == s.encoder.pending.value && Decodable(s)
  }

  /** Either nothing of the pending dictionary has reached the client, or it is installed and answered. */
  predicate OnceInv(s: System) {
    && OneOffer(s)
    && if s.readies == [] then Settled(s)
       else s.offers == [] && Advanced(s) && s.readies == [s.held[0]]
  }

  /** The one offer under way has not been answered. */
  predicate OfferInv(s: System) {
    OneOffer(s) && (s.offers != [] ==> s.offers[0] !in s.held && s.offers[0] !in s.readies)
  }

  lemma OnceStep(s: System, a: Action)
    requires OnceInv(s) && Enabled(s, a) && AnswersOnce(a)
    ensures OnceInv(Next(s, a))
  {
  }

  lemma OfferStep(s: System, a: Action)
    requires OfferInv(s) && Enabled(s, a) && OffersNew(s, a)
    ensures OfferInv(Next(s, a))
  {
    hide Collected, SampleBytes;
  }

  lemma {:induction false} OnceRun(ss: seq<System>, acts: seq<Action>, i: nat)
    requires IsRun(ss, acts) && i < |ss| && forall k :: 0 <= k < |acts| ==> AnswersOnce(acts[k])
    ensures OnceInv(ss[i])
  {
    if i > 0 {
      OnceRun(ss, acts, i - 1);
      OnceStep(ss[i - 1], acts[i - 1]);
    }
  }

  lemma {:induction false} OfferRun(ss: seq<System>, acts: seq<Action>, i: nat)
    requires IsRun(ss, acts) && i < |ss| && forall k :: 0 <= k < |acts| ==> OffersNew(ss[k], acts[k])
    ensures OfferInv(ss[i])
  {
    if i > 0 {
      OfferRun(ss, acts, i - 1);
      OfferStep(ss[i - 1], acts[i - 1]);
    }
  }

  /**
   At most one offer is under way, in every interleaving and with any offers lost, if the client answers each install
   once or no dictionary is offered that the client holds or is still answering.
   */
  lemma OneOfferUnderWay(ss: seq<System>, acts: seq<Action>, i: nat)
    requires IsRun(ss, acts) && i < |ss|
    requires || (forall k :: 0 <= k < |acts| ==> AnswersOnce(acts[k]))
             || (forall k :: 0 <= k < |acts| ==> OffersNew(ss[k], acts[k]))
    ensures OneOffer(ss[i])
  {
    if forall k :: 0 <= k < |acts| ==> AnswersOnce(acts[k]) {
      OnceRun(ss, acts, i);
    } else {
      OfferRun(ss, acts, i);
    }
  }

  /** The offer under way may be answered before it arrives. */
  predicate OfferedAgain(s: System, d: Dict) {
    s.offers == [d] && s.encoder.pending == Some(d) && (d in s.held || d in s.readies)
  }

  /** The offer takes the run to such a state exactly when it breaks the condition. */
  lemma OfferingLeadsThere(s: System, a: Action)
    requires OfferInv(s) && a.Observe? && Trains(s.encoder, a.batch, a.now) && a.trained.Some? && a.offerSent
    ensures OfferedAgain(Next(s, a), a.trained.value) <==> !OffersNew(s, a)
  {
    hide Collected, SampleBytes;
  }

  /**
   From there a second offer can come under way: an answer activates the dictionary while its offer still waits, and
   the encoder trains again. So the condition on offers is exact: an offer leaves at most one under way for good if it
   meets the condition, and lets the run go on to two if not.
   */
  lemma OfferingAgainPilesUp(s: System, d: Dict, c: Dict, batch: seq<Chunk>, now: nat)
    returns (ss: seq<System>, acts: seq<Action>)
    requires OfferedAgain(s, d) && CanTrain(s.encoder, batch, now)
    ensures IsPath(ss, acts) && ss[0] == s && !OneOffer(ss[|acts|])
    decreases d !in s.readies, |s.readies|
  {
    hide Collected, SampleBytes, IsPath;
    if d !in s.readies {
      assert (s.readies + [d])[|s.readies|] == d;
      ss, acts := OfferingAgainPilesUp(Next(s, Resend(d)), d, c, batch, now);
      ss, acts := FirstStep(s, Resend(d), ss, acts);
    } else if s.readies[0] != d {
      assert s.readies == [s.readies[0]] + s.readies[1..];
      ss, acts := OfferingAgainPilesUp(Next(s, Ready), d, c, batch, now);
      ss, acts := FirstStep(s, Ready, ss, acts);
    } else {
      var t, a := Next(s, Ready), Observe(batch, now, Some(c), true);
      TrainsWhenIdle(t.encoder, batch, now);
      ss, acts := Single(t, a);
      ss, acts := FirstStep(s, Ready, ss, acts);
    }
  }

  lemma Single(s: System, a: Action) returns (ss: seq<System>, acts: seq<Action>)
    requires Enabled(s, a)
    ensures IsPath(ss, acts) && ss[0] == s && |acts| == 1 && ss[1] == Next(s, a)
  {
    ss, acts := [s, Next(s, a)], [a];
  }

  // ---------------------------------------------------------------- the barrier

  /** The offer lost, if any, is of the current dictionary again or of one the client does not hold. */
  predicate LosesNoOther(s: System, a: Action) {
    a.Observe? && Trains(s.encoder, a.batch, a.now) && a.trained.Some? && !a.offerSent ==>
      a.trained.value !in s.held || s.encoder.current == a.trained
  }

  /** The client holds the previous dictionary as long as it has not installed the pending one. */
  predicate PreviousKept(s: System) {
    || (s.encoder.previous.Some? ==> s.encoder.previous.value in s.held)
    || (s.encoder.pending.Some? && s.encoder.pending.value in s.held)
  }

  ghost predicate AllHeld(ds: seq<Dict>, held: seq<Dict>) {
    forall d :: d in ds ==> d in held
  }

  /** The dictionary the client will have installed last when the given offers have arrived. */
  function Latest(held: seq<Dict>, offers: seq<Dict>): (d: Option<Dict>) {
    if offers != [] then Some(offers[|offers| - 1]) else if held != [] then Some(held[0]) else None
  }

  /** Everything under way is held already, and the last offer is the one the encoder waits for or uses. */
  ghost predicate Known(s: System) {
    && AllHeld(s.offers, s.held) && AllHeld(s.readies, s.held)
    && (s.encoder.pending.Some? ==> s.encoder.pending.value in s.held)
    && (s.encoder.previous.Some? ==> s.encoder.previous.value in s.held)
    && Latest(s.held, s.offers) == if s.encoder.pending.Some? then s.encoder.pending else s.encoder.current
  }

  /** A new dictionary is pending: its offer is the last under way, or lost. */
  ghost predicate Awaited(s: System) {
    && s.encoder.pending.Some? && s.encoder.pending.value !in s.held
    && AllHeld(s.readies, s.held)
    && (s.encoder.previous.Some? ==> s.encoder.previous.value in s.held)
    && if s.encoder.pending.value in s.offers then
         var n := |s.offers| - 1;
         && s.offers[n] == s.encoder.pending.value && AllHeld(s.offers[..n], s.held)
         && Latest(s.held, s.offers[..n]) == s.encoder.current
       else AllHeld(s.offers, s.held)
  }

  /** The answers before position `m` are stale, and those from there on name dictionaries the client holds. */
  ghost predicate AnsweredAt(s: System, m: nat) {
    && m < |s.readies| && s.encoder.pending == Some(s.readies[m])
    && (forall i :: 0 <= i < m ==> s.readies[i] != s.readies[m])
    && forall i :: m <= i < |s.readies| ==> s.readies[i] in s.held
  }

  /** The pending dictionary is installed and its answer under way. */
  ghost predicate Answered(s: System) {
    && s.offers == [] && Advanced(s) && exists m: nat :: AnsweredAt(s, m)
  }

  ghost predicate BarrierInv(s: System) {
    |s.held| <= 2 && Decodable(s) && (Known(s) || Awaited(s) || Answered(s))
  }

  lemma BarrierImpliesPreviousKept(s: System)
    requires BarrierInv(s)
    ensures PreviousKept(s)
  {
  }

  /** Installing what is held only changes the order. */
  lemma InstallHeld(held: seq<Dict>, d: Dict)
    requires |held| <= 2 && d in held
    ensures forall x :: x in KeepTwo(held, d) <==> x in held
  {
  }

  lemma ObserveKeepsBarrier(s: System, a: Action)
    requires BarrierInv(s) && a.Observe? && LosesNoOther(s, a)
    ensures BarrierInv(Next(s, a))
  {
    hide Collected, SampleBytes;
    var t := Next(s, a);
    if Trains(s.encoder, a.batch, a.now) && a.trained.Some? {
      assert Known(s);
      var d := a.trained.value;
      if a.offerSent {
        assert t.offers[..|t.offers| - 1] == s.offers && t.offers[|t.offers| - 1] == d;
      }
      assert if d in s.held then Known(t) else Awaited(t);
    } else if Answered(s) {
      var m: nat :| AnsweredAt(s, m);
      assert AnsweredAt(t, m);
    }
  }

  lemma InstallKeepsBarrier(s: System)
    requires BarrierInv(s) && s.offers != []
    ensures BarrierInv(Next(s, Install))
  {
    var t, d := Next(s, Install), s.offers[0];
    if d in s.held {
      InstallHeld(s.held, d);
      assert s.offers == [d] + t.offers;
      if Awaited(s) && s.encoder.pending.value in s.offers {
        var n := |s.offers| - 1;
        assert t.offers[..n - 1] == s.offers[1..n];
        assert forall x :: x in s.offers[1..n] ==> x in s.offers[..n];
        assert Awaited(t);
      }
    } else {
      assert s.offers == [d];
      assert AnsweredAt(t, |s.readies|);
    }
  }

  lemma ReadyKeepsBarrier(s: System)
    requires BarrierInv(s) && s.readies != []
    ensures BarrierInv(Next(s, Ready))
  {
    var t := Next(s, Ready);
    assert s.readies == [s.readies[0]] + t.readies;
    if Answered(s) && !Known(s) {
      var m: nat :| AnsweredAt(s, m);
      if m > 0 {
        assert AnsweredAt(t, m - 1);
      } else {
        forall x | x in t.readies
          ensures x in s.held
        {
          var i :| 0 <= i < |t.readies| && t.readies[i] == x;
          assert s.readies[i + 1] == x;
        }
      }
    }
  }

  lemma ResendKeepsBarrier(s: System, d: Dict)
    requires BarrierInv(s) && d in s.held
    ensures BarrierInv(Next(s, Resend(d)))
  {
    var t := Next(s, Resend(d));
    if Answered(s) {
      var m: nat :| AnsweredAt(s, m);
      assert AnsweredAt(t, m);
    }
  }

  lemma {:induction false} BarrierRun(ss: seq<System>, acts: seq<Action>, i: nat)
    requires IsRun(ss, acts) && i < |ss| && forall k :: 0 <= k < |acts| ==> LosesNoOther(ss[k], acts[k])
    ensures BarrierInv(ss[i])
  {
    hide BarrierInv, LosesNoOther, Next;
    if i == 0 {
      BarrierStarts(ss[0]);
    } else {
      BarrierRun(ss, acts, i - 1);
      assert Enabled(ss[i - 1], acts[i - 1]) && ss[i - 1 + 1] == Next(ss[i - 1], acts[i - 1]);
      assert LosesNoOther(ss[i - 1], acts[i - 1]);
      match acts[i - 1]
      case Observe(_, _, _, _) => ObserveKeepsBarrier(ss[i - 1], acts[i - 1]);
      case Install => InstallKeepsBarrier(ss[i - 1]);
      case Ready => ReadyKeepsBarrier(ss[i - 1]);
      case Resend(d) => ResendKeepsBarrier(ss[i - 1], d);
    }
  }

  lemma BarrierStarts(s: System)
    requires s.encoder.current.None? && s.encoder.previous.None? && s.encoder.pending.None?
    requires s.offers == s.readies == s.held == []
    ensures BarrierInv(s)
  {
  }

  /**
   The barrier, in every interleaving: the client holds the current dictionary of the encoder, and the previous one
   until it installs the pending one. It suffices that the client answers each install once, whatever is lost, or, with
   answers repeated and dictionaries recurring at will, that no offer is lost of a dictionary which the client holds
   and which is not the current one.
   */
  lemma BarrierHolds(ss: seq<System>, acts: seq<Action>, i: nat)
    requires IsRun(ss, acts) && i < |ss|
    requires || (forall k :: 0 <= k < |acts| ==> AnswersOnce(acts[k]))
             || (forall k :: 0 <= k < |acts| ==> LosesNoOther(ss[k], acts[k]))
    ensures Decodable(ss[i]) && PreviousKept(ss[i])
  {
    hide IsRun, BarrierInv, LosesNoOther;
    if forall k :: 0 <= k < |acts| ==> AnswersOnce(acts[k]) {
      OnceRun(ss, acts, i);
    } else {
      BarrierRun(ss, acts, i);
      BarrierImpliesPreviousKept(ss[i]);
      BarrierImpliesDecodable(ss[i]);
    }
  }

  lemma BarrierImpliesDecodable(s: System)
    requires BarrierInv(s)
    ensures Decodable(s)
  {
  }

  /** Trainings, successful or not, are at least the minimum interval apart in every run. */
  lemma TrainingsAreSpaced(ss: seq<System>, acts: seq<Action>, i: nat, j: nat)
    requires IsRun(ss, acts) && i < j < |acts| && acts[i].Observe? && acts[j].Observe?
    requires Trains(ss[i].encoder, acts[i].batch, acts[i].now) && Trains(ss[j].encoder, acts[j].batch, acts[j].now)
    requires ss[0].encoder.policy.minInterval > 0
    ensures acts[j].now >= acts[i].now + ss[0].encoder.policy.minInterval
  {
    hide Collected, SampleBytes;
    PolicyIsFixed(ss, acts, j);
    TrainingIsRemembered(ss, acts, i, j);
  }

  lemma {:induction false} PolicyIsFixed(ss: seq<System>, acts: seq<Action>, i: nat)
    requires IsRun(ss, acts) && i < |ss|
    ensures ss[i].encoder.policy == ss[0].encoder.policy
  {
    if i > 0 {
      PolicyIsFixed(ss, acts, i - 1);
      assert ss[i] == Next(ss[i - 1], acts[i - 1]);
    }
  }

  lemma {:induction false} TrainingIsRemembered(ss: seq<System>, acts: seq<Action>, i: nat, j: nat)
    requires IsRun(ss, acts) && i < j < |ss| && acts[i].Observe?
    requires Trains(ss[i].encoder, acts[i].batch, acts[i].now)
    requires ss[0].encoder.policy.minInterval > 0
    ensures ss[j].encoder.lastTraining.Some? && ss[j].encoder.lastTraining.value >= acts[i].now
  {
    hide Collected, SampleBytes;
    assert ss[j] == Next(ss[j - 1], acts[j - 1]);
    if i < j - 1 {
      TrainingIsRemembered(ss, acts, i, j - 1);
      PolicyIsFixed(ss, acts, j - 1);
    }
  }

  /** In every run fed with movement batches the production policy holds at most 256 samples. */
  lemma {:induction false} SamplesStayBoundedInRuns(ss: seq<System>, acts: seq<Action>, i: nat)
    requires IsRun(ss, acts) && i < |ss| && ss[0].encoder.policy == PRODUCTION
    requires forall k :: 0 <= k < |acts| && acts[k].Observe? ==> |acts[k].batch| <= Movement.MAX_CHUNKS_PER_TICK + 1
    ensures |ss[i].encoder.samples| <= 256
  {
    hide Next, Enabled;
    if i > 0 {
      SamplesStayBoundedInRuns(ss, acts, i - 1);
      PolicyIsFixed(ss, acts, i - 1);
      StepKeepsSamplesBounded(ss[i - 1], acts[i - 1]);
    }
  }

  lemma StepKeepsSamplesBounded(s: System, a: Action)
    requires Enabled(s, a) && s.encoder.policy == PRODUCTION && |s.encoder.samples| <= 256
    requires a.Observe? ==> |a.batch| <= Movement.MAX_CHUNKS_PER_TICK + 1
    ensures |Next(s, a).encoder.samples| <= 256
  {
    hide Observed;
    if a.Observe? {
      SamplesStayBounded(s.encoder, a.batch, a.now, a.trained);
    }
  }

  // ---------------------------------------------------------------- a lost offer

  /** The pending dictionary can no longer reach the client: its offer was lost and the client has no copy. */
  ghost predicate Stalled(s: System, d: Dict) {
    s.encoder.pending == Some(d) && d !in s.offers && d !in s.readies && d !in s.held
  }

  /**
   An offer lost of a dictionary of which neither the client nor the control stream has a copy is never made up for:
   the encoder keeps its current dictionary and never trains again.
   */
  lemma {:induction false} LostOfferStalls(ss: seq<System>, acts: seq<Action>, i: nat, j: nat, d: Dict)
    requires IsPath(ss, acts) && i <= j < |ss| && Stalled(ss[i], d)
    ensures Stalled(ss[j], d) && ss[j].encoder.current == ss[i].encoder.current
    ensures j < |acts| && acts[j].Observe? ==> !Trains(ss[j].encoder, acts[j].batch, acts[j].now)
  {
    if i < j {
      LostOfferStalls(ss, acts, i, j - 1, d);
      var a := acts[j - 1];
      assert ss[j] == Next(ss[j - 1], a);
    }
  }

  /** Otherwise the client may answer once more, and the encoder activates the dictionary and may train again. */
  lemma LostOfferMayHeal(s: System, d: Dict) returns (ss: seq<System>, acts: seq<Action>)
    requires s.encoder.pending == Some(d) && !Stalled(s, d)
    ensures IsPath(ss, acts) && ss[0] == s
    ensures ss[|acts|].encoder.pending.None? && ss[|acts|].encoder.current == Some(d)
    decreases d !in s.readies && d !in s.held, d !in s.readies, |s.offers|, |s.readies|
  {
    hide IsPath;
    if d in s.readies {
      if s.readies[0] == d {
        ss, acts := Single(s, Ready);
      } else {
        assert s.readies == [s.readies[0]] + s.readies[1..];
        ss, acts := LostOfferMayHeal(Next(s, Ready), d);
        ss, acts := FirstStep(s, Ready, ss, acts);
      }
    } else if d in s.held {
      assert (s.readies + [d])[|s.readies|] == d;
      ss, acts := LostOfferMayHeal(Next(s, Resend(d)), d);
      ss, acts := FirstStep(s, Resend(d), ss, acts);
    } else {
      assert s.offers == [s.offers[0]] + s.offers[1..];
      assert (s.readies + [s.offers[0]])[|s.readies|] == s.offers[0];
      ss, acts := LostOfferMayHeal(Next(s, Install), d);
      ss, acts := FirstStep(s, Install, ss, acts);
    }
  }

  /** Nothing is under way and a dictionary is pending. */
  ghost predicate Silent(s: System) {
    s.encoder.pending.Some? && s.offers == [] && s.readies == []
  }

  /**
   With single answers every lost offer, of whatever dictionary, stalls: the encoder keeps its current dictionary and
   never trains again.
   */
  lemma {:induction false} EveryLostOfferStalls(ss: seq<System>, acts: seq<Action>, i: nat, j: nat)
    requires IsRun(ss, acts) && forall k :: 0 <= k < |acts| ==> AnswersOnce(acts[k])
    requires i < j < |ss| && acts[i].Observe? && Trains(ss[i].encoder, acts[i].batch, acts[i].now)
    requires acts[i].trained.Some? && !acts[i].offerSent
    ensures Silent(ss[j]) && ss[j].encoder.pending == acts[i].trained && ss[j].encoder.current == ss[i].encoder.current
    ensures j < |acts| && acts[j].Observe? ==> !Trains(ss[j].encoder, acts[j].batch, acts[j].now)
    decreases j
  {
    hide Collected, SampleBytes;
    var a := acts[j - 1];
    assert Enabled(ss[j - 1], a) && ss[j - 1 + 1] == Next(ss[j - 1], a) && AnswersOnce(a);
    if i < j - 1 {
      EveryLostOfferStalls(ss, acts, i, j - 1);
    } else {
      OnceRun(ss, acts, i);
    }
  }

  // ---------------------------------------------------------------- where the barrier fails

  /** The encoder waits for a dictionary that the client holds and will not be offered again. */
  ghost predicate LostAnother(s: System) {
    && 1 < |s.held| <= 2 && s.encoder.pending.Some? && s.encoder.current.Some?
    && s.encoder.pending != s.encoder.current && s.encoder.pending.value in s.held && s.encoder.current.value in s.held
    && AllHeld(s.offers, s.held) && AllHeld(s.readies, s.held) && Latest(s.held, s.offers) == s.encoder.current
  }

  /** A batch that trains as soon as no dictionary is pending. */
  predicate CanTrain(e: Encoder, batch: seq<Chunk>, now: nat) {
    Trains(e.(pending := None, current := None, previous := None), batch, now)
  }

  /** The lost offer takes the run to such a state exactly when it breaks the condition of the barrier. */
  lemma LosingLeadsThere(s: System, a: Action)
    requires BarrierInv(s) && a.Observe? && Trains(s.encoder, a.batch, a.now) && a.trained.Some? && !a.offerSent
    ensures LostAnother(Next(s, a)) <==> !LosesNoOther(s, a)
  {
    hide Collected, SampleBytes;
  }

  /**
   From there the barrier can be broken: the client answers once more, the encoder activates what it waits for, and the
   next dictionary, if it is new to the client, evicts it there. So the condition on lost offers is exact: a lost offer
   leaves the barrier safe if it meets the condition, and lets the run go on to break it if not.
   */
  lemma LosingAnotherIsFatal(s: System, c: Dict, batch: seq<Chunk>, now: nat)
    returns (ss: seq<System>, acts: seq<Action>)
    requires LostAnother(s) && c !in s.held && CanTrain(s.encoder, batch, now)
    ensures IsPath(ss, acts) && ss[0] == s && !Decodable(ss[|acts|])
    decreases |s.offers|
  {
    hide Trains, Collected, SampleBytes, IsPath;
    var a := if s.offers != [] then Install else Resend(s.encoder.pending.value);
    var t := Next(s, a);
    if s.offers != [] {
      InstallHeld(s.held, s.offers[0]);
      assert s.offers == [s.offers[0]] + t.offers;
      ss, acts := LosingAnotherIsFatal(t, c, batch, now);
    } else {
      assert t.readies[|s.readies|] == s.encoder.pending.value;
      ss, acts := StaleAnswerIsFatal(t, s.encoder.pending.value, c, batch, now);
    }
    ss, acts := FirstStep(s, a, ss, acts);
  }

  /** The answer for `d` is under way, or has activated it, and nothing else will be installed. */
  ghost predicate Stale(s: System, d: Dict) {
    && s.offers == [] && |s.held| == 2 && s.held[1] == d != s.held[0] && AllHeld(s.readies, s.held)
    && if s.encoder.pending.Some? then s.encoder.pending == Some(d) && d in s.readies else s.encoder.current == Some(d)
  }

  lemma StaleAnswerIsFatal(s: System, d: Dict, c: Dict, batch: seq<Chunk>, now: nat)
    returns (ss: seq<System>, acts: seq<Action>)
    requires Stale(s, d) && c !in s.held && CanTrain(s.encoder, batch, now)
    ensures IsPath(ss, acts) && ss[0] == s && !Decodable(ss[|acts|])
    decreases |s.readies|
  {
    hide Collected, SampleBytes, IsPath;
    if s.readies != [] {
      var t := Next(s, Ready);
      assert s.readies == [s.readies[0]] + t.readies;
      ss, acts := StaleAnswerIsFatal(t, d, c, batch, now);
      ss, acts := FirstStep(s, Ready, ss, acts);
    } else {
      var a := Observe(batch, now, Some(c), true);
      TrainsWhenIdle(s.encoder, batch, now);
      assert [] + [c] == [c];
      ss, acts := NewDictEvicts(Next(s, a), d, c);
      ss, acts := FirstStep(s, a, ss, acts);
    }
  }

  lemma TrainsWhenIdle(e: Encoder, batch: seq<Chunk>, now: nat)
    requires e.pending.None? && CanTrain(e, batch, now)
    ensures Trains(e, batch, now)
  {
  }

  lemma NewDictEvicts(s: System, d: Dict, c: Dict) returns (ss: seq<System>, acts: seq<Action>)
    requires s.offers == [c] && |s.held| == 2 && s.held[1] == d != s.held[0] && c !in s.held
    requires s.encoder.current == Some(d)
    ensures IsPath(ss, acts) && ss[0] == s && !Decodable(ss[|acts|])
  {
    ss, acts := [s, Next(s, Install)], [Install];
  }

  lemma FirstStep(s: System, a: Action, ss: seq<System>, acts: seq<Action>)
    returns (ss': seq<System>, acts': seq<Action>)
    requires Enabled(s, a) && IsPath(ss, acts) && ss[0] == Next(s, a)
    ensures IsPath(ss', acts') && ss'[0] == s && ss'[|acts'|] == ss[|acts|]
  {
    hide Enabled, Next;
    ss', acts' := [s] + ss, [a] + acts;
  }

  /**
   Such a run from the start, in which every other offer arrives: it needs both a repeated answer and the lost offer of
   another dictionary that the client holds, so neither condition of the barrier can be dropped.
   */
  lemma StaleAnswerBreaksTheBarrier(policy: Policy, batch: seq<Chunk>, a: Dict, b: Dict, c: Dict)
    returns (ss: seq<System>, acts: seq<Action>, last: System)
    requires a != b && b != c && a != c
    requires policy.chunksThreshold <= |batch| <= 4 * policy.chunksThreshold
    requires SampleBytes(batch) >= policy.minSampleBytes
    ensures Reaches(ss, acts, last) && !Decodable(last)
  {
    hide SampleBytes, Trains, Observed, KeepTwo, Reaches;
    var t := policy.minInterval;
    var e := NewEncoder(ZstdDict, policy).(current := Some(b), previous := Some(a), lastTraining := Some(t));
    var e1 := e.(pending := Some(a), lastTraining := Some(2 * t));
    var e2 := e1.(pending := None, current := Some(a), previous := Some(b));
    var e3 := e2.(pending := Some(c), lastTraining := Some(3 * t));
    TrainsAtOnce(e, batch, 2 * t, a);
    TrainsAtOnce(e2, batch, 3 * t, c);
    Keeps([b, a], c);
    var s0 := System(e, [], [a], [b, a]);
    var s1 := System(e1, [], [a], [b, a]);
    var s2 := System(e2, [], [], [b, a]);
    var s3 := System(e3, [c], [], [b, a]);
    last := System(e3, [], [c], [c, b]);
    ss, acts := StaleAnswer(policy, batch, a, b);
    ss, acts := Then(ss, acts, s0, Observe(batch, 2 * t, Some(a), false), s1);
    ss, acts := Then(ss, acts, s1, Ready, s2);
    ss, acts := Then(ss, acts, s2, Observe(batch, 3 * t, Some(c), true), s3);
    ss, acts := Then(ss, acts, s3, Install, last);
  }

  lemma StaleAnswer(policy: Policy, batch: seq<Chunk>, a: Dict, b: Dict) returns (ss: seq<System>, acts: seq<Action>)
    requires a != b
    requires policy.chunksThreshold <= |batch| <= 4 * policy.chunksThreshold
    requires SampleBytes(batch) >= policy.minSampleBytes
    ensures var t := policy.minInterval;
            var e := NewEncoder(ZstdDict, policy).(current := Some(b), previous := Some(a), lastTraining := Some(t));
            Reaches(ss, acts, System(e, [], [a], [b, a]))
  {
    hide SampleBytes, Trains, Observed, KeepTwo, Reaches;
    var t := policy.minInterval;
    var e1 := NewEncoder(ZstdDict, policy).(pending := Some(a), lastTraining := Some(0));
    var e2 := e1.(pending := None, current := Some(a));
    var e3 := e2.(pending := Some(b), lastTraining := Some(t));
    var e4 := e3.(pending := None, current := Some(b), previous := Some(a));
    TrainsAtOnce(e2, batch, t, b);
    Keeps([a], b);
    var s2 := System(e1, [], [a], [a]);
    var s3 := System(e2, [], [], [a]);
    var s4 := System(e3, [b], [], [a]);
    var s5 := System(e3, [], [b], [b, a]);
    var s6 := System(e3, [], [b, a], [b, a]);
    ss, acts := FirstInstalled(policy, batch, a);
    ss, acts := Then(ss, acts, s2, Ready, s3);
    ss, acts := Then(ss, acts, s3, Observe(batch, t, Some(b), true), s4);
    ss, acts := Then(ss, acts, s4, Install, s5);
    ss, acts := Then(ss, acts, s5, Resend(a), s6);
    ss, acts := Then(ss, acts, s6, Ready, System(e4, [], [a], [b, a]));
  }

  lemma FirstInstalled(policy: Policy, batch: seq<Chunk>, a: Dict) returns (ss: seq<System>, acts: seq<Action>)
    requires policy.chunksThreshold <= |batch| <= 4 * policy.chunksThreshold
    requires SampleBytes(batch) >= policy.minSampleBytes
    ensures var e := NewEncoder(ZstdDict, policy).(pending := Some(a), lastTraining := Some(0));
            Reaches(ss, acts, System(e, [], [a], [a]))
  {
    hide SampleBytes, Trains, Observed, KeepTwo, Reaches;
    var e0 := NewEncoder(ZstdDict, policy);
    var e1 := e0.(pending := Some(a), lastTraining := Some(0));
    TrainsAtOnce(e0, batch, 0, a);
    Keeps([], a);
    var s1 := System(e1, [a], [], []);
    ss, acts := Start(e0);
    ss, acts := Then(ss, acts, System(e0, [], [], []), Observe(batch, 0, Some(a), true), s1);
    ss, acts := Then(ss, acts, s1, Install, System(e1, [], [a], [a]));
  }

  /** With repeated answers and a recurring dictionary two offers may be under way. */
  lemma RecurringOffersPileUp(policy: Policy, batch: seq<Chunk>, a: Dict, c: Dict)
    returns (ss: seq<System>, acts: seq<Action>, last: System)
    requires policy.chunksThreshold <= |batch| <= 4 * policy.chunksThreshold
    requires SampleBytes(batch) >= policy.minSampleBytes
    ensures Reaches(ss, acts, last) && !OneOffer(last)
  {
    hide SampleBytes, Trains, Observed, KeepTwo, Reaches;
    var t := policy.minInterval;
    var e2 := NewEncoder(ZstdDict, policy).(current := Some(a), lastTraining := Some(0));
    var e3 := e2.(pending := Some(a), lastTraining := Some(t));
    var e4 := e3.(pending := None, current := Some(a), previous := Some(a));
    var e5 := e4.(pending := Some(c), lastTraining := Some(2 * t));
    TrainsAtOnce(e2, batch, t, a);
    TrainsAtOnce(e4, batch, 2 * t, c);
    var s4 := System(e2, [], [a], [a]);
    var s5 := System(e3, [a], [a], [a]);
    var s6 := System(e4, [a], [], [a]);
    last := System(e5, [a, c], [], [a]);
    ss, acts := AnsweredTwice(policy, batch, a);
    ss, acts := Then(ss, acts, s4, Observe(batch, t, Some(a), true), s5);
    ss, acts := Then(ss, acts, s5, Ready, s6);
    ss, acts := Then(ss, acts, s6, Observe(batch, 2 * t, Some(c), true), last);
  }

  lemma AnsweredTwice(policy: Policy, batch: seq<Chunk>, a: Dict) returns (ss: seq<System>, acts: seq<Action>)
    requires policy.chunksThreshold <= |batch| <= 4 * policy.chunksThreshold
    requires SampleBytes(batch) >= policy.minSampleBytes
    ensures var e := NewEncoder(ZstdDict, policy).(current := Some(a), lastTraining := Some(0));
            Reaches(ss, acts, System(e, [], [a], [a]))
  {
    hide SampleBytes, Trains, Observed, KeepTwo, Reaches;
    var e1 := NewEncoder(ZstdDict, policy).(pending := Some(a), lastTraining := Some(0));
    var e2 := e1.(pending := None, current := Some(a));
    var s2 := System(e1, [], [a], [a]);
    var s3 := System(e1, [], [a, a], [a]);
    ss, acts := FirstInstalled(policy, batch, a);
    ss, acts := Then(ss, acts, s2, Resend(a), s3);
    ss, acts := Then(ss, acts, s3, Ready, System(e2, [], [a], [a]));
  }

  /** Equality, field by field. */
  predicate Same(s: System, t: System) {
    s.encoder == t.encoder && s.offers == t.offers && s.readies == t.readies && s.held == t.held
  }

  ghost predicate Reaches(ss: seq<System>, acts: seq<Action>, last: System) {
    IsRun(ss, acts) && ss[|acts|] == last
  }

  lemma Start(e: Encoder) returns (ss: seq<System>, acts: seq<Action>)
    requires e.current.None? && e.previous.None? && e.pending.None? && e.samples == []
    ensures Reaches(ss, acts, System(e, [], [], []))
  {
    ss, acts := [System(e, [], [], [])], [];
  }

  /** A run, one step longer. */
  lemma Then(ss: seq<System>, acts: seq<Action>, s: System, a: Action, next: System)
    returns (ss': seq<System>, acts': seq<Action>)
    requires Reaches(ss, acts, s) && Enabled(s, a) && Same(Next(s, a), next)
    ensures Reaches(ss', acts', next)
  {
    hide Enabled, Next;
    ss', acts' := ss + [next], acts + [a];
  }

  lemma Keeps(held: seq<Dict>, d: Dict)
    requires d !in held
    ensures KeepTwo(held, d) == if held == [] then [d] else [d, held[0]]
  {
  }

  lemma TrainsAtOnce(e: Encoder, batch: seq<Chunk>, now: nat, d: Dict)
    requires e.suite.ZstdDict? && e.pending.None? && e.samples == []
    requires e.lastTraining.Some? ==> Elapsed(now, e.lastTraining.value) >= e.policy.minInterval
    requires e.policy.chunksThreshold <= |batch| <= 4 * e.policy.chunksThreshold
    requires SampleBytes(batch) >= e.policy.minSampleBytes
    ensures Trains(e, batch, now)
    ensures Observed(e, batch, now, Some(d)) == e.(pending := Some(d), lastTraining := Some(now))
  {
    assert e.samples + batch == batch;
  }
}
