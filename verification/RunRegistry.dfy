/**
 * The durable run registry: trust bindings, run entries, and the two-phase `begin` that publishes a
 * lineage with UNKNOWN availability before it samples the clock and admits a run.
 */
module RunRegistry {
  import opened Common
  import opened OutcomeTrust

  datatype Status = InProgress | Completed | Aborted

  datatype Hashes = Hashes(book: string, ledger: string)

  /** The base identity digest is injective in these three fields, so the fields stand for it. */
  datatype Experiment = Experiment(market: string, results: string, strategy: string)

  datatype Key = First(e: Experiment) | Repeat(e: Experiment, runId: string) | Retry(e: Experiment, runId: string)

  datatype Entry = Entry(
    experiment: Experiment, runId: string, status: Status, base: Option<Hashes>, lineage: Option<Binding>)

  /** `legacy` is schema version 1, which has no trust list. */
  datatype State = State(legacy: bool, runs: map<Key, Entry>, trust: seq<Binding>)

  const PRISTINE := State(true, map[], [])

  // ---- The trust list ---------------------------------------------------------------------

  function Lookup(trust: seq<Binding>, id: Identity): (r: Option<Binding>)
    ensures r.Some? ==> r.value in trust && r.value.lineage.identity == id
    ensures r.None? ==> forall b :: b in trust ==> b.lineage.identity != id
  {
    if trust == [] then None
    else if trust[0].lineage.identity == id then Some(trust[0])
    else Lookup(trust[1..], id)
  }

  predicate DistinctIdentities(trust: seq<Binding>) {
    forall i, j :: 0 <= i < j < |trust| ==> trust[i].lineage.identity != trust[j].lineage.identity
  }

  /** Replaces the binding of the same identity, or appends. */
  function Store(trust: seq<Binding>, b: Binding): (r: seq<Binding>)
    ensures r != []
    ensures forall x :: x in r ==> x == b || x in trust
  {
    if trust == [] then [b]
    else if trust[0].lineage.identity == b.lineage.identity then [b] + trust[1..]
    else [trust[0]] + Store(trust[1..], b)
  }

  lemma {:induction false} StoreThenLookup(trust: seq<Binding>, b: Binding, id: Identity)
    ensures Lookup(Store(trust, b), id) == if id == b.lineage.identity then Some(b) else Lookup(trust, id)
  {
    if trust != [] && trust[0].lineage.identity != b.lineage.identity {
      StoreThenLookup(trust[1..], b, id);
    }
  }

  lemma {:induction false} StoreKeepsDistinct(trust: seq<Binding>, b: Binding)
    requires DistinctIdentities(trust)
    ensures DistinctIdentities(Store(trust, b))
  {
    if trust != [] {
      var rest := trust[1..];
      assert forall i :: 0 <= i < |rest| ==> rest[i] == trust[i + 1];
      if trust[0].lineage.identity != b.lineage.identity {
        StoreKeepsDistinct(rest, b);
        var stored := Store(rest, b);
        forall i, j | 0 <= i < j < |Store(trust, b)|
          ensures Store(trust, b)[i].lineage.identity != Store(trust, b)[j].lineage.identity
        {
          assert Store(trust, b)[j] == stored[j - 1];
          if i > 0 { assert Store(trust, b)[i] == stored[i - 1]; }
          assert stored[j - 1] in stored;
        }
      }
    }
  }

  lemma {:induction false} LookupFinds(trust: seq<Binding>, i: nat)
    requires DistinctIdentities(trust) && i < |trust|
    ensures Lookup(trust, trust[i].lineage.identity) == Some(trust[i])
  {
    if i > 0 { LookupFinds(trust[1..], i - 1); }
  }

  method StoreTrustBinding(trust: seq<Binding>, b: Binding) returns (r: seq<Binding>)
    ensures r == Store(trust, b)
  {
    for index := 0 to |trust|
      invariant Store(trust, b) == trust[..index] + Store(trust[index..], b)
    {
      if trust[index].lineage.identity == b.lineage.identity {
        r := trust[index := b];
        assert r == trust[..index] + ([b] + trust[index..][1..]);
        return;
      }
      assert trust[index..] == [trust[index]] + trust[index + 1..];
      assert trust[..index + 1] == trust[..index] + [trust[index]];
    }
    return trust + [b];
  }

  // ---- The registry-wide fence ------------------------------------------------------------

  predicate IsKnownTime(trust: seq<Binding>, t: Instant) {
    exists b :: b in trust && Some(t) in b.times
  }

  /** `r` is the greatest established time of the whole registry. */
  ghost predicate IsFence(trust: seq<Binding>, r: Option<Instant>) {
    match r
    case None => forall t :: !IsKnownTime(trust, t)
    case Some(f) => IsKnownTime(trust, f) && forall t :: IsKnownTime(trust, t) ==> t <= f
  }

  function Higher(a: Option<Instant>, b: Option<Instant>): Option<Instant> {
    if a.None? then b else if b.None? then a else if a.value < b.value then b else a
  }

  function ColumnHigh(times: Times): (r: Option<Instant>)
    ensures r.None? ==> forall t :: Some(t) !in times
    ensures r.Some? ==> r in times && forall t :: Some(t) in times ==> t <= r.value
  {
    if times == [] then None else Higher(times[0], ColumnHigh(times[1..]))
  }

  function Fence(trust: seq<Binding>): (r: Option<Instant>)
    ensures IsFence(trust, r)
  {
    if trust == [] then None
    else
      var rest := Fence(trust[1..]);
      assert forall t :: IsKnownTime(trust, t) <==> Some(t) in trust[0].times || IsKnownTime(trust[1..], t) by {
        FenceSplits(trust);
      }
      Higher(ColumnHigh(trust[0].times), rest)
  }

  lemma FenceSplits(trust: seq<Binding>)
    requires trust != []
    ensures forall t :: IsKnownTime(trust, t) <==> Some(t) in trust[0].times || IsKnownTime(trust[1..], t)
  {
    forall t ensures IsKnownTime(trust, t) <==> Some(t) in trust[0].times || IsKnownTime(trust[1..], t) {
      if IsKnownTime(trust, t) {
        var b :| b in trust && Some(t) in b.times;
        assert b == trust[0] || b in trust[1..];
      }
      if IsKnownTime(trust[1..], t) {
        var b :| b in trust[1..] && Some(t) in b.times;
        assert b in trust;
      }
    }
  }

  lemma FenceUnique(trust: seq<Binding>, a: Option<Instant>, b: Option<Instant>)
    requires IsFence(trust, a) && IsFence(trust, b)
    ensures a == b
  {
    if a.Some? { assert IsKnownTime(trust, a.value); }
    if b.Some? { assert IsKnownTime(trust, b.value); }
  }

  /** Collects every established time and takes their maximum. */
  method RegistryFence(trust: seq<Binding>) returns (fence: Option<Instant>)
    ensures fence == Fence(trust)
  {
    var established: seq<Instant> := [];
    for i := 0 to |trust|
      invariant forall t :: t in established <==> IsKnownTime(trust[..i], t)
    {
      var times := trust[i].times;
      ghost var before := established;
      for j := 0 to |times|
        invariant forall t :: t in established <==> t in before || Some(t) in times[..j]
      {
        if times[j].Some? { established := established + [times[j].value]; }
      }
      assert times[..|times|] == times;
      assert trust[..i + 1] == trust[..i] + [trust[i]];
      forall t ensures t in established <==> IsKnownTime(trust[..i + 1], t) {
        KnownTimeAppend(trust[..i], trust[i], t);
      }
    }
    assert trust[..|trust|] == trust;
    fence := None;
    for i := 0 to |established|
      invariant fence.None? <==> i == 0
      invariant fence.Some? ==> fence.value in established
      invariant forall j :: 0 <= j < i ==> established[j] <= fence.value
    {
      if fence.None? || fence.value < established[i] { fence := Some(established[i]); }
    }
    assert IsFence(trust, fence) by {
      forall t | IsKnownTime(trust, t) ensures fence.Some? && t <= fence.value { assert t in established; }
    }
    FenceUnique(trust, fence, Fence(trust));
  }

  lemma KnownTimeAppend(trust: seq<Binding>, b: Binding, t: Instant)
    ensures IsKnownTime(trust + [b], t) <==> IsKnownTime(trust, t) || Some(t) in b.times
  {
    if IsKnownTime(trust, t) {
      var x :| x in trust && Some(t) in x.times;
      assert x in trust + [b];
    }
    if Some(t) in b.times { assert b in trust + [b]; }
  }

  /** A clock sample may mint availability only strictly after the fence. */
  predicate AfterFence(candidate: Instant, fence: Option<Instant>) {
    fence.Some? ==> fence.value < candidate
  }

  // ---- What the reader accepts ------------------------------------------------------------

  predicate KeyFits(k: Key, e: Entry) {
    k == First(e.experiment) || k == Repeat(e.experiment, e.runId) || k == Retry(e.experiment, e.runId)
  }

  /** A run's lineage is held by the trust list: compatible, not downgraded, not longer. */
  predicate Backed(trust: seq<Binding>, lineage: Binding) {
    var t := Lookup(trust, lineage.lineage.identity);
    && t.Some?
    && Compatible(t.value, lineage)
    && (forall i :: 0 <= i < |t.value.times| && i < |lineage.times| && lineage.times[i].Some? ==>
          t.value.times[i].Some?)
    && |lineage.times| <= |t.value.times|
  }

  lemma BackedMeansExtended(trust: seq<Binding>, lineage: Binding)
    ensures Backed(trust, lineage) <==>
            Lookup(trust, lineage.lineage.identity).Some?
            && Extends(lineage, Lookup(trust, lineage.lineage.identity).value)
  {
  }

  predicate TrustReadable(trust: seq<Binding>) {
    DistinctIdentities(trust) && forall b :: b in trust ==> Parseable(b)
  }

  predicate LineageReadable(s: State, e: Entry) {
    e.lineage.Some? ==> !s.legacy && Parseable(e.lineage.value) && Backed(s.trust, e.lineage.value)
  }

  predicate UniqueRunIds(runs: map<Key, Entry>) {
    forall k, l :: k in runs && l in runs && k != l ==> runs[k].runId != runs[l].runId
  }

  predicate Readable(s: State) {
    && (s.legacy <==> s.trust == [])
    && TrustReadable(s.trust)
    && UniqueRunIds(s.runs)
    && forall k :: k in s.runs ==> KeyFits(k, s.runs[k]) && LineageReadable(s, s.runs[k])
  }

  // ---- Queries ----------------------------------------------------------------------------

  /** `None` outside means the registry cannot be read. */
  function AsOfQuery(s: State, id: Identity, cutoff: Instant): Option<Result<Option<Known>, TrustError>> {
    if !Readable(s) then None
    else match Lookup(s.trust, id)
         case None => Some(Ok(None))
         case Some(b) => Some(AsOf(b, cutoff))
  }

  // ---- Admission --------------------------------------------------------------------------

  /** The caller's times in `lineage` are assertions that are never used. */
  datatype Request = Request(
    experiment: Experiment, runId: string, allowRepeat: bool, base: Option<Hashes>, lineage: Option<Binding>)

  datatype BeginError =
    | Unreadable | BadArguments | Trust(why: TrustError) | Unresolved | RepeatedExperiment
    | RepeatedRunId | Interrupted | UnknownKey | NotInProgress | BaseMismatch

  datatype Outcome = Began(key: Key) | Done | Refused(error: BeginError)

  predicate ArgumentsSound(req: Request) {
    && CanonicalDigest(req.experiment.market) && CanonicalDigest(req.experiment.results)
    && CanonicalText(req.experiment.strategy) && CanonicalText(req.runId)
    && (req.base.Some? ==> CanonicalDigest(req.base.value.book) && CanonicalDigest(req.base.value.ledger))
  }

  function Untimed(l: Lineage): (b: Binding)
    ensures b.lineage == l && NoneKnown(b.times)
  {
    Staged(l, None)
  }

  /** Neither the trust list nor any stored run may disagree with the incoming lineage. */
  predicate LineageCompatible(s: State, incoming: Lineage) {
    var trusted := Lookup(s.trust, incoming.identity);
    && (trusted.Some? ==> Compatible(trusted.value, Untimed(incoming)))
    && forall k :: k in s.runs && s.runs[k].lineage.Some? ==>
         Compatible(s.runs[k].lineage.value, Untimed(incoming))
  }

  predicate LineageStale(s: State, incoming: Lineage) {
    var trusted := Lookup(s.trust, incoming.identity);
    trusted.Some? && |incoming.revisions| < |trusted.value.times|
  }

  predicate Active(runs: map<Key, Entry>) { exists k :: k in runs && runs[k].status.InProgress? }

  predicate RunIdUsed(runs: map<Key, Entry>, runId: string) { exists k :: k in runs && runs[k].runId == runId }

  predicate Tried(runs: map<Key, Entry>, e: Experiment) { exists k :: k in runs && runs[k].experiment == e }

  predicate Finished(runs: map<Key, Entry>, e: Experiment) {
    exists k :: k in runs && runs[k].experiment == e && runs[k].status.Completed?
  }

  function Admit(s: State, req: Request): Result<Key, BeginError> {
    if req.lineage.Some? && !LineageCompatible(s, req.lineage.value.lineage) then Err(Trust(LineageConflict))
    else if req.lineage.Some? && LineageStale(s, req.lineage.value.lineage) then Err(Trust(StalePrefix))
    else if Active(s.runs) then Err(Unresolved)
    else if Finished(s.runs, req.experiment) && !req.allowRepeat then Err(RepeatedExperiment)
    else if RunIdUsed(s.runs, req.runId) then Err(RepeatedRunId)
    else
      var key := if !Tried(s.runs, req.experiment) then First(req.experiment)
                 else if Finished(s.runs, req.experiment) then Repeat(req.experiment, req.runId)
                 else Retry(req.experiment, req.runId);
      if key in s.runs then Err(RepeatedRunId) else Ok(key)
  }

  function EntryFor(req: Request, lineage: Option<Binding>): Entry {
    Entry(req.experiment, req.runId, InProgress, req.base, lineage)
  }

  function Enter(s: State, key: Key, entry: Entry): State { s.(runs := s.runs[key := entry]) }

  function PutTrust(s: State, b: Binding): State { State(false, s.runs, Store(s.trust, b)) }

  // ---- begin ------------------------------------------------------------------------------

  /** What the outside world decides during one call: two clock reads and a stop between the writes. */
  datatype Env = Env(probe: Instant, sample: Instant, stop: bool)

  predicate ProbeNeeded(previous: Option<Binding>, incoming: Lineage) {
    previous.Some? && |incoming.revisions| > |previous.value.times| && !NoneKnown(previous.value.times)
  }

  /** The state after the first durable write, in which new revisions are UNKNOWN. */
  function IdentityPublished(s: State, incoming: Lineage): State {
    var previous := Lookup(s.trust, incoming.identity);
    var staged := Staged(incoming, previous);
    if previous == Some(staged) then s else PutTrust(s, staged)
  }

  function StagedIn(s: State, incoming: Lineage): Binding {
    Staged(incoming, Lookup(s.trust, incoming.identity))
  }

  /** The call gets as far as the first durable write. */
  predicate Publishes(s: State, req: Request, env: Env) {
    && Readable(s) && ArgumentsSound(req) && req.lineage.Some?
    && LineageSound(req.lineage.value.lineage)
    && Admit(s, req).Ok?
    && (ProbeNeeded(Lookup(s.trust, req.lineage.value.lineage.identity), req.lineage.value.lineage) ==>
          AfterFence(env.probe, Fence(s.trust)))
  }

  /** The call mints `env.sample` as a first availability time. */
  predicate Mints(s: State, req: Request, env: Env) {
    && Publishes(s, req, env) && !env.stop
    && !AllKnown(StagedIn(s, req.lineage.value.lineage).times)
    && AfterFence(env.sample, Fence(s.trust))
  }

  function FinalBinding(s: State, incoming: Lineage, sample: Instant): Binding {
    var staged := StagedIn(s, incoming);
    if AllKnown(staged.times) then staged else Bound(incoming, sample, Some(staged))
  }

  /** The durable file and the outcome of one `begin` call. */
  function BeginStep(s: State, req: Request, env: Env): (State, Outcome) {
    if !Readable(s) then (s, Refused(Unreadable))
    else if !ArgumentsSound(req) then (s, Refused(BadArguments))
    else if req.lineage.Some? && !LineageSound(req.lineage.value.lineage) then (s, Refused(Trust(MalformedLineage)))
    else if Admit(s, req).Err? then (s, Refused(Admit(s, req).error))
    else
      var key := Admit(s, req).value;
      if req.lineage.None? then (Enter(s, key, EntryFor(req, None)), Began(key))
      else
        var incoming := req.lineage.value.lineage;
        var mid := IdentityPublished(s, incoming);
        if !Publishes(s, req, env) then (s, Refused(Trust(ClockNotAfterFence)))
        else if env.stop then (mid, Refused(Interrupted))
        else if AllKnown(StagedIn(s, incoming).times) then
          (Enter(mid, key, EntryFor(req, Some(StagedIn(s, incoming)))), Began(key))
        else if !Mints(s, req, env) then (mid, Refused(Trust(ClockNotAfterFence)))
        else
          var bound := FinalBinding(s, incoming, env.sample);
          (Enter(PutTrust(mid, bound), key, EntryFor(req, Some(bound))), Began(key))
  }

  function CompleteStep(s: State, key: Key): (State, Outcome) {
    if !Readable(s) then (s, Refused(Unreadable))
    else if key !in s.runs then (s, Refused(UnknownKey))
    else if !s.runs[key].status.InProgress? then (s, Refused(NotInProgress))
    else (Enter(s, key, s.runs[key].(status := Completed)), Done)
  }

  /** An abort needs the recorded transaction base and the unchanged economic state it names. */
  function AbortStep(s: State, key: Key, observed: Hashes): (State, Outcome) {
    if !Readable(s) then (s, Refused(Unreadable))
    else if key !in s.runs then (s, Refused(UnknownKey))
    else if !s.runs[key].status.InProgress? then (s, Refused(NotInProgress))
    else if s.runs[key].base != Some(observed) then (s, Refused(BaseMismatch))
    else (Enter(s, key, s.runs[key].(status := Aborted)), Done)
  }

  /** Only the status of one in-progress run changed: trust, all other entries and every as-of answer stand. */
  ghost predicate Ended(s: State, v: State, key: Key, status: Status) {
    && Readable(s) && Readable(v) && v.trust == s.trust && v.runs.Keys == s.runs.Keys
    && key in s.runs && s.runs[key].status.InProgress? && v.runs[key] == s.runs[key].(status := status)
    && (forall k :: k in s.runs && k != key ==> v.runs[k] == s.runs[k])
    && forall id, cutoff :: AsOfQuery(v, id, cutoff) == AsOfQuery(s, id, cutoff)
  }

  lemma StatusAlone(s: State, key: Key, status: Status)
    requires Readable(s) && key in s.runs && s.runs[key].status.InProgress?
    ensures Ended(s, Enter(s, key, s.runs[key].(status := status)), key, status)
  {
    var v := Enter(s, key, s.runs[key].(status := status));
    forall k | k in v.runs ensures KeyFits(k, v.runs[k]) && LineageReadable(v, v.runs[k]) {
      assert LineageReadable(s, s.runs[k]);
    }
  }

  /** The registry object: one durable file behind one lock. */
  class Registry {
    var file: State

    constructor Pristine()
      ensures file == PRISTINE
    {
      file := PRISTINE;
    }

    method OutcomeRevisionAsOf(id: Identity, cutoff: Instant)
      returns (r: Option<Result<Option<Known>, TrustError>>)
      ensures r == AsOfQuery(file, id, cutoff)
    {
      if !Readable(file) { return None; }
      var trusted := Lookup(file.trust, id);
      if trusted.None? { return Some(Ok(None)); }
      var answer := ResolveAsOf(trusted.value, cutoff);
      return Some(answer);
    }

    method Begin(req: Request, env: Env) returns (outcome: Outcome)
      modifies this
      ensures (file, outcome) == BeginStep(old(file), req, env)
    {
      if !Readable(file) { return Refused(Unreadable); }
      var fence := RegistryFence(file.trust);
      if !ArgumentsSound(req) { return Refused(BadArguments); }
      if req.lineage.Some? && !LineageSound(req.lineage.value.lineage) {
        return Refused(Trust(MalformedLineage));
      }
      var state := file;
      var admitted := Admit(state, req);
      if admitted.Err? { return Refused(admitted.error); }
      var key := admitted.value;
      if req.lineage.None? {
        file := Enter(state, key, EntryFor(req, None));
        return Began(key);
      }

      var incoming := req.lineage.value.lineage;
      var previous := Lookup(state.trust, incoming.identity);
      if ProbeNeeded(previous, incoming) {
        if !AfterFence(env.probe, fence) { return Refused(Trust(ClockNotAfterFence)); }
      }

      var staged := StageRevisions(incoming, previous);
      if previous != Some(staged) {
        var trust := StoreTrustBinding(state.trust, staged);
        state := State(false, state.runs, trust);
        file := state;
        if env.stop { return Refused(Interrupted); }
        state := file;
        StoreThenLookup(old(file).trust, staged, incoming.identity);
        var persisted := Lookup(state.trust, incoming.identity);
        if persisted != Some(staged) { assert false; }
      } else if env.stop {
        return Refused(Interrupted);
      }

      var productBound := staged;
      if !AllKnown(staged.times) {
        if !AfterFence(env.sample, fence) { return Refused(Trust(ClockNotAfterFence)); }
        StagedNeverRefused(old(file), req, env);
        var bound := BindAvailability(incoming, env.sample, Some(staged));
        productBound := bound.value;
        var trust := StoreTrustBinding(state.trust, productBound);
        state := State(false, state.runs, trust);
      }
      state := Enter(state, key, EntryFor(req, Some(productBound)));
      file := state;
      return Began(key);
    }

    method Complete(key: Key) returns (outcome: Outcome)
      modifies this
      ensures outcome.Done? ==> Ended(old(file), file, key, Completed)
      ensures !outcome.Done? ==> file == old(file)
      ensures outcome.Done? <==>
                Readable(old(file)) && key in old(file).runs && old(file).runs[key].status.InProgress?
      ensures (file, outcome) == CompleteStep(old(file), key)
    {
      if !Readable(file) { return Refused(Unreadable); }
      if key !in file.runs { return Refused(UnknownKey); }
      if !file.runs[key].status.InProgress? { return Refused(NotInProgress); }
      StatusAlone(file, key, Completed);
      file := file.(runs := file.runs[key := file.runs[key].(status := Completed)]);
      return Done;
    }

    method AbortUncommitted(key: Key, observed: Hashes) returns (outcome: Outcome)
      modifies this
      ensures outcome.Done? ==> Ended(old(file), file, key, Aborted)
      ensures !outcome.Done? ==> file == old(file)
      ensures outcome.Done? <==>
                && Readable(old(file)) && key in old(file).runs && old(file).runs[key].status.InProgress?
                && old(file).runs[key].base == Some(observed)
      ensures (file, outcome) == AbortStep(old(file), key, observed)
    {
      if !Readable(file) { return Refused(Unreadable); }
      if key !in file.runs { return Refused(UnknownKey); }
      if !file.runs[key].status.InProgress? { return Refused(NotInProgress); }
      if file.runs[key].base != Some(observed) { return Refused(BaseMismatch); }
      StatusAlone(file, key, Aborted);
      file := file.(runs := file.runs[key := file.runs[key].(status := Aborted)]);
      return Done;
    }
  }

  /** Once a sample is after the fence, binding the staged lineage is never refused. */
  lemma StagedNeverRefused(s: State, req: Request, env: Env)
    requires Publishes(s, req, env) && AfterFence(env.sample, Fence(s.trust))
    ensures var incoming := req.lineage.value.lineage;
            !AllKnown(StagedIn(s, incoming).times) ==>
              BindRefusal(incoming, env.sample, Some(StagedIn(s, incoming))).None?
  {
    var incoming := req.lineage.value.lineage;
    var previous := Lookup(s.trust, incoming.identity);
    var staged := StagedIn(s, incoming);
    if previous.Some? {
      assert Parseable(previous.value);
      assert KnownPrefix(staged.times);
      forall i | 0 <= i < |staged.times| && staged.times[i].Some? ensures staged.times[i].value < env.sample {
        assert staged.times[i] in previous.value.times;
        assert IsKnownTime(s.trust, staged.times[i].value);
      }
    }
  }
}
