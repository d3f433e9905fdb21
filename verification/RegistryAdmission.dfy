/** Which calls of `begin` are admitted, under which key, and what they record. */
module RegistryAdmission {
  import opened Common
  import opened OutcomeTrust
  import opened RunRegistry
  import opened RegistryHistory

  // ---- Admission in terms of the durable file -------------------------------------------------------

  predicate NobodyRuns(runs: map<Key, Entry>) { forall k :: k in runs ==> !runs[k].status.InProgress? }

  predicate NewRunId(runs: map<Key, Entry>, runId: string) { forall k :: k in runs ==> runs[k].runId != runId }

  predicate Known(runs: map<Key, Entry>, e: Experiment) { exists k :: k in runs && runs[k].experiment == e }

  predicate Settled(runs: map<Key, Entry>, e: Experiment) {
    exists k :: k in runs && runs[k].experiment == e && runs[k].status == Completed
  }

  /** The trusted history is a beginning of the incoming one. */
  predicate Continued(b: Binding, incoming: Lineage) {
    && b.lineage.rootId == incoming.rootId && b.lineage.rootSha == incoming.rootSha
    && b.lineage.revisions <= incoming.revisions
  }

  predicate Continuable(trust: seq<Binding>, incoming: Lineage) {
    forall b :: b in trust && b.lineage.identity == incoming.identity ==> Continued(b, incoming)
  }

  /** New revisions come after some that already have a time. */
  predicate GrowsKnown(trust: seq<Binding>, incoming: Lineage) {
    exists b :: b in trust && b.lineage.identity == incoming.identity
                && |b.lineage.revisions| < |incoming.revisions| && !NoneKnown(b.times)
  }

  /** Every incoming revision has its time already. */
  predicate Established(trust: seq<Binding>, incoming: Lineage) {
    exists b :: b in trust && b.lineage.identity == incoming.identity
                && |b.lineage.revisions| == |incoming.revisions| && AllKnown(b.times)
  }

  /** What the trust list and the clocks must offer a call with a lineage. */
  predicate LineageServed(trust: seq<Binding>, incoming: Lineage, env: Env) {
    && LineageSound(incoming) && Continuable(trust, incoming) && !env.stop
    && (GrowsKnown(trust, incoming) ==> AfterFence(env.probe, Fence(trust)))
    && (Established(trust, incoming) || AfterFence(env.sample, Fence(trust)))
  }

  lemma OnlyBinding(trust: seq<Binding>, b: Binding)
    requires DistinctIdentities(trust) && b in trust
    ensures Lookup(trust, b.lineage.identity) == Some(b)
  {
    var i :| 0 <= i < |trust| && trust[i] == b;
    LookupFinds(trust, i);
  }

  /** What the trust list says about one identity is what its lookup says. */
  lemma TrustOf(trust: seq<Binding>, incoming: Lineage)
    requires DistinctIdentities(trust)
    ensures var held := Lookup(trust, incoming.identity);
            && (Continuable(trust, incoming) <==> (held.Some? ==> Continued(held.value, incoming)))
            && (GrowsKnown(trust, incoming) <==> ProbeNeeded(held, incoming))
            && (Established(trust, incoming) <==>
                held.Some? && |held.value.lineage.revisions| == |incoming.revisions| && AllKnown(held.value.times))
  {
    forall b | b in trust && b.lineage.identity == incoming.identity
      ensures Lookup(trust, incoming.identity) == Some(b)
    {
      OnlyBinding(trust, b);
    }
  }

  /** A stored run lineage is a beginning of its trust binding, so it agrees with what continues that. */
  lemma RunsAgree(s: State, incoming: Lineage)
    requires Readable(s) && LineageSound(incoming)
    ensures LineageCompatible(s, incoming) && !LineageStale(s, incoming) <==> Continuable(s.trust, incoming)
  {
    var held := Lookup(s.trust, incoming.identity);
    TrustOf(s.trust, incoming);
    if Continuable(s.trust, incoming) {
      forall k | k in s.runs && s.runs[k].lineage.Some? ensures Compatible(s.runs[k].lineage.value, Untimed(incoming)) {
        assert LineageReadable(s, s.runs[k]);
        RunAgrees(s.trust, s.runs[k].lineage.value, incoming);
      }
    }
  }

  lemma RunAgrees(trust: seq<Binding>, run: Binding, incoming: Lineage)
    requires DistinctIdentities(trust) && Backed(trust, run) && Continuable(trust, incoming)
    ensures Compatible(run, Untimed(incoming))
  {
    var held := Lookup(trust, run.lineage.identity).value;
    if run.lineage.identity == incoming.identity {
      assert Continued(held, incoming);
      BackedMeansExtended(trust, run);
      assert run.lineage.revisions <= incoming.revisions;
    }
  }

  lemma FitsItsKey(s: State, k: Key)
    requires Readable(s) && k in s.runs
    ensures s.runs[k].experiment == k.e && (k.Repeat? || k.Retry? ==> s.runs[k].runId == k.runId)
  {
    assert KeyFits(k, s.runs[k]);
  }

  /** The key of an admitted run. */
  function ChosenKey(runs: map<Key, Entry>, e: Experiment, runId: string): Key {
    if !Known(runs, e) then First(e) else if Settled(runs, e) then Repeat(e, runId) else Retry(e, runId)
  }

  lemma ChosenKeyIsFree(s: State, e: Experiment, runId: string)
    requires Readable(s) && NewRunId(s.runs, runId)
    ensures ChosenKey(s.runs, e, runId) !in s.runs
  {
    var key := ChosenKey(s.runs, e, runId);
    if key in s.runs { FitsItsKey(s, key); }
  }

  predicate Welcome(s: State, req: Request) {
    && NobodyRuns(s.runs) && NewRunId(s.runs, req.runId)
    && (req.allowRepeat || !Settled(s.runs, req.experiment))
  }

  /** Admission of a call whose lineage, if any, continues what is held. */
  lemma AdmitsExactly(s: State, req: Request)
    requires Readable(s)
    requires req.lineage.Some? ==>
               LineageSound(req.lineage.value.lineage) && Continuable(s.trust, req.lineage.value.lineage)
    ensures Admit(s, req) ==
            if !NobodyRuns(s.runs) then Err(Unresolved)
            else if !req.allowRepeat && Settled(s.runs, req.experiment) then Err(RepeatedExperiment)
            else if !NewRunId(s.runs, req.runId) then Err(RepeatedRunId)
            else Ok(ChosenKey(s.runs, req.experiment, req.runId))
  {
    if req.lineage.Some? { RunsAgree(s, req.lineage.value.lineage); }
    if NewRunId(s.runs, req.runId) { ChosenKeyIsFree(s, req.experiment, req.runId); }
    assert Settled(s.runs, req.experiment) <==> Finished(s.runs, req.experiment);
    assert Known(s.runs, req.experiment) <==> Tried(s.runs, req.experiment);
  }

  lemma PublishesExactly(s: State, req: Request, env: Env)
    requires req.lineage.Some?
    ensures var incoming := req.lineage.value.lineage;
            Publishes(s, req, env) <==>
            && Readable(s) && ArgumentsSound(req) && LineageSound(incoming) && Continuable(s.trust, incoming)
            && Welcome(s, req) && (GrowsKnown(s.trust, incoming) ==> AfterFence(env.probe, Fence(s.trust)))
  {
    var incoming := req.lineage.value.lineage;
    if Readable(s) && LineageSound(incoming) {
      TrustOf(s.trust, incoming);
      RunsAgree(s, incoming);
      if Continuable(s.trust, incoming) { AdmitsExactly(s, req); }
    }
  }

  lemma StagedKnown(s: State, incoming: Lineage)
    requires Readable(s) && LineageSound(incoming) && Continuable(s.trust, incoming)
    ensures AllKnown(StagedIn(s, incoming).times) <==> Established(s.trust, incoming)
  {
    var held := Lookup(s.trust, incoming.identity);
    var times := StagedIn(s, incoming).times;
    TrustOf(s.trust, incoming);
    assert |times| == |incoming.revisions| > 0;
    assert times[0] == Carried(held, 0) && times[|times| - 1] == Carried(held, |times| - 1);
    if held.Some? && |held.value.times| == |times| {
      assert forall i :: 0 <= i < |times| ==> times[i] == held.value.times[i];
    }
  }

  /**
   * A call begins a run exactly when the file is readable, the arguments are sound, no run is in progress,
   * no entry has the run id, the experiment was not completed or the repeat is allowed, and a lineage, if
   * there is one, continues what is held, needs no clock that is not past the fence, and meets no stop.
   */
  lemma BeginsExactly(s: State, req: Request, env: Env)
    ensures BeginStep(s, req, env).1.Began? <==>
            && Readable(s) && ArgumentsSound(req) && Welcome(s, req)
            && (req.lineage.Some? ==> LineageServed(s.trust, req.lineage.value.lineage, env))
  {
    if req.lineage.None? {
      if Readable(s) { AdmitsExactly(s, req); }
    } else {
      var incoming := req.lineage.value.lineage;
      PublishesExactly(s, req, env);
      if Publishes(s, req, env) { StagedKnown(s, incoming); }
    }
  }

  /** A completed experiment is not begun again without leave, and the refusal leaves the file alone. */
  lemma RepeatIsRefused(s: State, req: Request, env: Env)
    requires Settled(s.runs, req.experiment) && !req.allowRepeat
    ensures !BeginStep(s, req, env).1.Began? && BeginStep(s, req, env).0 == s
  {
    BeginsExactly(s, req, env);
    if req.lineage.Some? { PublishesExactly(s, req, env); }
  }

  /** Bad arguments are refused as such: a digest or a name that is not canonical, with or without a base. */
  lemma BadArgumentsExactly(s: State, req: Request, env: Env)
    requires Readable(s)
    ensures BeginStep(s, req, env) == (s, Refused(BadArguments)) <==>
            || !CanonicalDigest(req.experiment.market) || !CanonicalDigest(req.experiment.results)
            || !CanonicalText(req.experiment.strategy) || !CanonicalText(req.runId)
            || (req.base.Some? && !(CanonicalDigest(req.base.value.book) && CanonicalDigest(req.base.value.ledger)))
  {
  }

  /** The reason that a call with sound arguments is given when only its run is unwelcome. */
  lemma RefusalReasons(s: State, req: Request, env: Env)
    requires Readable(s) && ArgumentsSound(req) && !Welcome(s, req)
    requires req.lineage.Some? ==>
               LineageSound(req.lineage.value.lineage) && Continuable(s.trust, req.lineage.value.lineage)
    ensures BeginStep(s, req, env) ==
            (s, Refused(if !NobodyRuns(s.runs) then Unresolved
                        else if !req.allowRepeat && Settled(s.runs, req.experiment) then RepeatedExperiment
                        else RepeatedRunId))
  {
    AdmitsExactly(s, req);
  }

  /** A lineage that does not continue the held one is refused, as a conflict or as a shorter prefix. */
  lemma LineageRefusals(s: State, req: Request, env: Env)
    requires Readable(s) && ArgumentsSound(req) && req.lineage.Some? && LineageSound(req.lineage.value.lineage)
    requires !Continuable(s.trust, req.lineage.value.lineage)
    ensures BeginStep(s, req, env).0 == s
    ensures BeginStep(s, req, env).1 in {Refused(Trust(LineageConflict)), Refused(Trust(StalePrefix))}
    ensures BeginStep(s, req, env).1 == Refused(Trust(StalePrefix)) ==>
              exists b :: b in s.trust && b.lineage.identity == req.lineage.value.lineage.identity
                          && SameHistory(b.lineage, req.lineage.value.lineage)
                          && |req.lineage.value.lineage.revisions| < |b.lineage.revisions|
  {
    RunsAgree(s, req.lineage.value.lineage);
  }

  // ---- What an admitted call records ----------------------------------------------------------------------

  /** The times of a lineage: what was held for a revision, or the sample of the call. */
  predicate TimedBy(b: Binding, trust: seq<Binding>, sample: Instant) {
    forall i :: 0 <= i < |b.times| ==>
      b.times[i].Some?
      && (b.times[i] == Some(sample) || exists was :: was in trust && was.lineage.identity == b.lineage.identity
                                                      && i < |was.times| && was.times[i] == b.times[i])
  }

  predicate KeepsHeld(b: Binding, trust: seq<Binding>) {
    forall was, i ::
      (was in trust && was.lineage.identity == b.lineage.identity && 0 <= i < |was.times| && i < |b.times|
       && was.times[i].Some?) ==> b.times[i] == was.times[i]
  }

  /** The entry of an admitted run: its own arguments under the key of its experiment, nothing else changed. */
  predicate Records(s: State, v: State, key: Key, req: Request) {
    && key == ChosenKey(s.runs, req.experiment, req.runId) && key !in s.runs && key in v.runs
    && v.runs == s.runs[key := v.runs[key]]
    && v.runs[key].experiment == req.experiment && v.runs[key].runId == req.runId
    && v.runs[key].status == InProgress && v.runs[key].base == req.base
    && (v.runs[key].lineage.Some? <==> req.lineage.Some?)
  }

  lemma EnterRecords(s: State, mid: State, key: Key, req: Request, lineage: Option<Binding>)
    requires mid.runs == s.runs && key == ChosenKey(s.runs, req.experiment, req.runId) && key !in s.runs
    requires lineage.Some? <==> req.lineage.Some?
    ensures Records(s, Enter(mid, key, EntryFor(req, lineage)), key, req)
  {
  }

  lemma AdmittedKey(s: State, req: Request)
    requires Readable(s) && Admit(s, req).Ok?
    requires req.lineage.Some? ==> LineageSound(req.lineage.value.lineage)
    ensures Admit(s, req).value == ChosenKey(s.runs, req.experiment, req.runId) && Admit(s, req).value !in s.runs
  {
    if req.lineage.Some? { RunsAgree(s, req.lineage.value.lineage); }
    AdmitsExactly(s, req);
  }

  lemma PlainRecords(s: State, req: Request, env: Env)
    requires BeginStep(s, req, env).1.Began? && req.lineage.None?
    ensures var (v, outcome) := BeginStep(s, req, env); Records(s, v, outcome.key, req) && v.trust == s.trust
  {
    AdmittedKey(s, req);
    EnterRecords(s, s, Admit(s, req).value, req, None);
  }

  lemma LineageRecords(s: State, req: Request, env: Env)
    requires BeginStep(s, req, env).1.Began? && req.lineage.Some?
    ensures var (v, outcome) := BeginStep(s, req, env); Records(s, v, outcome.key, req)
  {
    var incoming, key := req.lineage.value.lineage, Admit(s, req).value;
    AdmittedKey(s, req);
    var mid, staged := IdentityPublished(s, incoming), StagedIn(s, incoming);
    if AllKnown(staged.times) {
      EnterRecords(s, mid, key, req, Some(staged));
    } else {
      var bound := FinalBinding(s, incoming, env.sample);
      EnterRecords(s, PutTrust(mid, bound), key, req, Some(bound));
    }
  }

  lemma BeginRecords(s: State, req: Request, env: Env)
    requires BeginStep(s, req, env).1.Began?
    ensures var (v, outcome) := BeginStep(s, req, env); Records(s, v, outcome.key, req)
    ensures req.lineage.None? ==> BeginStep(s, req, env).0.trust == s.trust
  {
    if req.lineage.None? { PlainRecords(s, req, env); } else { LineageRecords(s, req, env); }
  }

  /** The lineage of an admitted run: the incoming one, with every held time and the sample for the rest. */
  lemma BeginRecordsLineage(s: State, req: Request, env: Env)
    requires BeginStep(s, req, env).1.Began? && req.lineage.Some?
    ensures var (v, outcome) := BeginStep(s, req, env);
            outcome.key in v.runs && v.runs[outcome.key].lineage.Some?
            && var b := v.runs[outcome.key].lineage.value;
               && b.lineage == req.lineage.value.lineage && TimedBy(b, s.trust, env.sample) && KeepsHeld(b, s.trust)
               && Lookup(v.trust, b.lineage.identity) == Some(b)
  {
    var incoming := req.lineage.value.lineage;
    BeginsExactly(s, req, env);
    PublishesExactly(s, req, env);
    var b := FinalBinding(s, incoming, env.sample);
    FinalTimes(s, incoming, env.sample);
    StoreThenLookup(s.trust, StagedIn(s, incoming), incoming.identity);
    StoreThenLookup(IdentityPublished(s, incoming).trust, b, incoming.identity);
  }

  lemma FinalTimes(s: State, incoming: Lineage, sample: Instant)
    requires Readable(s)
    ensures TimedBy(FinalBinding(s, incoming, sample), s.trust, sample)
    ensures KeepsHeld(FinalBinding(s, incoming, sample), s.trust)
  {
    var held := Lookup(s.trust, incoming.identity);
    var staged, b := StagedIn(s, incoming), FinalBinding(s, incoming, sample);
    forall i | 0 <= i < |b.times|
      ensures b.times[i] == if Carried(held, i).Some? then Carried(held, i) else Some(sample)
    {
      assert staged.times[i] == Carried(held, i);
    }
    forall was | was in s.trust && was.lineage.identity == incoming.identity ensures held == Some(was) {
      OnlyBinding(s.trust, was);
    }
  }
}
