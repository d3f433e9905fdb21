/** What every run of the registry keeps, from the pristine file through any calls and stops. */
module RegistryHistory {
  import opened Common
  import opened OutcomeTrust
  import opened RunRegistry

  datatype Op =
    | BeginOp(req: Request, env: Env)
    | CompleteOp(key: Key)
    | AbortOp(key: Key, observed: Hashes)

  function Apply(s: State, op: Op): State {
    match op
    case BeginOp(req, env) => BeginStep(s, req, env).0
    case CompleteOp(key) => CompleteStep(s, key).0
    case AbortOp(key, observed) => AbortStep(s, key, observed).0
  }

  function Run(s: State, ops: seq<Op>): State
    decreases |ops|
  {
    if ops == [] then s else Run(Apply(s, ops[0]), ops[1..])
  }

  // ---- The invariant ----------------------------------------------------------------------

  predicate AtMostOneActive(runs: map<Key, Entry>) {
    forall k, l :: k in runs && l in runs && runs[k].status.InProgress? && runs[l].status.InProgress? ==> k == l
  }

  predicate Timelines(trust: seq<Binding>) { forall b :: b in trust ==> Timeline(b.times) }

  predicate RunLineagesKnown(runs: map<Key, Entry>) {
    forall k :: k in runs && runs[k].lineage.Some? ==>
      AllKnown(runs[k].lineage.value.times) && NonDecreasing(runs[k].lineage.value.times)
  }

  /**
   * Every durable state: the reader accepts it, each identity has one binding whose availability is
   * a non-decreasing known prefix then UNKNOWN, at most one run is in progress, and each run's
   * lineage is fully known and (through `Readable`) a time-preserving prefix of its trust binding.
   */
  predicate Inv(s: State) {
    Readable(s) && Timelines(s.trust) && AtMostOneActive(s.runs) && RunLineagesKnown(s.runs)
  }

  // ---- Growth of the trust list -------------------------------------------------------------

  /** Every old binding survives in an extended form. */
  ghost predicate Grows(earlier: seq<Binding>, later: seq<Binding>) {
    forall id :: Lookup(earlier, id).Some? ==>
      Lookup(later, id).Some? && Extends(Lookup(earlier, id).value, Lookup(later, id).value)
  }

  lemma GrowsTransitive(a: seq<Binding>, b: seq<Binding>, c: seq<Binding>)
    requires Grows(a, b) && Grows(b, c)
    ensures Grows(a, c)
  {
    forall id | Lookup(a, id).Some?
      ensures Lookup(c, id).Some? && Extends(Lookup(a, id).value, Lookup(c, id).value)
    {
      assert Lookup(b, id).Some?;
    }
  }

  /** Storing an extension of what the list holds grows the list and keeps every run backed. */
  lemma StoreExtension(s: State, b: Binding)
    requires Inv(s) && Parseable(b) && Timeline(b.times)
    requires var was := Lookup(s.trust, b.lineage.identity); was.Some? ==> Extends(was.value, b)
    ensures Inv(PutTrust(s, b)) && Grows(s.trust, PutTrust(s, b).trust)
  {
    var s' := PutTrust(s, b);
    StoreKeepsDistinct(s.trust, b);
    forall id ensures Lookup(s'.trust, id) == if id == b.lineage.identity then Some(b) else Lookup(s.trust, id) {
      StoreThenLookup(s.trust, b, id);
    }
    assert Grows(s.trust, s'.trust);
    forall k | k in s'.runs ensures KeyFits(k, s'.runs[k]) && LineageReadable(s', s'.runs[k]) {
      StillReadable(s, s', s.runs[k]);
    }
  }

  /** A run lineage that the trust list backed is still backed when the list has grown. */
  lemma StillReadable(s: State, v: State, e: Entry)
    requires LineageReadable(s, e) && Grows(s.trust, v.trust) && !v.legacy
    ensures LineageReadable(v, e)
  {
    if e.lineage.Some? {
      BackedMeansExtended(s.trust, e.lineage.value);
      BackedMeansExtended(v.trust, e.lineage.value);
    }
  }

  // ---- begin keeps the invariant --------------------------------------------------------------

  lemma StagedIsExtension(s: State, req: Request, env: Env)
    requires Inv(s) && Publishes(s, req, env)
    ensures var incoming := req.lineage.value.lineage;
            var staged := StagedIn(s, incoming);
            var previous := Lookup(s.trust, incoming.identity);
            && Parseable(staged) && Timeline(staged.times)
            && (previous.Some? ==> Extends(previous.value, staged))
            && (previous.Some? ==> forall c :: KnownBy(staged.times, c) == KnownBy(previous.value.times, c))
            && (previous.None? ==> NoneKnown(staged.times))
  {
    var incoming := req.lineage.value.lineage;
    var previous := Lookup(s.trust, incoming.identity);
    if previous.Some? {
      assert previous.value in s.trust;
      StagedExtends(incoming, previous.value);
    }
  }

  lemma IdentityPublishedKeeps(s: State, req: Request, env: Env)
    requires Inv(s) && Publishes(s, req, env)
    ensures var incoming := req.lineage.value.lineage;
            var mid := IdentityPublished(s, incoming);
            && Inv(mid) && Grows(s.trust, mid.trust) && mid.runs == s.runs && !mid.legacy
            && Lookup(mid.trust, incoming.identity) == Some(StagedIn(s, incoming))
  {
    var incoming := req.lineage.value.lineage;
    var staged := StagedIn(s, incoming);
    StagedIsExtension(s, req, env);
    if Lookup(s.trust, incoming.identity) != Some(staged) {
      StoreExtension(s, staged);
      StoreThenLookup(s.trust, staged, incoming.identity);
    }
  }

  lemma StagedBeforeSample(s: State, req: Request, env: Env)
    requires Inv(s) && Mints(s, req, env)
    ensures var staged := StagedIn(s, req.lineage.value.lineage);
            forall i :: 0 <= i < |staged.times| && staged.times[i].Some? ==> staged.times[i].value < env.sample
  {
    var staged := StagedIn(s, req.lineage.value.lineage);
    var previous := Lookup(s.trust, req.lineage.value.lineage.identity);
    forall i | 0 <= i < |staged.times| && staged.times[i].Some? ensures staged.times[i].value < env.sample {
      assert previous.Some? && staged.times[i] in previous.value.times;
      assert IsKnownTime(s.trust, staged.times[i].value);
    }
  }

  /** The binding that is finally stored extends the staged one and is fully known. */
  lemma FinalExtendsStaged(s: State, req: Request, env: Env)
    requires Inv(s) && Mints(s, req, env)
    ensures var incoming := req.lineage.value.lineage;
            var staged, b := StagedIn(s, incoming), FinalBinding(s, incoming, env.sample);
            && Extends(staged, b) && AllKnown(b.times) && Timeline(b.times) && Parseable(b)
            && (forall c :: c < env.sample ==> KnownBy(b.times, c) == KnownBy(staged.times, c))
            && (forall i :: 0 <= i < |b.times| ==> b.times[i] == staged.times[i] || b.times[i] == Some(env.sample))
  {
    var incoming := req.lineage.value.lineage;
    var staged := StagedIn(s, incoming);
    StagedIsExtension(s, req, env);
    StagedBeforeSample(s, req, env);
    BoundExtends(incoming, env.sample, staged);
  }

  /** Entering an admitted run keeps the invariant when its lineage is known and backed. */
  lemma EnterKeeps(s: State, req: Request, key: Key, lineage: Option<Binding>)
    requires Inv(s)
    requires !Active(s.runs) && !RunIdUsed(s.runs, req.runId) && key !in s.runs
    requires key == First(req.experiment) || key == Repeat(req.experiment, req.runId)
             || key == Retry(req.experiment, req.runId)
    requires lineage.Some? ==> !s.legacy && Parseable(lineage.value) && Backed(s.trust, lineage.value)
                               && AllKnown(lineage.value.times) && NonDecreasing(lineage.value.times)
    ensures Inv(Enter(s, key, EntryFor(req, lineage)))
  {
    var s' := Enter(s, key, EntryFor(req, lineage));
    forall k | k in s'.runs ensures KeyFits(k, s'.runs[k]) && LineageReadable(s', s'.runs[k]) {
      if k != key { assert LineageReadable(s, s.runs[k]); }
    }
  }

  /** The five ways in which a call can leave the file. */
  lemma BeginCases(s: State, req: Request, env: Env)
    ensures var s' := BeginStep(s, req, env).0;
            || s' == s
            || (&& Readable(s) && req.lineage.None? && Admit(s, req).Ok?
                && s' == Enter(s, Admit(s, req).value, EntryFor(req, None)))
            || (&& Publishes(s, req, env) && !Mints(s, req, env)
                && s' == IdentityPublished(s, req.lineage.value.lineage))
            || RepublishedBy(s, req, env, s')
            || MintedBy(s, req, env, s')
    ensures Mints(s, req, env) ==> MintedBy(s, req, env, BeginStep(s, req, env).0)
  {
  }

  /** The call ends with a run and nothing to mint: every time was already established. */
  predicate RepublishedBy(s: State, req: Request, env: Env, s': State) {
    && Publishes(s, req, env) && !Mints(s, req, env)
    && AllKnown(StagedIn(s, req.lineage.value.lineage).times)
    && s' == Enter(IdentityPublished(s, req.lineage.value.lineage), Admit(s, req).value,
                   EntryFor(req, Some(StagedIn(s, req.lineage.value.lineage))))
  }

  predicate MintedBy(s: State, req: Request, env: Env, s': State) {
    && Mints(s, req, env)
    && var incoming := req.lineage.value.lineage;
       var b := FinalBinding(s, incoming, env.sample);
       s' == Enter(PutTrust(IdentityPublished(s, incoming), b), Admit(s, req).value, EntryFor(req, Some(b)))
  }

  lemma MintKeeps(s: State, req: Request, env: Env, s': State)
    requires Inv(s) && MintedBy(s, req, env, s')
    ensures Inv(s') && Grows(s.trust, s'.trust)
    ensures var id := req.lineage.value.lineage.identity;
            var mid := IdentityPublished(s, req.lineage.value.lineage);
            forall i :: Lookup(s'.trust, i) ==
              if i == id then Some(FinalBinding(s, req.lineage.value.lineage, env.sample)) else Lookup(mid.trust, i)
  {
    var incoming := req.lineage.value.lineage;
    var mid := IdentityPublished(s, incoming);
    var b := FinalBinding(s, incoming, env.sample);
    IdentityPublishedKeeps(s, req, env);
    FinalExtendsStaged(s, req, env);
    StoreExtension(mid, b);
    forall i
      ensures Lookup(Store(mid.trust, b), i) == if i == incoming.identity then Some(b) else Lookup(mid.trust, i)
    {
      StoreThenLookup(mid.trust, b, i);
    }
    var next := PutTrust(mid, b);
    assert Backed(next.trust, b) by { BackedMeansExtended(next.trust, b); }
    EnterKeeps(next, req, Admit(s, req).value, Some(b));
    GrowsTransitive(s.trust, mid.trust, next.trust);
  }

  lemma RepublishKeeps(s: State, req: Request, env: Env, s': State)
    requires Inv(s) && RepublishedBy(s, req, env, s')
    ensures Inv(s') && Grows(s.trust, s'.trust)
  {
    var mid := IdentityPublished(s, req.lineage.value.lineage);
    var staged := StagedIn(s, req.lineage.value.lineage);
    IdentityPublishedKeeps(s, req, env);
    StagedIsExtension(s, req, env);
    assert Backed(mid.trust, staged) by { BackedMeansExtended(mid.trust, staged); }
    EnterKeeps(mid, req, Admit(s, req).value, Some(staged));
  }

  lemma BeginKeeps(s: State, req: Request, env: Env)
    requires Inv(s)
    ensures Inv(BeginStep(s, req, env).0) && Grows(s.trust, BeginStep(s, req, env).0.trust)
  {
    var s' := BeginStep(s, req, env).0;
    BeginCases(s, req, env);
    if s' == s {
    } else if MintedBy(s, req, env, s') {
      MintKeeps(s, req, env, s');
    } else if RepublishedBy(s, req, env, s') {
      RepublishKeeps(s, req, env, s');
    } else if req.lineage.None? {
      EnterKeeps(s, req, Admit(s, req).value, None);
    } else {
      IdentityPublishedKeeps(s, req, env);
    }
  }

  lemma EndingKeeps(s: State, key: Key, observed: Hashes)
    requires Inv(s)
    ensures Inv(CompleteStep(s, key).0) && CompleteStep(s, key).0.trust == s.trust
    ensures Inv(AbortStep(s, key, observed).0) && AbortStep(s, key, observed).0.trust == s.trust
  {
    TerminalKeeps(s, key, Completed);
    TerminalKeeps(s, key, Aborted);
  }

  lemma ApplyKeeps(s: State, op: Op)
    requires Inv(s)
    ensures Inv(Apply(s, op)) && Grows(s.trust, Apply(s, op).trust)
  {
    match op
    case BeginOp(req, env) => BeginKeeps(s, req, env);
    case CompleteOp(key) => EndingKeeps(s, key, Hashes("", ""));
    case AbortOp(key, observed) => EndingKeeps(s, key, observed);
  }

  lemma TerminalKeeps(s: State, key: Key, status: Status)
    requires Inv(s) && !status.InProgress?
    ensures key in s.runs ==> Inv(Enter(s, key, s.runs[key].(status := status)))
  {
    if key in s.runs {
      var s' := Enter(s, key, s.runs[key].(status := status));
      forall k | k in s'.runs ensures KeyFits(k, s'.runs[k]) && LineageReadable(s', s'.runs[k]) {
        assert LineageReadable(s, s.runs[k]);
      }
    }
  }

  /** Safety over whole runs: any calls, refusals and stops between the two writes. */
  lemma {:induction false} EveryRunIsSafe(s: State, ops: seq<Op>)
    requires Inv(s)
    ensures Inv(Run(s, ops)) && Grows(s.trust, Run(s, ops).trust)
    decreases |ops|
  {
    if ops == [] {
    } else {
      ApplyKeeps(s, ops[0]);
      EveryRunIsSafe(Apply(s, ops[0]), ops[1..]);
      GrowsTransitive(s.trust, Apply(s, ops[0]).trust, Run(s, ops).trust);
    }
  }

  lemma ReachableFromPristine(ops: seq<Op>)
    ensures Inv(Run(PRISTINE, ops))
  {
    EveryRunIsSafe(PRISTINE, ops);
  }

  /** Over every run: one binding per identity, unique run ids, and each run time-preservingly backed. */
  lemma AdmittedRunsAreBacked(ops: seq<Op>, key: Key)
    requires key in Run(PRISTINE, ops).runs && Run(PRISTINE, ops).runs[key].lineage.Some?
    ensures var s := Run(PRISTINE, ops);
            var l := s.runs[key].lineage.value;
            var t := Lookup(s.trust, l.lineage.identity);
            AllKnown(l.times) && NonDecreasing(l.times) && t.Some? && Extends(l, t.value)
  {
    ReachableFromPristine(ops);
    BackedMeansExtended(Run(PRISTINE, ops).trust, Run(PRISTINE, ops).runs[key].lineage.value);
  }

  // ---- Two phases -----------------------------------------------------------------------------

  /**
   * Causal publication. A time is minted only for revisions that the first durable write had already
   * published as UNKNOWN, and a stop between the writes leaves that identity, no time and no new run.
   */
  lemma MintedOnlyAfterPublication(s: State, req: Request, env: Env)
    requires Inv(s) && Mints(s, req, env)
    ensures var id := req.lineage.value.lineage.identity;
            var stopped := BeginStep(s, req, env.(stop := true));
            var finished := BeginStep(s, req, env);
            var held, minted := Lookup(stopped.0.trust, id), Lookup(finished.0.trust, id);
            && stopped.1 == Refused(Interrupted) && stopped.0.runs == s.runs
            && finished.1.Began? && finished.0.runs.Keys == s.runs.Keys + {finished.1.key}
            && finished.0.runs[finished.1.key].lineage == minted
            && held.Some? && minted.Some? && held.value.lineage == minted.value.lineage
            && AllKnown(minted.value.times)
            && forall i :: 0 <= i < |held.value.times| ==>
                 if held.value.times[i].Some? then minted.value.times[i] == held.value.times[i]
                 else minted.value.times[i] == Some(env.sample)
  {
    var incoming := req.lineage.value.lineage;
    var mid := IdentityPublished(s, incoming);
    IdentityPublishedKeeps(s, req, env);
    FinalExtendsStaged(s, req, env);
    StoreThenLookup(mid.trust, FinalBinding(s, incoming, env.sample), incoming.identity);
  }

  // ---- The past never changes -------------------------------------------------------------------

  lemma SameColumnSameAnswer(a: Binding, b: Binding, cutoff: Instant)
    requires Parseable(a) && Parseable(b) && Timeline(a.times) && Timeline(b.times)
    requires Extends(a, b) && KnownBy(a.times, cutoff) == KnownBy(b.times, cutoff)
    ensures AsOf(a, cutoff) == AsOf(b, cutoff)
  {
    var n := KnownBy(a.times, cutoff);
    if n > 0 { assert b.times[n - 1] == a.times[n - 1]; }
  }

  /** What a call stores for an identity keeps every answer before the minted time. */
  lemma PublishedPreservesPast(s: State, req: Request, env: Env, id: Identity, cutoff: Instant)
    requires Inv(s) && Publishes(s, req, env)
    ensures var mid := IdentityPublished(s, req.lineage.value.lineage);
            Inv(mid) && AsOfQuery(mid, id, cutoff) == AsOfQuery(s, id, cutoff)
  {
    var incoming := req.lineage.value.lineage;
    var staged := StagedIn(s, incoming);
    IdentityPublishedKeeps(s, req, env);
    StagedIsExtension(s, req, env);
    var previous := Lookup(s.trust, incoming.identity);
    if previous != Some(staged) {
      StoreThenLookup(s.trust, staged, id);
      if id == incoming.identity && previous.Some? {
        assert previous.value in s.trust;
        SameColumnSameAnswer(previous.value, staged, cutoff);
      }
    }
  }

  lemma MintPreservesPast(s: State, req: Request, env: Env, s': State, id: Identity, cutoff: Instant)
    requires Inv(s) && MintedBy(s, req, env, s') && cutoff < env.sample
    ensures AsOfQuery(s', id, cutoff) == AsOfQuery(s, id, cutoff)
  {
    var incoming := req.lineage.value.lineage;
    MintKeeps(s, req, env, s');
    PublishedPreservesPast(s, req, env, id, cutoff);
    if id == incoming.identity {
      IdentityPublishedKeeps(s, req, env);
      StagedIsExtension(s, req, env);
      FinalExtendsStaged(s, req, env);
      SameColumnSameAnswer(StagedIn(s, incoming), FinalBinding(s, incoming, env.sample), cutoff);
    }
  }

  /** One call changes no answer at a cutoff before the time it mints; if it mints none, no answer at all. */
  lemma BeginPreservesPast(s: State, req: Request, env: Env, id: Identity, cutoff: Instant)
    requires Inv(s)
    requires Mints(s, req, env) ==> cutoff < env.sample
    ensures AsOfQuery(BeginStep(s, req, env).0, id, cutoff) == AsOfQuery(s, id, cutoff)
  {
    var s' := BeginStep(s, req, env).0;
    BeginCases(s, req, env);
    BeginKeeps(s, req, env);
    if s' == s || s'.trust == s.trust {
    } else if MintedBy(s, req, env, s') {
      MintPreservesPast(s, req, env, s', id, cutoff);
    } else {
      PublishedPreservesPast(s, req, env, id, cutoff);
    }
  }

  lemma TerminalPreservesPast(s: State, op: Op, id: Identity, cutoff: Instant)
    requires Inv(s) && !op.BeginOp?
    ensures AsOfQuery(Apply(s, op), id, cutoff) == AsOfQuery(s, id, cutoff)
  {
    ApplyKeeps(s, op);
  }

  /** Ending the run in progress leaves no run in progress, so the next call is not refused for one. */
  lemma EndingFreesRegistry(s: State, key: Key, observed: Hashes)
    requires Inv(s)
    ensures CompleteStep(s, key).1.Done? ==> Active(s.runs) && !Active(CompleteStep(s, key).0.runs)
    ensures AbortStep(s, key, observed).1.Done? ==> Active(s.runs) && !Active(AbortStep(s, key, observed).0.runs)
  {
  }

  lemma EntryStays(s: State, op: Op, key: Key)
    requires Inv(s) && key in s.runs
    ensures key in Apply(s, op).runs
    ensures var was := s.runs[key];
            var now := Apply(s, op).runs[key];
            now == was.(status := now.status) && (!was.status.InProgress? ==> now == was)
  {
    match op
    case BeginOp(req, env) => BeginEntersFresh(s, req, env, key);
    case CompleteOp(k) => EndingStays(s, k, Hashes("", ""), key);
    case AbortOp(k, observed) => EndingStays(s, k, observed, key);
  }

  lemma EndingStays(s: State, ended: Key, observed: Hashes, key: Key)
    requires key in s.runs
    ensures var was := s.runs[key];
            && key in CompleteStep(s, ended).0.runs && key in AbortStep(s, ended, observed).0.runs
            && StatusOnly(was, CompleteStep(s, ended).0.runs[key])
            && StatusOnly(was, AbortStep(s, ended, observed).0.runs[key])
  {
  }

  predicate StatusOnly(was: Entry, now: Entry) {
    now == was.(status := now.status) && (!was.status.InProgress? ==> now == was)
  }

  /** A call enters a run under a key that was free. */
  lemma BeginEntersFresh(s: State, req: Request, env: Env, key: Key)
    requires key in s.runs
    ensures key in BeginStep(s, req, env).0.runs && BeginStep(s, req, env).0.runs[key] == s.runs[key]
  {
    BeginCases(s, req, env);
    AdmitsFresh(s, req);
  }

  lemma AdmitsFresh(s: State, req: Request)
    ensures Admit(s, req).Ok? ==> Admit(s, req).value !in s.runs
  {
  }

  /** Over any run an entry keeps its identity and lineage, and once its run has ended it never changes again. */
  lemma {:induction false} EndedRunsNeverChange(s: State, ops: seq<Op>, key: Key)
    requires Inv(s) && key in s.runs
    ensures key in Run(s, ops).runs
    ensures var was := s.runs[key];
            var now := Run(s, ops).runs[key];
            now == was.(status := now.status) && (!was.status.InProgress? ==> now == was)
    decreases |ops|
  {
    if ops == [] {
    } else {
      ApplyKeeps(s, ops[0]);
      EntryStays(s, ops[0], key);
      EndedRunsNeverChange(Apply(s, ops[0]), ops[1..], key);
    }
  }

  // ---- A call that stopped between its writes ---------------------------------------------------------

  /** The run was admitted with the whole incoming lineage, every time of it known. */
  predicate AdmittedWith(v: State, key: Key, incoming: Lineage) {
    && key in v.runs && v.runs[key].status.InProgress? && v.runs[key].lineage.Some?
    && v.runs[key].lineage.value.lineage == incoming && AllKnown(v.runs[key].lineage.value.times)
  }

  /** An admitted call whose clock is past the fence and that does not stop begins its run. */
  lemma AdmittedCallBegins(s: State, req: Request, env: Env)
    requires Inv(s) && Publishes(s, req, env) && !env.stop && AfterFence(env.sample, Fence(s.trust))
    ensures BeginStep(s, req, env).1 == Began(Admit(s, req).value)
    ensures AdmittedWith(BeginStep(s, req, env).0, Admit(s, req).value, req.lineage.value.lineage)
  {
    var incoming := req.lineage.value.lineage;
    StagedIsExtension(s, req, env);
    if !AllKnown(StagedIn(s, incoming).times) { FinalExtendsStaged(s, req, env); }
  }

  lemma SameAdmission(s: State, v: State, req: Request)
    requires v.runs == s.runs && Admit(s, req).Ok?
    requires req.lineage.Some? ==>
               LineageCompatible(v, req.lineage.value.lineage) && !LineageStale(v, req.lineage.value.lineage)
    ensures Admit(v, req) == Admit(s, req)
  {
  }

  /** A stop between the writes changes nothing that admission looks at. */
  lemma StopKeepsAdmission(s: State, req: Request, env: Env)
    requires Inv(s) && Publishes(s, req, env)
    ensures var incoming := req.lineage.value.lineage;
            var mid := IdentityPublished(s, incoming);
            && Admit(mid, req) == Admit(s, req) && !ProbeNeeded(Lookup(mid.trust, incoming.identity), incoming)
  {
    var incoming := req.lineage.value.lineage;
    var staged := StagedIn(s, incoming);
    var mid := IdentityPublished(s, incoming);
    StoreThenLookup(s.trust, staged, incoming.identity);
    assert Lookup(mid.trust, incoming.identity) == Some(staged);
    assert LineageCompatible(s, incoming);
    SameAdmission(s, mid, req);
  }

  /**
   * A call that stopped between its writes is completed by any later call of the same request, over any
   * run in between, that is admitted then and whose clocks are past the fence.
   */
  lemma StoppedBeginIsCompleted(s: State, req: Request, env: Env, ops: seq<Op>, later: Env)
    requires Inv(s) && Publishes(s, req, env) && env.stop && !later.stop
    requires var t := Run(BeginStep(s, req, env).0, ops);
             Admit(t, req).Ok? && AfterFence(later.probe, Fence(t.trust)) && AfterFence(later.sample, Fence(t.trust))
    ensures var t := Run(BeginStep(s, req, env).0, ops);
            && BeginStep(t, req, later).1 == Began(Admit(t, req).value)
            && AdmittedWith(BeginStep(t, req, later).0, Admit(t, req).value, req.lineage.value.lineage)
  {
    var stopped := BeginStep(s, req, env).0;
    BeginKeeps(s, req, env);
    EveryRunIsSafe(stopped, ops);
    AdmittedCallBegins(Run(stopped, ops), req, later);
  }

  /** A retry right after the stop is always admitted, and one clock past the fence is enough. */
  lemma RetryCompletes(s: State, req: Request, env: Env, later: Env)
    requires Inv(s) && Publishes(s, req, env) && env.stop && !later.stop
    requires AfterFence(later.sample, Fence(BeginStep(s, req, env).0.trust))
    ensures var stopped := BeginStep(s, req, env).0;
            && BeginStep(stopped, req, later).1 == Began(Admit(s, req).value)
            && AdmittedWith(BeginStep(stopped, req, later).0, Admit(s, req).value, req.lineage.value.lineage)
  {
    BeginKeeps(s, req, env);
    StopKeepsAdmission(s, req, env);
    AdmittedCallBegins(BeginStep(s, req, env).0, req, later);
  }

  lemma GrowthRaisesFence(earlier: seq<Binding>, later: seq<Binding>)
    requires Grows(earlier, later) && DistinctIdentities(earlier)
    ensures Fence(earlier).Some? ==> Fence(later).Some? && Fence(earlier).value <= Fence(later).value
  {
    if Fence(earlier).Some? {
      var f := Fence(earlier).value;
      assert IsKnownTime(earlier, f);
      var b :| b in earlier && Some(f) in b.times;
      var k :| 0 <= k < |earlier| && earlier[k] == b;
      LookupFinds(earlier, k);
      var c := Lookup(later, b.lineage.identity).value;
      var i :| 0 <= i < |b.times| && b.times[i] == Some(f);
      assert c.times[i] == Some(f) && c in later;
      assert IsKnownTime(later, f);
    }
  }

  /** As-of stability over whole runs: an answer at or below the high-water never changes again. */
  lemma {:induction false} PastNeverChanges(s: State, ops: seq<Op>, id: Identity, cutoff: Instant)
    requires Inv(s) && Fence(s.trust).Some? && cutoff <= Fence(s.trust).value
    ensures AsOfQuery(Run(s, ops), id, cutoff) == AsOfQuery(s, id, cutoff)
    decreases |ops|
  {
    if ops == [] {
    } else {
      var next := Apply(s, ops[0]);
      ApplyKeeps(s, ops[0]);
      GrowthRaisesFence(s.trust, next.trust);
      match ops[0] {
        case BeginOp(req, env) => BeginPreservesPast(s, req, env, id, cutoff);
        case _ => TerminalPreservesPast(s, ops[0], id, cutoff);
      }
      PastNeverChanges(next, ops[1..], id, cutoff);
    }
  }

  /** The times that the calls of a run mint, in order. */
  function Minted(s: State, ops: seq<Op>): seq<Instant>
    decreases |ops|
  {
    if ops == [] then []
    else if ops[0].BeginOp? && Mints(s, ops[0].req, ops[0].env) then
      [ops[0].env.sample] + Minted(Apply(s, ops[0]), ops[1..])
    else Minted(Apply(s, ops[0]), ops[1..])
  }

  predicate Increasing(m: seq<Instant>) { forall i, j :: 0 <= i < j < |m| ==> m[i] < m[j] }

  predicate AllAfter(m: seq<Instant>, fence: Option<Instant>) {
    forall i :: 0 <= i < |m| ==> AfterFence(m[i], fence)
  }

  lemma PrependTime(x: Instant, rest: seq<Instant>, earlier: Option<Instant>, later: Option<Instant>)
    requires Increasing(rest) && AllAfter(rest, later) && AfterFence(x, earlier)
    requires later.Some? && x <= later.value && (earlier.Some? ==> earlier.value <= later.value)
    ensures Increasing([x] + rest) && AllAfter([x] + rest, earlier)
  {
    var m := [x] + rest;
    forall j | 0 < j < |m| ensures x < m[j] && AfterFence(m[j], earlier) { assert m[j] == rest[j - 1]; }
    forall i, j | 0 < i < j < |m| ensures m[i] < m[j] { assert m[i] == rest[i - 1] && m[j] == rest[j - 1]; }
  }

  /** Minted times are after everything established before the run, and strictly increase along it. */
  lemma {:induction false} MintedTimesIncrease(s: State, ops: seq<Op>)
    requires Inv(s)
    ensures Increasing(Minted(s, ops)) && AllAfter(Minted(s, ops), Fence(s.trust))
    decreases |ops|
  {
    if ops == [] {
    } else {
      var next := Apply(s, ops[0]);
      FenceRises(s, ops[0]);
      MintedTimesIncrease(next, ops[1..]);
      if ops[0].BeginOp? && Mints(s, ops[0].req, ops[0].env) {
        MintedBecomesKnown(s, ops[0].req, ops[0].env);
        PrependTime(ops[0].env.sample, Minted(next, ops[1..]), Fence(s.trust), Fence(next.trust));
      }
    }
  }

  lemma FenceRises(s: State, op: Op)
    requires Inv(s)
    ensures Inv(Apply(s, op))
    ensures var before, after := Fence(s.trust), Fence(Apply(s, op).trust);
            before.Some? ==> after.Some? && before.value <= after.value
  {
    ApplyKeeps(s, op);
    GrowthRaisesFence(s.trust, Apply(s, op).trust);
  }

  lemma MintedBecomesKnown(s: State, req: Request, env: Env)
    requires Inv(s) && Mints(s, req, env)
    ensures Fence(BeginStep(s, req, env).0.trust).Some?
            && env.sample <= Fence(BeginStep(s, req, env).0.trust).value
  {
    MintedOnlyAfterPublication(s, req, env);
    var incoming := req.lineage.value.lineage;
    IdentityPublishedKeeps(s, req, env);
    var after := BeginStep(s, req, env).0.trust;
    var b := Lookup(after, incoming.identity).value;
    var held := StagedIn(s, incoming);
    var i :| 0 <= i < |held.times| && held.times[i].None?;
    assert b.times[i] == Some(env.sample);
    assert b in after;
    assert IsKnownTime(after, env.sample);
  }
}
