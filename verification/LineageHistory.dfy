/** Publishing lineage witnesses, with stops between the durable writes, and what it cannot change. */
module LineageHistory {
  import opened Common
  import opened LineagePublication

  /** Where a publish stops; `NoStop` finishes. */
  datatype Stop = BootPrepared | BootWritten | Prepared | Written | Witnessed | NoStop

  /** The outside world during one publish: a fresh secret, the witness clock, and one sample per issuance. */
  datatype Env = Env(newSecret: Secret, now: Instant, samples: nat -> Instant, stop: Stop)

  datatype Outcome = Published(resolved: seq<Witness>) | Interrupted | Refused

  // ---- The steps ------------------------------------------------------------------------------

  /** Creates the empty witness file of a pristine workspace. */
  function Boot(w: World, stop: Stop): (World, bool) {
    if w.file.Some? then (w, true)
    else
      match Recover(w.log, None)
      case None => (w, false)
      case Some(log) =>
        match Prepare(log, None, [])
        case None => (w.(log := log), false)
        case Some(prepared) =>
          if stop == BootPrepared then (w.(log := prepared), false)
          else if stop == BootWritten then (w.(log := prepared, file := Some([])), false)
          else (w.(log := Log(Some([]), None), file := Some([])), true)
  }

  function Unwitnessed(ws: seq<Witness>, chain: seq<Record>): seq<Record> {
    if chain == [] then []
    else
      var n := |chain| - 1;
      Unwitnessed(ws, chain[..n]) + if FindWitness(ws, chain[n].key).None? then [chain[n]] else []
  }

  function Resolved(ws: seq<Witness>, chain: seq<Record>): seq<Witness> {
    if chain == [] then []
    else
      var n := |chain| - 1;
      var found := FindWitness(ws, chain[n].key);
      Resolved(ws, chain[..n]) + if found.Some? then [found.value] else []
  }

  lemma {:induction false} ChainMembers(ws: seq<Witness>, chain: seq<Record>)
    ensures forall x :: x in Unwitnessed(ws, chain) ==> x in chain && FindWitness(ws, x.key).None?
    ensures forall x :: x in Resolved(ws, chain) ==> x in ws
  {
    if chain != [] {
      var n := |chain| - 1;
      ChainMembers(ws, chain[..n]);
      assert chain == chain[..n] + [chain[n]];
    }
  }

  predicate BindingMatches(ws: seq<Witness>, r: Record) {
    FindWitness(ws, r.key).Some? ==> FindWitness(ws, r.key).value.dataset == r.dataset
  }

  predicate BindingsMatch(ws: seq<Witness>, chain: seq<Record>) {
    forall i :: 0 <= i < |chain| ==> BindingMatches(ws, chain[i])
  }

  function Additions(missing: seq<Record>, now: Instant): (r: seq<Witness>)
    ensures |r| == |missing|
    ensures forall i :: 0 <= i < |r| ==> r[i] == Witness(missing[i].key, missing[i].dataset, now)
  {
    seq(|missing|, i requires 0 <= i < |missing| => Witness(missing[i].key, missing[i].dataset, now))
  }

  predicate AllAvailable(missing: seq<Record>, now: Instant) {
    forall i :: 0 <= i < |missing| ==> missing[i].availableAt <= now
  }

  /** Witnesses the missing records of a chain at one NOW: prepare, write, commit. */
  function WitnessChain(w: World, chain: seq<Record>, env: Env): (World, Outcome) {
    if w.file.None? || !DistinctWitnesses(w.file.value) || Recover(w.log, w.file).None? then (w, Refused)
    else
      var ws, v := w.file.value, w.(log := Recover(w.log, w.file).value);
      var missing := Unwitnessed(ws, chain);
      if !BindingsMatch(ws, chain) then (v, Refused)
      else if missing == [] then (v, Published(Resolved(ws, chain)))
      else if !AllAvailable(missing, env.now) then (v, Refused)
      else
        var additions := Additions(missing, env.now);
        match Prepare(v.log, v.file, ws + additions)
        case None => (v, Refused)
        case Some(prepared) =>
          if env.stop == Prepared then (v.(log := prepared), Interrupted)
          else if env.stop == Written then (v.(log := prepared, file := Some(ws + additions)), Interrupted)
          else if !DistinctWitnesses(ws + additions) then (v.(log := prepared, file := Some(ws + additions)), Refused)
          else (v.(log := Log(Some(ws + additions), None), file := Some(ws + additions)),
                Published(Resolved(ws, chain) + additions))
  }

  function Issue(w: World, x: Witness, at: Instant, secret: Secret): Issuance {
    var core := Core(w.workspace, x.key, x.dataset, x, at);
    Issuance(core, Mac(secret, core))
  }

  /** A witness that was issued before keeps its time; every other one is issued at its own sample. */
  function NewIssuances(w: World, existing: seq<Issuance>, resolved: seq<Witness>, env: Env, secret: Secret)
    : (r: Option<seq<Issuance>>)
    ensures r.Some? ==> |r.value| <= |resolved|
  {
    if resolved == [] then Some([])
    else
      var n := |resolved| - 1;
      var x := resolved[n];
      var prior := FindIssuance(existing, x.key);
      match NewIssuances(w, existing, resolved[..n], env, secret)
      case None => None
      case Some(more) =>
        if prior.None? then Some(more + [Issue(w, x, env.samples(|more|), secret)])
        else if prior.value.core.dataset == x.dataset && prior.value.core.evidence == x then Some(more)
        else None
  }

  function IssueAll(w: World, resolved: seq<Witness>, env: Env): (World, Outcome)
    requires w.secret.Some?
  {
    match ReadIssuances(w)
    case None => (w, Refused)
    case Some(existing) =>
      match NewIssuances(w, existing, resolved, env, w.secret.value)
      case None => (w, Refused)
      case Some(more) =>
        (if more == [] then w else w.(issued := Some(existing + more)), Published(resolved))
  }

  predicate DistinctSnapshots(s: seq<Record>) {
    forall j, k :: 0 <= j < k < |s| ==> s[j].key.snapshot != s[k].key.snapshot
  }

  /** The legacy records on the way up from record `i`. */
  function LegacyChain(records: seq<Record>, i: nat): (r: seq<Record>)
    requires Sound(records) && i < |records|
    ensures forall x :: x in r ==> x.registeredAt.None? && exists k :: 0 <= k <= i && records[k] == x
    ensures DistinctSnapshots(r)
    decreases i
  {
    var here := if records[i].registeredAt.None? then [records[i]] else [];
    if ParentOf(records, i).None? then here else here + LegacyChain(records, ParentOf(records, i).value)
  }

  /** One publish: bootstrap, secret, witnesses, issuances. */
  function PublishStep(records: seq<Record>, w: World, i: nat, env: Env): (World, Outcome)
    requires Sound(records) && i < |records|
  {
    var chain := LegacyChain(records, i);
    if chain == [] then (w, Published([]))
    else
      var (booted, ok) := Boot(w, env.stop);
      if !ok then (booted, if env.stop in {BootPrepared, BootWritten} then Interrupted else Refused)
      else if !DistinctWitnesses(booted.file.value) || Recover(booted.log, booted.file).None? then (booted, Refused)
      else
        var ready := booted.(log := Recover(booted.log, booted.file).value,
                             secret := if booted.secret.Some? then booted.secret else Some(env.newSecret));
        var (witnessed, outcome) := WitnessChain(ready, chain, env);
        if !outcome.Published? || outcome.resolved == [] then (witnessed, outcome)
        else if env.stop == Witnessed then (witnessed, Interrupted)
        else IssueAll(witnessed, outcome.resolved, env)
  }

  // ---- The invariant ------------------------------------------------------------------------------

  predicate FileSound(records: seq<Record>, w: World) {
    && Recover(w.log, w.file).Some?
    && (w.file.Some? ==>
          && DistinctWitnesses(w.file.value)
          && DatasetsMatch(records, w.file.value))
  }

  /** Every issuance is authentic and answers for a witness that is on file. */
  predicate IssuedSound(w: World) {
    w.issued.Some? ==>
      && w.secret.Some? && ReadableIssuances(w.workspace, w.secret.value, w.issued.value)
      && w.file.Some?
      && forall x :: x in w.issued.value ==> AnswersFor(w, x)
  }

  predicate Inv(records: seq<Record>, w: World) { FileSound(records, w) && IssuedSound(w) }

  /** In a sound world a legacy record is known exactly from its issuance on. */
  function IssuedAt(w: World, key: Proof): Option<Instant> {
    if w.issued.None? then None
    else match FindIssuance(w.issued.value, key) case None => None case Some(x) => Some(x.core.at)
  }

  lemma SameWitness(ws: seq<Witness>, x: Witness)
    requires DistinctWitnesses(ws) && x in ws
    ensures FindWitness(ws, x.key) == Some(x)
  {
  }

  lemma KnownFromIssuance(records: seq<Record>, w: World, k: nat)
    requires Inv(records, w) && k < |records| && records[k].registeredAt.None?
    ensures PublishedAt(w, records[k]) ==
            match IssuedAt(w, records[k].key) case None => Missing case Some(t) => At(t)
  {
    var r := records[k];
    if w.issued.Some? && FindIssuance(w.issued.value, r.key).Some? {
      SameWitness(w.file.value, FindIssuance(w.issued.value, r.key).value.core.evidence);
    }
  }

  // ---- What one publish keeps ---------------------------------------------------------------------

  predicate ChainSound(records: seq<Record>, chain: seq<Record>) {
    && (forall x :: x in chain ==> x in records)
    && DistinctSnapshots(chain)
  }

  lemma BootKeeps(records: seq<Record>, w: World, stop: Stop)
    requires Inv(records, w)
    ensures Inv(records, Boot(w, stop).0) && Boot(w, stop).0.issued == w.issued
    ensures Boot(w, stop).1 ==> Boot(w, stop).0.file.Some?
    ensures Boot(w, stop).0.workspace == w.workspace && Boot(w, stop).0.secret == w.secret
  {
  }

  lemma {:induction false} UnwitnessedDistinct(ws: seq<Witness>, chain: seq<Record>)
    requires DistinctSnapshots(chain)
    ensures DistinctSnapshots(Unwitnessed(ws, chain))
  {
    if chain != [] {
      var n := |chain| - 1;
      UnwitnessedDistinct(ws, chain[..n]);
      ChainMembers(ws, chain[..n]);
      var rest := Unwitnessed(ws, chain[..n]);
      forall j | 0 <= j < |rest| ensures rest[j].key.snapshot != chain[n].key.snapshot {
        assert rest[j] in chain[..n];
        var k :| 0 <= k < n && chain[..n][k] == rest[j];
        assert chain[k] == rest[j];
      }
      var m := Unwitnessed(ws, chain);
      if m != rest {
        assert m == rest + [chain[n]];
      }
    }
  }

  lemma {:induction false} ResolvedDistinct(ws: seq<Witness>, chain: seq<Record>)
    requires DistinctSnapshots(chain)
    ensures DistinctWitnesses(Resolved(ws, chain))
    ensures forall x :: x in Resolved(ws, chain) ==> exists k :: 0 <= k < |chain| && chain[k].key == x.key
  {
    if chain != [] {
      var n := |chain| - 1;
      ResolvedDistinct(ws, chain[..n]);
      var rest := Resolved(ws, chain[..n]);
      forall j | 0 <= j < |rest| ensures rest[j].key != chain[n].key {
        assert rest[j] in rest;
        var k :| 0 <= k < n && chain[..n][k].key == rest[j].key;
        assert chain[k].key.snapshot != chain[n].key.snapshot;
      }
      forall x | x in Resolved(ws, chain) ensures exists k :: 0 <= k < |chain| && chain[k].key == x.key {
        if x in rest {
          var k :| 0 <= k < n && chain[..n][k].key == x.key;
          assert chain[k].key == x.key;
        } else {
          assert chain[n].key == x.key;
        }
      }
    }
  }

  /** The new witnesses do not collide with each other or with the ones on file. */
  lemma AdditionsDistinct(ws: seq<Witness>, chain: seq<Record>, now: Instant)
    requires DistinctWitnesses(ws)
    requires DistinctSnapshots(chain)
    ensures DistinctWitnesses(ws + Additions(Unwitnessed(ws, chain), now))
    ensures DistinctWitnesses(Resolved(ws, chain) + Additions(Unwitnessed(ws, chain), now))
  {
    var missing := Unwitnessed(ws, chain);
    var more := Additions(missing, now);
    UnwitnessedDistinct(ws, chain);
    ResolvedDistinct(ws, chain);
    ChainMembers(ws, chain);
    forall x, j | x in ws && 0 <= j < |more| ensures x.key != more[j].key { assert missing[j] in missing; }
    var done := Resolved(ws, chain);
    forall i, j | 0 <= i < |done| && 0 <= j < |more| ensures done[i].key != more[j].key { assert done[i] in ws; }
    forall i, j | 0 <= i < |ws| && 0 <= j < |more| ensures ws[i].key != more[j].key { assert ws[i] in ws; }
  }

  predicate DatasetsMatch(records: seq<Record>, ws: seq<Witness>) {
    forall x, k :: x in ws && 0 <= k < |records| && records[k].key == x.key ==> records[k].dataset == x.dataset
  }

  lemma AdditionsMatch(records: seq<Record>, ws: seq<Witness>, chain: seq<Record>, now: Instant)
    requires Sound(records) && ChainSound(records, chain) && DatasetsMatch(records, ws)
    ensures DatasetsMatch(records, ws + Additions(Unwitnessed(ws, chain), now))
  {
    var missing := Unwitnessed(ws, chain);
    var more := Additions(missing, now);
    ChainMembers(ws, chain);
    forall x, k | x in more && 0 <= k < |records| && records[k].key == x.key ensures records[k].dataset == x.dataset {
      var j :| 0 <= j < |more| && more[j] == x;
      assert missing[j] in missing && missing[j] in records;
      var m :| 0 <= m < |records| && records[m] == missing[j];
      assert m == k;
    }
  }

  lemma MoreWitnesses(records: seq<Record>, w: World, more: seq<Witness>, log: Log)
    requires Inv(records, w) && w.file.Some? && DistinctWitnesses(w.file.value + more)
    requires DatasetsMatch(records, w.file.value + more)
    requires Recover(log, Some(w.file.value + more)).Some?
    ensures Inv(records, w.(log := log, file := Some(w.file.value + more)))
  {
    var v := w.(log := log, file := Some(w.file.value + more));
    if w.issued.Some? {
      forall x | x in w.issued.value ensures AnswersFor(v, x) { assert AnswersFor(w, x); }
    }
  }

  lemma WitnessKeeps(records: seq<Record>, w: World, chain: seq<Record>, env: Env)
    requires Sound(records) && Inv(records, w) && w.file.Some? && ChainSound(records, chain)
    ensures var v := WitnessChain(w, chain, env).0;
            Inv(records, v) && v.issued == w.issued && v.secret == w.secret && v.workspace == w.workspace
  {
    var v := WitnessChain(w, chain, env).0;
    var settled := Recover(w.log, w.file).value;
    assert Inv(records, w.(log := settled));
    if v.file != w.file {
      var more := Additions(Unwitnessed(w.file.value, chain), env.now);
      AdditionsDistinct(w.file.value, chain, env.now);
      AdditionsMatch(records, w.file.value, chain, env.now);
      MoreWitnesses(records, w, more, v.log);
    }
  }

  lemma WitnessResolves(records: seq<Record>, w: World, chain: seq<Record>, env: Env)
    requires Inv(records, w) && w.file.Some? && ChainSound(records, chain)
    requires WitnessChain(w, chain, env).1.Published?
    ensures var (v, outcome) := WitnessChain(w, chain, env);
            && v.file.Some? && DistinctWitnesses(outcome.resolved)
            && forall x :: x in outcome.resolved ==> x in v.file.value
  {
    AdditionsDistinct(w.file.value, chain, env.now);
    ResolvedDistinct(w.file.value, chain);
    ChainMembers(w.file.value, chain);
  }

  /** The issuance is for a resolved witness that had none, at the `j`-th sample. */
  predicate IssuedFor(w: World, existing: seq<Issuance>, resolved: seq<Witness>, env: Env, secret: Secret,
                      i: Issuance, j: nat)
  {
    exists x :: x in resolved && i == Issue(w, x, env.samples(j), secret) && FindIssuance(existing, x.key).None?
  }

  lemma IssuedForMore(w: World, existing: seq<Issuance>, resolved: seq<Witness>, env: Env, secret: Secret,
                      i: Issuance, j: nat)
    requires DistinctWitnesses(resolved) && resolved != []
    requires IssuedFor(w, existing, resolved[..|resolved| - 1], env, secret, i, j)
    ensures IssuedFor(w, existing, resolved, env, secret, i, j) && i.core.key != resolved[|resolved| - 1].key
  {
    var rest := resolved[..|resolved| - 1];
    var x :| x in rest && i == Issue(w, x, env.samples(j), secret) && FindIssuance(existing, x.key).None?;
    assert x in resolved;
  }

  lemma {:induction false} NewIssuancesSound(
    w: World, existing: seq<Issuance>, resolved: seq<Witness>, env: Env, secret: Secret)
    requires NewIssuances(w, existing, resolved, env, secret).Some? && DistinctWitnesses(resolved)
    ensures var more := NewIssuances(w, existing, resolved, env, secret).value;
            && DistinctIssuances(more)
            && forall j :: 0 <= j < |more| ==> IssuedFor(w, existing, resolved, env, secret, more[j], j)
  {
    if resolved != [] {
      var n := |resolved| - 1;
      NewIssuancesSound(w, existing, resolved[..n], env, secret);
      var rest := NewIssuances(w, existing, resolved[..n], env, secret).value;
      forall j | 0 <= j < |rest|
        ensures IssuedFor(w, existing, resolved, env, secret, rest[j], j) && rest[j].core.key != resolved[n].key
      {
        IssuedForMore(w, existing, resolved, env, secret, rest[j], j);
      }
    }
  }

  lemma {:induction false} FindAppended(a: seq<Issuance>, b: seq<Issuance>, key: Proof)
    ensures FindIssuance(a + b, key) ==
            if FindIssuance(a, key).Some? then FindIssuance(a, key) else FindIssuance(b, key)
  {
    if a == [] {
      assert a + b == b;
    } else {
      FindAppended(a[1..], b, key);
      assert (a + b)[1..] == a[1..] + b;
    }
  }

  predicate AnswersFor(w: World, x: Issuance) {
    && w.secret.Some? && w.file.Some? && Verified(x, w.workspace, w.secret.value)
    && x.core.evidence in w.file.value && x.core.evidence.key == x.core.key && x.core.evidence.dataset == x.core.dataset
  }

  lemma MoreIssuances(
    w: World, existing: seq<Issuance>, resolved: seq<Witness>, env: Env, secret: Secret, more: seq<Issuance>)
    requires w.file.Some? && w.secret == Some(secret) && DistinctWitnesses(resolved) && DistinctIssuances(existing)
    requires forall x :: x in resolved ==> x in w.file.value
    requires NewIssuances(w, existing, resolved, env, secret) == Some(more)
    ensures DistinctIssuances(existing + more)
    ensures forall x :: x in more ==> AnswersFor(w, x)
    ensures forall x :: x in more ==> SampledBy(env, |more|, x.core.at)
  {
    NewIssuancesSound(w, existing, resolved, env, secret);
    forall i, j | 0 <= i < |existing| && 0 <= j < |more| ensures existing[i].core.key != more[j].core.key {
      assert IssuedFor(w, existing, resolved, env, secret, more[j], j);
      assert existing[i] in existing;
    }
    forall x | x in more ensures AnswersFor(w, x) && SampledBy(env, |more|, x.core.at) {
      var j :| 0 <= j < |more| && more[j] == x;
      assert IssuedFor(w, existing, resolved, env, secret, more[j], j);
    }
  }

  /** Issuing keeps every earlier time; a new one is one of this publish's samples. */
  lemma IssueKeeps(records: seq<Record>, w: World, resolved: seq<Witness>, env: Env)
    requires Inv(records, w) && w.secret.Some? && w.file.Some? && DistinctWitnesses(resolved)
    requires forall x :: x in resolved ==> x in w.file.value
    ensures Inv(records, IssueAll(w, resolved, env).0)
    ensures forall key :: OnlyNewTimes(w, IssueAll(w, resolved, env).0, key, env)
  {
    var v := IssueAll(w, resolved, env).0;
    if v != w {
      var existing := ReadIssuances(w).value;
      var more := NewIssuances(w, existing, resolved, env, w.secret.value).value;
      MoreIssuances(w, existing, resolved, env, w.secret.value, more);
      assert v.issued == Some(existing + more);
      forall x | x in existing + more ensures AnswersFor(w, x) {}
      forall key ensures OnlyNewTimes(w, v, key, env) {
        FindAppended(existing, more, key);
        assert IssuedAt(w, key).Some? <==> FindIssuance(existing, key).Some?;
        assert Issued(v) - Issued(w) == |more|;
      }
    }
  }

  /** The time of a proof is kept, or was missing and is now one of the samples that were used. */
  ghost predicate OnlyNewTimes(w: World, v: World, key: Proof, env: Env) {
    IssuedAt(v, key) == IssuedAt(w, key)
    || (IssuedAt(w, key).None? && IssuedAt(v, key).Some? && Consumes(w, v, env, IssuedAt(v, key).value))
  }

  ghost predicate SampledBy(env: Env, n: nat, t: Instant) { exists j: nat :: j < n && env.samples(j) == t }

  function Issued(w: World): nat { if w.issued.Some? then |w.issued.value| else 0 }

  /** A step takes one clock sample for each issuance that it adds, and no other. */
  ghost predicate Consumes(w: World, v: World, env: Env, t: Instant) {
    Issued(w) <= Issued(v) && SampledBy(env, Issued(v) - Issued(w), t)
  }

  lemma SameIssuedTimes(w: World, v: World, env: Env)
    requires v.issued == w.issued
    ensures forall key :: OnlyNewTimes(w, v, key, env)
  {
  }

  /** A publish, wherever it stops, keeps the invariant and every issued time. */
  lemma PublishKeeps(records: seq<Record>, w: World, i: nat, env: Env)
    requires Sound(records) && Inv(records, w) && i < |records|
    ensures Inv(records, PublishStep(records, w, i, env).0)
    ensures forall key :: OnlyNewTimes(w, PublishStep(records, w, i, env).0, key, env)
  {
    var chain := LegacyChain(records, i);
    var booted := Boot(w, env.stop).0;
    BootKeeps(records, w, env.stop);
    SameIssuedTimes(w, booted, env);
    if chain != [] && Boot(w, env.stop).1 {
      var ready := booted.(log := Recover(booted.log, booted.file).value,
                           secret := if booted.secret.Some? then booted.secret else Some(env.newSecret));
      assert Inv(records, ready) by { ReadyKeeps(records, booted, ready); }
      var (witnessed, outcome) := WitnessChain(ready, chain, env);
      WitnessKeeps(records, ready, chain, env);
      SameIssuedTimes(w, witnessed, env);
      if outcome.Published? && outcome.resolved != [] && env.stop != Witnessed {
        WitnessResolves(records, ready, chain, env);
        IssueKeeps(records, witnessed, outcome.resolved, env);
        var v := IssueAll(witnessed, outcome.resolved, env).0;
        forall key ensures OnlyNewTimes(w, v, key, env) { assert OnlyNewTimes(witnessed, v, key, env); }
      }
    }
  }

  lemma ReadyKeeps(records: seq<Record>, w: World, v: World)
    requires Inv(records, w) && Recover(w.log, w.file).Some?
    requires v == w.(log := Recover(w.log, w.file).value, secret := v.secret) && v.secret.Some?
    requires w.secret.Some? ==> v.secret == w.secret
    ensures Inv(records, v)
  {
    if w.issued.Some? {
      forall x | x in w.issued.value ensures AnswersFor(v, x) { assert AnswersFor(w, x); }
    }
  }

  // ---- No retroactive proof --------------------------------------------------------------------------

  lemma ShowsUnchanged(records: seq<Record>, w: World, v: World, env: Env, k: nat, boundary: Instant)
    requires Inv(records, w) && Inv(records, v) && k < |records|
    requires OnlyNewTimes(w, v, records[k].key, env)
    requires forall t :: Consumes(w, v, env, t) ==> boundary < t
    ensures Shows(v, records[k], boundary) == Shows(w, records[k], boundary)
  {
    if records[k].registeredAt.None? {
      KnownFromIssuance(records, w, k);
      KnownFromIssuance(records, v, k);
    }
  }

  /** Publishing changes no answer for a boundary before the samples it takes for issuances, wherever it stops. */
  lemma PublishKeepsPast(
    records: seq<Record>, w: World, i: nat, env: Env, descendant: Id, ancestor: Id, boundary: Instant)
    requires Sound(records) && Inv(records, w) && i < |records|
    requires forall t :: Consumes(w, PublishStep(records, w, i, env).0, env, t) ==> boundary < t
    ensures RequireDescendant(records, PublishStep(records, w, i, env).0, descendant, ancestor, boundary)
            == RequireDescendant(records, w, descendant, ancestor, boundary)
  {
    var v := PublishStep(records, w, i, env).0;
    PublishKeeps(records, w, i, env);
    forall k | 0 <= k < |records| ensures Shows(v, records[k], boundary) == Shows(w, records[k], boundary) {
      ShowsUnchanged(records, w, v, env, k, boundary);
    }
    var d, a := IndexOf(records, descendant), IndexOf(records, ancestor);
    if d.Some? && a.Some? { WalkDepends(records, v, w, d.value, a.value, boundary); }
  }

  datatype Op = Publish(index: nat, env: Env)

  function Run(records: seq<Record>, w: World, ops: seq<Op>): World
    requires Sound(records) && forall op :: op in ops ==> op.index < |records|
    decreases |ops|
  {
    if ops == [] then w
    else
      assert forall op :: op in ops[1..] ==> op in ops;
      Run(records, PublishStep(records, w, ops[0].index, ops[0].env).0, ops[1..])
  }

  /** Every clock sample that a publish of the run takes for an issuance is after the boundary. */
  ghost predicate SamplesAfter(records: seq<Record>, w: World, ops: seq<Op>, boundary: Instant)
    requires Sound(records) && forall op :: op in ops ==> op.index < |records|
    decreases |ops|
  {
    ops == [] ||
    (var next := PublishStep(records, w, ops[0].index, ops[0].env).0;
     assert forall op :: op in ops[1..] ==> op in ops;
     (forall t :: Consumes(w, next, ops[0].env, t) ==> boundary < t) && SamplesAfter(records, next, ops[1..], boundary))
  }

  /** Over every run of publishes and stops: the stores stay sound and the past stays as it was. */
  lemma {:induction false} PastNeverChanges(
    records: seq<Record>, w: World, ops: seq<Op>, descendant: Id, ancestor: Id, boundary: Instant)
    requires Sound(records) && Inv(records, w) && forall op :: op in ops ==> op.index < |records|
    requires SamplesAfter(records, w, ops, boundary)
    ensures Inv(records, Run(records, w, ops))
    ensures RequireDescendant(records, Run(records, w, ops), descendant, ancestor, boundary)
            == RequireDescendant(records, w, descendant, ancestor, boundary)
    decreases |ops|
  {
    if ops == [] {
    } else {
      var next := PublishStep(records, w, ops[0].index, ops[0].env).0;
      assert forall op :: op in ops[1..] ==> op in ops;
      PublishKeeps(records, w, ops[0].index, ops[0].env);
      PublishKeepsPast(records, w, ops[0].index, ops[0].env, descendant, ancestor, boundary);
      PastNeverChanges(records, next, ops[1..], descendant, ancestor, boundary);
    }
  }

  lemma PristineIsSound(records: seq<Record>, workspace: string)
    ensures Inv(records, Pristine(workspace))
  {
  }
}
