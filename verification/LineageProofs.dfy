/** What a lineage publish proves when it reports success, and exactly when it succeeds. */
module LineageProofs {
  import opened Common
  import opened LineagePublication
  import opened LineageHistory

  // ---- Issuing --------------------------------------------------------------------------------------

  lemma {:induction false} FindInDistinct(s: seq<Issuance>, i: Issuance)
    requires DistinctIssuances(s) && i in s
    ensures FindIssuance(s, i.core.key) == Some(i)
  {
    if s[0] != i {
      var k :| 0 <= k < |s| && s[k] == i;
      FindInDistinct(s[1..], i);
    }
  }

  /** Every resolved witness is answered for: by its prior issuance, or by one at a sample that was taken. */
  lemma {:induction false} NewIssuancesCover(
    w: World, existing: seq<Issuance>, resolved: seq<Witness>, env: Env, secret: Secret, k: nat)
    requires NewIssuances(w, existing, resolved, env, secret).Some? && k < |resolved|
    ensures var more := NewIssuances(w, existing, resolved, env, secret).value;
            match FindIssuance(existing, resolved[k].key)
            case Some(prior) => prior.core.evidence == resolved[k] && prior.core.dataset == resolved[k].dataset
            case None => exists j: nat :: j < |more| && more[j] == Issue(w, resolved[k], env.samples(j), secret)
    decreases |resolved|
  {
    var n := |resolved| - 1;
    var rest := NewIssuances(w, existing, resolved[..n], env, secret).value;
    var more := NewIssuances(w, existing, resolved, env, secret).value;
    if k < n {
      NewIssuancesCover(w, existing, resolved[..n], env, secret, k);
      assert rest <= more;
      if FindIssuance(existing, resolved[k].key).None? {
        var j: nat :| j < |rest| && rest[j] == Issue(w, resolved[k], env.samples(j), secret);
        assert more[j] == rest[j];
      }
    } else if FindIssuance(existing, resolved[k].key).None? {
      assert more[|rest|] == Issue(w, resolved[n], env.samples(|rest|), secret);
    }
  }

  /** The issuance file after a successful call can be read, by the issuer who wrote it. */
  lemma IssuedIsReadable(w: World, resolved: seq<Witness>, env: Env)
    requires w.secret.Some? && DistinctWitnesses(resolved) && IssueAll(w, resolved, env).1.Published?
    ensures ReadIssuances(w).Some?
    ensures NewIssuances(w, ReadIssuances(w).value, resolved, env, w.secret.value).Some?
    ensures ReadIssuances(IssueAll(w, resolved, env).0) ==
            Some(ReadIssuances(w).value + NewIssuances(w, ReadIssuances(w).value, resolved, env, w.secret.value).value)
  {
    var existing := ReadIssuances(w).value;
    var more := NewIssuances(w, existing, resolved, env, w.secret.value).value;
    NewIssuancesSound(w, existing, resolved, env, w.secret.value);
    forall j | 0 <= j < |more|
      ensures Verified(more[j], w.workspace, w.secret.value) && FindIssuance(existing, more[j].core.key).None?
    {
      assert IssuedFor(w, existing, resolved, env, w.secret.value, more[j], j);
    }
    forall i, j | 0 <= i < |existing| && 0 <= j < |more| ensures existing[i].core.key != more[j].core.key {
      assert existing[i] in existing;
    }
    if more == [] {
      assert existing + more == existing;
    } else {
      assert ReadableIssuances(w.workspace, w.secret.value, existing + more);
    }
  }

  /** The time was already there, or the call took it from its clock. */
  ghost predicate TimedNow(w: World, v: World, env: Env, x: Witness) {
    match IssuedTime(v, x)
    case At(t) => IssuedTime(w, x) == At(t) || (IssuedTime(w, x) == Missing && Consumes(w, v, env, t))
    case _ => false
  }

  /** The issuance that answers for a resolved witness after the call, and whether it is new. */
  lemma IssuedNow(w: World, resolved: seq<Witness>, env: Env, x: Witness) returns (i: Issuance)
    requires w.secret.Some? && DistinctWitnesses(resolved) && x in resolved
    requires IssueAll(w, resolved, env).1.Published?
    ensures var v := IssueAll(w, resolved, env).0;
            && ReadIssuances(w).Some? && ReadIssuances(v).Some?
            && FindIssuance(ReadIssuances(v).value, x.key) == Some(i)
            && i.core.dataset == x.dataset && i.core.evidence == x
            && (FindIssuance(ReadIssuances(w).value, x.key) == Some(i)
                || (FindIssuance(ReadIssuances(w).value, x.key).None?
                    && SampledBy(env, |ReadIssuances(v).value| - |ReadIssuances(w).value|, i.core.at)))
  {
    IssuedIsReadable(w, resolved, env);
    var existing, secret := ReadIssuances(w).value, w.secret.value;
    var more := NewIssuances(w, existing, resolved, env, secret).value;
    var k :| 0 <= k < |resolved| && resolved[k] == x;
    NewIssuancesCover(w, existing, resolved, env, secret, k);
    FindAppended(existing, more, x.key);
    if FindIssuance(existing, x.key).Some? {
      i := FindIssuance(existing, x.key).value;
    } else {
      var j: nat :| j < |more| && more[j] == Issue(w, x, env.samples(j), secret);
      i := more[j];
      NewIssuancesSound(w, existing, resolved, env, secret);
      FindInDistinct(more, i);
      assert |existing + more| - |existing| == |more| && SampledBy(env, |more|, i.core.at);
    }
  }

  lemma IssuedCounts(w: World, resolved: seq<Witness>, env: Env)
    requires w.secret.Some? && IssueAll(w, resolved, env).1.Published?
    requires ReadIssuances(w).Some? && ReadIssuances(IssueAll(w, resolved, env).0).Some?
    ensures Issued(w) == |ReadIssuances(w).value|
    ensures Issued(IssueAll(w, resolved, env).0) == |ReadIssuances(IssueAll(w, resolved, env).0).value|
    ensures Issued(w) <= Issued(IssueAll(w, resolved, env).0)
  {
  }

  /** A successful issue proves every resolved witness: it has its old time, or one of the samples taken. */
  lemma IssueProves(w: World, resolved: seq<Witness>, env: Env, x: Witness)
    requires w.secret.Some? && DistinctWitnesses(resolved) && x in resolved
    requires IssueAll(w, resolved, env).1.Published?
    ensures TimedNow(w, IssueAll(w, resolved, env).0, env, x)
  {
    var i := IssuedNow(w, resolved, env, x);
    IssuedCounts(w, resolved, env);
  }

  lemma {:induction false} NewIssuancesExactly(
    w: World, existing: seq<Issuance>, resolved: seq<Witness>, env: Env, secret: Secret)
    ensures NewIssuances(w, existing, resolved, env, secret).Some? <==>
            forall x :: x in resolved && FindIssuance(existing, x.key).Some? ==>
              && FindIssuance(existing, x.key).value.core.evidence == x
              && FindIssuance(existing, x.key).value.core.dataset == x.dataset
  {
    if resolved != [] {
      var n := |resolved| - 1;
      NewIssuancesExactly(w, existing, resolved[..n], env, secret);
      SplitLast(resolved);
    }
  }

  /** Issuing succeeds exactly when the store can be read and no witness has broken evidence. */
  lemma IssuesExactly(w: World, resolved: seq<Witness>, env: Env)
    requires w.secret.Some?
    ensures IssueAll(w, resolved, env).1 ==
            if ReadIssuances(w).Some? && forall x :: x in resolved ==> !IssuedTime(w, x).Broken?
            then Published(resolved) else Refused
  {
    if ReadIssuances(w).Some? {
      NewIssuancesExactly(w, ReadIssuances(w).value, resolved, env, w.secret.value);
    }
  }

  // ---- Witnessing -------------------------------------------------------------------------------------

  lemma {:induction false} Sorted(ws: seq<Witness>, chain: seq<Record>, r: Record)
    requires r in chain
    ensures if FindWitness(ws, r.key).Some? then FindWitness(ws, r.key).value in Resolved(ws, chain)
            else r in Unwitnessed(ws, chain)
  {
    var n := |chain| - 1;
    SplitLast(chain);
    if r != chain[n] { Sorted(ws, chain[..n], r); }
  }

  /** The witness of the record is among the resolved ones, on file, and of its dataset. */
  predicate WitnessedBy(ws: seq<Witness>, resolved: seq<Witness>, r: Record) {
    var x := FindWitness(ws, r.key);
    x.Some? && x.value in resolved && x.value.dataset == r.dataset
  }

  lemma OldStaysFound(ws: seq<Witness>, more: seq<Witness>, key: Proof)
    requires DistinctWitnesses(ws + more) && FindWitness(ws, key).Some?
    ensures FindWitness(ws + more, key) == FindWitness(ws, key)
  {
    var x := FindWitness(ws, key).value;
    assert x in ws + more;
    SameWitness(ws + more, x);
  }

  lemma NewIsFound(ws: seq<Witness>, missing: seq<Record>, now: Instant, r: Record)
    requires DistinctWitnesses(ws + Additions(missing, now)) && r in missing
    ensures var more := Additions(missing, now);
            Witness(r.key, r.dataset, now) in more
            && FindWitness(ws + more, r.key) == Some(Witness(r.key, r.dataset, now))
  {
    var more := Additions(missing, now);
    var j :| 0 <= j < |missing| && missing[j] == r;
    assert more[j] in more && more[j] in ws + more;
    SameWitness(ws + more, more[j]);
  }

  /** What a successful chain leaves on file and hands on. */
  lemma ChainLeaves(w: World, chain: seq<Record>, env: Env)
    requires w.file.Some? && WitnessChain(w, chain, env).1.Published?
    ensures var (v, outcome) := WitnessChain(w, chain, env);
            var more := Additions(Unwitnessed(w.file.value, chain), env.now);
            v.file == Some(w.file.value + more) && outcome.resolved == Resolved(w.file.value, chain) + more
  {
    var missing := Unwitnessed(w.file.value, chain);
    if missing == [] {
      assert w.file.value + Additions(missing, env.now) == w.file.value;
      assert Resolved(w.file.value, chain) + Additions(missing, env.now) == Resolved(w.file.value, chain);
    }
  }

  /** A successful chain has a witness for every record, on file and handed on. */
  lemma ChainProves(records: seq<Record>, w: World, chain: seq<Record>, env: Env, r: Record)
    requires Sound(records) && Inv(records, w) && w.file.Some? && ChainSound(records, chain) && r in chain
    requires WitnessChain(w, chain, env).1.Published?
    ensures var (v, outcome) := WitnessChain(w, chain, env);
            v.file.Some? && WitnessedBy(v.file.value, outcome.resolved, r)
  {
    var ws := w.file.value;
    var missing := Unwitnessed(ws, chain);
    ChainLeaves(w, chain, env);
    Sorted(ws, chain, r);
    AdditionsDistinct(ws, chain, env.now);
    if FindWitness(ws, r.key).Some? {
      var k :| 0 <= k < |records| && records[k] == r;
      OldStaysFound(ws, Additions(missing, env.now), r.key);
    } else {
      NewIsFound(ws, missing, env.now, r);
    }
  }

  predicate Lacks(w: World, r: Record) { w.file.None? || forall x :: x in w.file.value ==> x.key != r.key }

  predicate LacksSome(w: World, chain: seq<Record>) { exists r :: r in chain && Lacks(w, r) }

  predicate LackingAvailable(w: World, chain: seq<Record>, now: Instant) {
    forall r :: r in chain && Lacks(w, r) ==> r.availableAt <= now
  }

  lemma LacksExactly(w: World, chain: seq<Record>, now: Instant)
    requires w.file.Some?
    ensures LacksSome(w, chain) <==> Unwitnessed(w.file.value, chain) != []
    ensures LackingAvailable(w, chain, now) <==> AllAvailable(Unwitnessed(w.file.value, chain), now)
  {
    var missing := Unwitnessed(w.file.value, chain);
    ChainMembers(w.file.value, chain);
    forall r | r in chain ensures Lacks(w, r) <==> r in missing {
      Sorted(w.file.value, chain, r);
    }
    if missing != [] { assert missing[0] in missing; }
    forall i | 0 <= i < |missing| ensures missing[i] in missing {}
  }

  /** In a sound world a chain is witnessed exactly when nothing stops it and what lacks a witness is available. */
  lemma WitnessesExactly(records: seq<Record>, w: World, chain: seq<Record>, env: Env)
    requires Sound(records) && Inv(records, w) && w.file.Some? && ChainSound(records, chain)
    ensures WitnessChain(w, chain, env).1.Published? <==>
            LacksSome(w, chain) ==> LackingAvailable(w, chain, env.now) && env.stop !in {Prepared, Written}
  {
    LacksExactly(w, chain, env.now);
    AdditionsDistinct(w.file.value, chain, env.now);
    forall i | 0 <= i < |chain| ensures BindingMatches(w.file.value, chain[i]) {
      assert chain[i] in records;
    }
  }

  // ---- A whole publish ------------------------------------------------------------------------------------

  /** The world in which the chain is witnessed. */
  function Ready(w: World, env: Env): World {
    var booted := Boot(w, env.stop).0;
    var log := Recover(booted.log, booted.file);
    booted.(log := if log.Some? then log.value else booted.log,
            secret := if booted.secret.Some? then booted.secret else Some(env.newSecret))
  }

  lemma BootsExactly(records: seq<Record>, w: World, env: Env)
    requires Inv(records, w)
    ensures Boot(w, env.stop).1 <==> w.file.None? ==> env.stop !in {BootPrepared, BootWritten}
    ensures Boot(w, env.stop).1 ==>
              Inv(records, Ready(w, env)) && Ready(w, env).file == Some(if w.file.Some? then w.file.value else [])
    ensures Ready(w, env).issued == w.issued && Ready(w, env).secret.Some?
    ensures forall r :: Boot(w, env.stop).1 ==> (Lacks(Ready(w, env), r) <==> Lacks(w, r))
  {
    BootKeeps(records, w, env.stop);
    ReadyKeeps(records, Boot(w, env.stop).0, Ready(w, env));
  }

  /** A publish that got past its witnesses, in the three worlds that it passes. */
  lemma PublishStages(records: seq<Record>, w: World, i: nat, env: Env)
    requires Sound(records) && Inv(records, w) && i < |records| && LegacyChain(records, i) != []
    ensures var chain := LegacyChain(records, i);
            var (witnessed, outcome) := WitnessChain(Ready(w, env), chain, env);
            PublishStep(records, w, i, env).1.Published? ==>
              && Boot(w, env.stop).1 && outcome.Published? && env.stop != Witnessed && witnessed.secret.Some?
              && outcome.resolved != [] && PublishStep(records, w, i, env) == IssueAll(witnessed, outcome.resolved, env)
    ensures var chain := LegacyChain(records, i);
            var (witnessed, outcome) := WitnessChain(Ready(w, env), chain, env);
            Boot(w, env.stop).1 && outcome.Published? && outcome.resolved != [] && env.stop != Witnessed ==>
              witnessed.secret.Some? && PublishStep(records, w, i, env) == IssueAll(witnessed, outcome.resolved, env)
  {
    var chain := LegacyChain(records, i);
    BootsExactly(records, w, env);
    if Boot(w, env.stop).1 {
      WitnessKeeps(records, Ready(w, env), chain, env);
      if WitnessChain(Ready(w, env), chain, env).1.Published? {
        ChainProves(records, Ready(w, env), chain, env, chain[0]);
      }
    }
  }

  /** The record is now known: since its old time, or since a sample that the publish took. */
  ghost predicate KnownNow(w: World, v: World, env: Env, r: Record) {
    match PublishedAt(v, r)
    case At(t) => if IssuedAt(w, r.key).Some? then IssuedAt(w, r.key) == Some(t) else Consumes(w, v, env, t)
    case _ => false
  }

  /** A publish that reports success has proved every legacy record on the way up. */
  lemma PublishProves(records: seq<Record>, w: World, i: nat, env: Env, r: Record)
    requires Sound(records) && Inv(records, w) && i < |records| && r in LegacyChain(records, i)
    requires PublishStep(records, w, i, env).1.Published?
    ensures KnownNow(w, PublishStep(records, w, i, env).0, env, r)
  {
    var chain := LegacyChain(records, i);
    PublishStages(records, w, i, env);
    BootsExactly(records, w, env);
    var ready := Ready(w, env);
    var (witnessed, outcome) := WitnessChain(ready, chain, env);
    var v := PublishStep(records, w, i, env).0;
    WitnessKeeps(records, ready, chain, env);
    WitnessResolves(records, ready, chain, env);
    ChainProves(records, ready, chain, env, r);
    PublishKeeps(records, w, i, env);
    var x := FindWitness(witnessed.file.value, r.key).value;
    IssueProves(witnessed, outcome.resolved, env, x);
    assert v.file == witnessed.file && v.log == witnessed.log;
    assert OnlyNewTimes(w, v, r.key, env);
    var k :| 0 <= k < |records| && records[k] == r;
    KnownFromIssuance(records, v, k);
  }

  /** No record above has a time after the boundary, and neither has the publish. */
  ghost predicate TimesBy(records: seq<Record>, w: World, i: nat, env: Env, boundary: Instant)
    requires Sound(records) && i < |records|
  {
    && (forall t :: Consumes(w, PublishStep(records, w, i, env).0, env, t) ==> t <= boundary)
    && forall k :: 0 <= k < |records| && Above(records, i, k) ==>
         && (records[k].registeredAt.Some? ==> records[k].registeredAt.value <= boundary)
         && (records[k].registeredAt.None? && IssuedAt(w, records[k].key).Some? ==>
               IssuedAt(w, records[k].key).value <= boundary)
  }

  lemma {:induction false} ChainHasAbove(records: seq<Record>, i: nat, k: nat)
    requires Sound(records) && i < |records| && k < |records| && Above(records, i, k) && records[k].registeredAt.None?
    ensures records[k] in LegacyChain(records, i)
  {
    if i != k { ChainHasAbove(records, ParentOf(records, i).value, k); }
  }

  lemma {:induction false} AboveTransitive(records: seq<Record>, i: nat, p: nat, k: nat)
    requires Sound(records) && i < |records| && p < |records| && Above(records, i, p) && Above(records, p, k)
    ensures Above(records, i, k)
  {
    if i != p { AboveTransitive(records, ParentOf(records, i).value, p, k); }
  }

  lemma {:induction false} AllShown(records: seq<Record>, w: World, i: nat, a: nat, boundary: Instant)
    requires Sound(records) && i < |records|
    requires forall k :: 0 <= k < |records| && Above(records, i, k) ==> Shows(w, records[k], boundary) == Some(true)
    ensures KnownUpTo(records, w, i, a, boundary)
  {
    assert Above(records, i, i);
    if i != a && ParentOf(records, i).Some? {
      var p := ParentOf(records, i).value;
      forall k | 0 <= k < |records| && Above(records, p, k) ensures Above(records, i, k) {
        AboveTransitive(records, i, p, k);
      }
      AllShown(records, w, p, a, boundary);
    }
  }

  lemma ShownNow(records: seq<Record>, w: World, i: nat, env: Env, k: nat, boundary: Instant)
    requires Sound(records) && Inv(records, w) && i < |records| && k < |records| && Above(records, i, k)
    requires PublishStep(records, w, i, env).1.Published? && TimesBy(records, w, i, env, boundary)
    ensures Shows(PublishStep(records, w, i, env).0, records[k], boundary) == Some(true)
  {
    if records[k].registeredAt.None? {
      ChainHasAbove(records, i, k);
      PublishProves(records, w, i, env, records[k]);
    }
  }

  /** After a successful publish the descendant query accepts every ancestor, from the publish on. */
  lemma PublishAccepts(records: seq<Record>, w: World, i: nat, env: Env, a: nat, boundary: Instant)
    requires Sound(records) && Inv(records, w) && i < |records| && a < |records| && Above(records, i, a)
    requires PublishStep(records, w, i, env).1.Published? && TimesBy(records, w, i, env, boundary)
    ensures RequireDescendant(
              records, PublishStep(records, w, i, env).0, records[i].key.snapshot, records[a].key.snapshot, boundary)
            == Accept
  {
    var v := PublishStep(records, w, i, env).0;
    forall k | 0 <= k < |records| && Above(records, i, k) ensures Shows(v, records[k], boundary) == Some(true) {
      ShownNow(records, w, i, env, k, boundary);
    }
    AllShown(records, v, i, a, boundary);
    AcceptedExactly(records, v, i, a, boundary);
    IndexUnique(records, i);
    IndexUnique(records, a);
  }

  /**
   * From a sound world a publish succeeds exactly when no stop that applies is asked for and every record
   * of the chain that has no witness yet is of a dataset available by the witness clock.
   */
  lemma PublishesExactly(records: seq<Record>, w: World, i: nat, env: Env)
    requires Sound(records) && Inv(records, w) && i < |records|
    ensures PublishStep(records, w, i, env).1.Published? <==>
            var chain := LegacyChain(records, i);
            chain != [] ==>
              && (w.file.None? ==> env.stop !in {BootPrepared, BootWritten})
              && (LacksSome(w, chain) ==> LackingAvailable(w, chain, env.now) && env.stop !in {Prepared, Written})
              && env.stop != Witnessed
  {
    var chain := LegacyChain(records, i);
    if chain != [] {
      BootsExactly(records, w, env);
      PublishStages(records, w, i, env);
      if Boot(w, env.stop).1 {
        var ready := Ready(w, env);
        WitnessesExactly(records, ready, chain, env);
        assert LacksSome(ready, chain) <==> LacksSome(w, chain);
        var (witnessed, outcome) := WitnessChain(ready, chain, env);
        WitnessKeeps(records, ready, chain, env);
        if outcome.Published? {
          ChainProves(records, ready, chain, env, chain[0]);
          WitnessResolves(records, ready, chain, env);
          NothingBroken(records, witnessed, outcome.resolved);
          IssuesExactly(witnessed, outcome.resolved, env);
        }
      }
    }
  }

  lemma NothingBroken(records: seq<Record>, w: World, resolved: seq<Witness>)
    requires Inv(records, w) && w.file.Some? && forall x :: x in resolved ==> x in w.file.value
    ensures ReadIssuances(w).Some? && forall x :: x in resolved ==> !IssuedTime(w, x).Broken?
  {
    forall x | x in resolved ensures !IssuedTime(w, x).Broken? {
      var found := FindIssuance(ReadIssuances(w).value, x.key);
      if found.Some? {
        assert AnswersFor(w, found.value);
        SameWitness(w.file.value, x);
        SameWitness(w.file.value, found.value.core.evidence);
      }
    }
  }
}
