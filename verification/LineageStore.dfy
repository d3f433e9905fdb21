/** The publication authority as an object: its witness file, log, issuer secret and issuance file. */
module LineageStore {
  import opened Common
  import opened LineagePublication
  import opened LineageHistory

  /** Reading may settle a prepared transaction, and changes nothing else. */
  predicate Settles(w: World, v: World) {
    v == w || (Recover(w.log, w.file).Some? && v == w.(log := Recover(w.log, w.file).value))
  }

  lemma SettledReadsSame(w: World, v: World, r: Record)
    requires Settles(w, v)
    ensures PublishedAt(v, r) == PublishedAt(w, r)
  {
  }

  class PublicationAuthority {
    const workspace: string
    var file: Option<seq<Witness>>
    var log: Log
    var secret: Option<Secret>
    var issued: Option<seq<Issuance>>

    constructor Open(w: World)
      ensures Now() == w
    {
      workspace, file, log, secret, issued := w.workspace, w.file, w.log, w.secret, w.issued;
    }

    function Now(): World
      reads this
    {
      World(workspace, file, log, secret, issued)
    }

    /**
     * Settles the log by the file on disk: afterwards nothing is pending and the committed state is that
     * file. A file that is neither the committed nor the prepared one is refused and settles nothing.
     */
    method RecoverLog() returns (ok: bool)
      modifies this`log
      ensures ok ==> log == Log(file, None) && Recover(log, file) == Some(log)
      ensures !ok ==> log == old(log) && file != log.committed && (log.pending.Some? ==> file != log.pending)
      ensures ok <==> Recover(old(log), file).Some?
      ensures log == if ok then Recover(old(log), file).value else old(log)
    {
      if log.pending.None? { return file == log.committed; }
      if file == log.committed {
        log := Log(log.committed, None);
        return true;
      }
      if file == log.pending {
        log := Log(file, None);
        return true;
      }
      return false;
    }

    /** The authenticated publication time of one legacy record. */
    method WitnessFor(r: Record) returns (p: Publication)
      modifies this`log
      ensures p == WitnessedTime(old(Now()), r) && Settles(old(Now()), Now())
    {
      if file.Some? && !DistinctWitnesses(file.value) { return Broken; }
      var ok := RecoverLog();
      if !ok { return Broken; }
      if file.None? { return Missing; }
      var found := FindWitness(file.value, r.key);
      if found.None? { return Missing; }
      if found.value.dataset != r.dataset { return Broken; }
      var issuances := ReadIssuances(Now());
      if issuances.None? { return Broken; }
      for i := 0 to |issuances.value|
        invariant FindIssuance(issuances.value, r.key) == FindIssuance(issuances.value[i..], r.key)
      {
        var x := issuances.value[i];
        if x.core.key == r.key {
          if x.core.dataset != found.value.dataset || x.core.evidence != found.value { return Broken; }
          return At(x.core.at);
        }
      }
      return Missing;
    }

    /** The ancestry walk as a loop over parents. */
    method RequireDescendantAsOf(records: seq<Record>, descendant: Id, ancestor: Id, boundary: Instant)
      returns (verdict: Verdict)
      requires Sound(records)
      modifies this`log
      ensures verdict == RequireDescendant(records, old(Now()), descendant, ancestor, boundary)
      ensures Settles(old(Now()), Now())
    {
      var d, a := IndexOf(records, descendant), IndexOf(records, ancestor);
      if d.None? || a.None? { return Unproven; }
      var current: nat := d.value;
      while true
        invariant current < |records| && Settles(old(Now()), Now())
        invariant Walk(records, old(Now()), d.value, a.value, boundary)
                  == Walk(records, old(Now()), current, a.value, boundary)
        decreases current
      {
        ghost var before := Now();
        SettledReadsSame(old(Now()), before, records[current]);
        var registered := records[current].registeredAt;
        var published := if registered.Some? then At(registered.value) else Missing;
        if records[current].registeredAt.None? { published := WitnessFor(records[current]); }
        assert published == PublishedAt(old(Now()), records[current]);
        match published
        case Broken => return Failed;
        case Missing => return Unproven;
        case At(t) =>
          if t > boundary { return Unproven; }
          if current == a.value { return Accept; }
          if ParentOf(records, current).None? { return Unproven; }
          current := ParentOf(records, current).value;
      }
    }

    /** Witnesses the missing records: prepare, write the file, commit. */
    method PublishExactChain(chain: seq<Record>, env: Env) returns (outcome: Outcome)
      modifies this`file, this`log
      ensures (Now(), outcome) == WitnessChain(old(Now()), chain, env)
    {
      if file.None? || !DistinctWitnesses(file.value) { return Refused; }
      var ok := RecoverLog();
      if !ok { return Refused; }
      var existing := file.value;
      var sorted := SortChain(existing, chain);
      if sorted.None? { return Refused; }
      var (resolved, missing) := sorted.value;
      if missing == [] { return Published(resolved); }
      var additions := Observe(missing, env.now);
      if additions.None? { return Refused; }
      outcome := WriteWitnesses(existing, resolved, additions.value, env.stop);
    }

    /**
     * The three durable steps, in order, with a stop after each of the first two. Only the old or the
     * extended file is ever on disk, and wherever the call stops, a later recovery settles on that file.
     */
    method WriteWitnesses(existing: seq<Witness>, resolved: seq<Witness>, additions: seq<Witness>, stop: Stop)
      returns (outcome: Outcome)
      requires file == Some(existing)
      modifies this`file, this`log
      ensures file in {old(file), Some(existing + additions)}
      ensures Recover(old(log), old(file)).Some? ==> Recover(log, file) == Some(Log(file, None))
      ensures outcome.Published? ==> log == Log(file, None) && file == Some(existing + additions)
      ensures var updated := existing + additions;
              match Prepare(old(log), old(file), updated)
              case None => file == old(file) && log == old(log) && outcome == Refused
              case Some(prepared) =>
                if stop == Prepared then file == old(file) && log == prepared && outcome == Interrupted
                else if stop == Written then file == Some(updated) && log == prepared && outcome == Interrupted
                else if !DistinctWitnesses(updated) then file == Some(updated) && log == prepared && outcome == Refused
                else
                  && file == Some(updated) && log == Log(Some(updated), None)
                  && outcome == Published(resolved + additions)
    {
      var updated := existing + additions;
      var prepared := Prepare(log, file, updated);
      if prepared.None? { return Refused; }
      log := prepared.value;
      if stop == Prepared { return Interrupted; }
      file := Some(updated);
      if stop == Written { return Interrupted; }
      if !DistinctWitnesses(file.value) { return Refused; }
      log := Log(Some(updated), None);
      return Published(resolved + additions);
    }

    /** Issues each witness that has no issuance yet, each at its own clock sample. */
    method IssueWitnesses(resolved: seq<Witness>, env: Env) returns (outcome: Outcome)
      requires secret.Some?
      modifies this`issued
      ensures (Now(), outcome) == IssueAll(old(Now()), resolved, env)
    {
      var existing := ReadIssuances(Now());
      if existing.None? { return Refused; }
      var additions: seq<Issuance> := [];
      for i := 0 to |resolved|
        invariant Now() == old(Now())
        invariant NewIssuances(Now(), existing.value, resolved[..i], env, secret.value) == Some(additions)
      {
        assert resolved[..i + 1][..i] == resolved[..i];
        var x := resolved[i];
        var prior := FindIssuance(existing.value, x.key);
        if prior.Some? {
          if prior.value.core.dataset != x.dataset || prior.value.core.evidence != x {
            NoneLater(Now(), existing.value, resolved, env, secret.value, i + 1);
            return Refused;
          }
          continue;
        }
        additions := additions + [Issue(Now(), x, env.samples(|additions|), secret.value)];
      }
      assert resolved[..|resolved|] == resolved;
      if additions != [] { issued := Some(existing.value + additions); }
      return Published(resolved);
    }
  }

  lemma ChainSnoc(existing: seq<Witness>, chain: seq<Record>, i: nat)
    requires i < |chain|
    ensures var found := FindWitness(existing, chain[i].key);
            && Resolved(existing, chain[..i + 1])
              == Resolved(existing, chain[..i]) + (if found.Some? then [found.value] else [])
            && Unwitnessed(existing, chain[..i + 1])
              == Unwitnessed(existing, chain[..i]) + if found.None? then [chain[i]] else []
  {
    assert chain[..i + 1][..i] == chain[..i];
  }

  /** Splits a chain into the witnesses it has and the records that lack one. */
  method SortChain(existing: seq<Witness>, chain: seq<Record>) returns (r: Option<(seq<Witness>, seq<Record>)>)
    ensures r == if !BindingsMatch(existing, chain) then None
                 else Some((Resolved(existing, chain), Unwitnessed(existing, chain)))
  {
    var resolved: seq<Witness> := [];
    var missing: seq<Record> := [];
    for i := 0 to |chain|
      invariant resolved == Resolved(existing, chain[..i]) && missing == Unwitnessed(existing, chain[..i])
      invariant forall k :: 0 <= k < i ==> BindingMatches(existing, chain[k])
    {
      ChainSnoc(existing, chain, i);
      var found := FindWitness(existing, chain[i].key);
      if found.None? {
        missing := missing + [chain[i]];
      } else {
        if found.value.dataset != chain[i].dataset {
          assert !BindingMatches(existing, chain[i]);
          return None;
        }
        resolved := resolved + [found.value];
      }
    }
    assert chain[..|chain|] == chain;
    return Some((resolved, missing));
  }

  /** One witness for each missing record at NOW, which no dataset may postdate. */
  method Observe(missing: seq<Record>, now: Instant) returns (r: Option<seq<Witness>>)
    ensures r == if AllAvailable(missing, now) then Some(Additions(missing, now)) else None
  {
    var additions: seq<Witness> := [];
    for i := 0 to |missing|
      invariant |additions| == i && forall k :: 0 <= k < i ==> additions[k] == Additions(missing, now)[k]
      invariant forall k :: 0 <= k < i ==> missing[k].availableAt <= now
    {
      if now < missing[i].availableAt { return None; }
      additions := additions + [Witness(missing[i].key, missing[i].dataset, now)];
    }
    assert additions == Additions(missing, now);
    return Some(additions);
  }

  /** A binding mismatch found along the way refuses the whole issue. */
  lemma {:induction false} NoneLater(
    w: World, existing: seq<Issuance>, resolved: seq<Witness>, env: Env, secret: Secret, n: nat)
    requires n <= |resolved| && NewIssuances(w, existing, resolved[..n], env, secret).None?
    ensures NewIssuances(w, existing, resolved, env, secret).None?
    decreases |resolved|
  {
    if n == |resolved| {
      assert resolved[..n] == resolved;
    } else {
      assert resolved[..|resolved| - 1][..n] == resolved[..n];
      NoneLater(w, existing, resolved[..|resolved| - 1], env, secret, n);
    }
  }
}
