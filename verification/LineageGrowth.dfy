/** Publishing while new lineage records are registered: the past of the growing store stays as it was. */
module LineageGrowth {
  import opened Common
  import opened LineagePublication
  import opened LineageHistory

  // ---- Registering a record ---------------------------------------------------------------------------

  /** A new record has its own id, a registered parent and a registration time that is not before either. */
  predicate Registrable(records: seq<Record>, r: Record) {
    && r.registeredAt.Some? && r.availableAt <= r.registeredAt.value && IndexOf(records, r.key.snapshot).None?
    && (r.parent.Some? ==>
          && IndexOf(records, r.parent.value).Some?
          && var parent := records[IndexOf(records, r.parent.value).value];
             parent.registeredAt.Some? ==> parent.registeredAt.value <= r.registeredAt.value)
  }

  function Register(records: seq<Record>, r: Record): seq<Record> {
    if Registrable(records, r) then records + [r] else records
  }

  lemma RegisterSound(records: seq<Record>, r: Record)
    requires Sound(records)
    ensures Sound(Register(records, r)) && records <= Register(records, r)
  {
    if Registrable(records, r) {
      var more := records + [r];
      assert forall i :: 0 <= i < |records| ==> more[i] == records[i];
      forall i | 0 <= i < |more| && more[i].parent.Some?
        ensures exists p :: 0 <= p < i && more[p].key.snapshot == more[i].parent.value
      {
        if i < |records| {
          var p :| 0 <= p < i && records[p].key.snapshot == records[i].parent.value;
          assert more[p].key.snapshot == more[i].parent.value;
        } else {
          assert more[IndexOf(records, r.parent.value).value].key.snapshot == more[i].parent.value;
        }
      }
    }
  }

  lemma IndexAfter(records: seq<Record>, r: Record, id: Id)
    ensures IndexOf(records + [r], id) == if r.key.snapshot == id then Some(|records|) else IndexOf(records, id)
  {
    assert (records + [r])[..|records|] == records;
  }

  lemma ParentAfter(records: seq<Record>, r: Record, i: nat)
    requires Sound(records) && Sound(records + [r]) && i < |records|
    ensures ParentOf(records + [r], i) == ParentOf(records, i)
  {
    var more := records + [r];
    assert more[i] == records[i];
    if records[i].parent.Some? {
      var p, q := ParentOf(records, i).value, ParentOf(more, i).value;
      assert more[p] == records[p] && more[p].key.snapshot == more[q].key.snapshot;
    }
  }

  lemma {:induction false} WalkAfter(records: seq<Record>, r: Record, w: World, i: nat, a: nat, boundary: Instant)
    requires Sound(records) && Sound(records + [r]) && i < |records|
    ensures Walk(records + [r], w, i, a, boundary) == Walk(records, w, i, a, boundary)
    decreases i
  {
    ParentAfter(records, r, i);
    assert (records + [r])[i] == records[i];
    if ParentOf(records, i).Some? { WalkAfter(records, r, w, ParentOf(records, i).value, a, boundary); }
  }

  /** In a sound world no evidence is broken, so a walk that starts below its goal ends unproven. */
  lemma {:induction false} WalkMisses(records: seq<Record>, w: World, i: nat, a: nat, boundary: Instant)
    requires Sound(records) && Inv(records, w) && i < |records| && i < a
    ensures Walk(records, w, i, a, boundary) == Unproven
    decreases i
  {
    if records[i].registeredAt.None? { KnownFromIssuance(records, w, i); }
    if ParentOf(records, i).Some? { WalkMisses(records, w, ParentOf(records, i).value, a, boundary); }
  }

  /** Registering changes no answer for a boundary before the registration. */
  lemma RegisterKeepsPast(records: seq<Record>, w: World, r: Record, descendant: Id, ancestor: Id, boundary: Instant)
    requires Sound(records) && Inv(records, w) && Registrable(records, r) && boundary < r.registeredAt.value
    ensures Sound(records + [r])
    ensures RequireDescendant(records + [r], w, descendant, ancestor, boundary)
            == RequireDescendant(records, w, descendant, ancestor, boundary)
  {
    RegisterSound(records, r);
    IndexAfter(records, r, descendant);
    IndexAfter(records, r, ancestor);
    var d, a := IndexOf(records, descendant), IndexOf(records, ancestor);
    if descendant == r.key.snapshot {
      assert (records + [r])[|records|] == r && PublishedAt(w, r) == At(r.registeredAt.value);
    } else if d.Some? && ancestor == r.key.snapshot {
      WalkAfter(records, r, w, d.value, |records|, boundary);
      WalkMisses(records, w, d.value, |records|, boundary);
    } else if d.Some? && a.Some? {
      WalkAfter(records, r, w, d.value, a.value, boundary);
    }
  }

  // ---- The stronger invariant ------------------------------------------------------------------------------

  predicate KnownKey(records: seq<Record>, key: Proof) { exists k :: 0 <= k < |records| && records[k].key == key }

  /** Every witness on file is of a registered record, so a new record has none. */
  predicate WitnessesKnown(records: seq<Record>, w: World) {
    w.file.Some? ==> forall x :: x in w.file.value ==> KnownKey(records, x.key)
  }

  predicate GrowthInv(records: seq<Record>, w: World) {
    Sound(records) && Inv(records, w) && WitnessesKnown(records, w)
  }

  lemma RegisterKeeps(records: seq<Record>, w: World, r: Record)
    requires GrowthInv(records, w)
    ensures GrowthInv(Register(records, r), w)
  {
    if Registrable(records, r) {
      RegisterSound(records, r);
      var more := records + [r];
      if w.file.Some? {
        forall x | x in w.file.value ensures KnownKey(more, x.key) && x.key.snapshot != r.key.snapshot {
          var k :| 0 <= k < |records| && records[k].key == x.key;
          assert more[k].key == x.key;
        }
        assert DatasetsMatch(more, w.file.value);
      }
    }
  }

  /** A publish writes witnesses of registered records only. */
  lemma PublishKnown(records: seq<Record>, w: World, i: nat, env: Env)
    requires GrowthInv(records, w) && i < |records|
    ensures WitnessesKnown(records, PublishStep(records, w, i, env).0)
  {
    var chain := LegacyChain(records, i);
    var booted := Boot(w, env.stop).0;
    if chain != [] && Boot(w, env.stop).1 && Recover(booted.log, booted.file).Some? {
      var ready := booted.(log := Recover(booted.log, booted.file).value,
                           secret := if booted.secret.Some? then booted.secret else Some(env.newSecret));
      ChainKnown(records, ready, chain, env);
      var witnessed := WitnessChain(ready, chain, env).0;
      assert PublishStep(records, w, i, env).0.file in {booted.file, witnessed.file};
    }
  }

  lemma ChainKnown(records: seq<Record>, w: World, chain: seq<Record>, env: Env)
    requires WitnessesKnown(records, w) && w.file.Some? && forall x :: x in chain ==> x in records
    ensures WitnessesKnown(records, WitnessChain(w, chain, env).0)
  {
    var missing := Unwitnessed(w.file.value, chain);
    ChainMembers(w.file.value, chain);
    var more := Additions(missing, env.now);
    forall x | x in more ensures KnownKey(records, x.key) {
      var j :| 0 <= j < |more| && more[j] == x;
      assert missing[j] in missing && missing[j] in records;
    }
    forall x | x in w.file.value + more ensures KnownKey(records, x.key) {}
  }

  // ---- Runs ------------------------------------------------------------------------------------------------

  datatype Op = Publish(id: Id, env: Env) | Add(r: Record)

  datatype Store = Store(records: seq<Record>, world: World)

  function Apply(s: Store, op: Op): Store
    requires Sound(s.records)
  {
    match op
    case Add(r) => s.(records := Register(s.records, r))
    case Publish(id, env) =>
      if IndexOf(s.records, id).None? then s
      else s.(world := PublishStep(s.records, s.world, IndexOf(s.records, id).value, env).0)
  }

  /** The clock readings that a step takes, for an issuance or for a registration, are after the boundary. */
  ghost predicate ReadsAfter(s: Store, op: Op, boundary: Instant)
    requires Sound(s.records)
  {
    match op
    case Add(r) => Registrable(s.records, r) ==> boundary < r.registeredAt.value
    case Publish(_, env) => forall t :: Consumes(s.world, Apply(s, op).world, env, t) ==> boundary < t
  }

  lemma ApplySound(s: Store, op: Op)
    requires GrowthInv(s.records, s.world)
    ensures GrowthInv(Apply(s, op).records, Apply(s, op).world)
  {
    match op
    case Add(r) => RegisterKeeps(s.records, s.world, r);
    case Publish(id, env) =>
      if IndexOf(s.records, id).Some? {
        PublishKeeps(s.records, s.world, IndexOf(s.records, id).value, env);
        PublishKnown(s.records, s.world, IndexOf(s.records, id).value, env);
      }
  }

  lemma ApplyKeepsPast(s: Store, op: Op, descendant: Id, ancestor: Id, boundary: Instant)
    requires GrowthInv(s.records, s.world) && ReadsAfter(s, op, boundary)
    ensures Sound(Apply(s, op).records)
    ensures RequireDescendant(Apply(s, op).records, Apply(s, op).world, descendant, ancestor, boundary)
            == RequireDescendant(s.records, s.world, descendant, ancestor, boundary)
  {
    ApplySound(s, op);
    match op
    case Add(r) =>
      if Registrable(s.records, r) { RegisterKeepsPast(s.records, s.world, r, descendant, ancestor, boundary); }
    case Publish(id, env) =>
      if IndexOf(s.records, id).Some? {
        var i := IndexOf(s.records, id).value;
        PublishKeepsPast(s.records, s.world, i, env, descendant, ancestor, boundary);
      }
  }

  ghost predicate RunsAfter(s: Store, ops: seq<Op>, boundary: Instant)
    requires GrowthInv(s.records, s.world)
    decreases |ops|
  {
    if ops == [] then true
    else
      ApplySound(s, ops[0]);
      ReadsAfter(s, ops[0], boundary) && RunsAfter(Apply(s, ops[0]), ops[1..], boundary)
  }

  function Run(s: Store, ops: seq<Op>): Store
    requires GrowthInv(s.records, s.world)
    decreases |ops|
  {
    if ops == [] then s
    else
      ApplySound(s, ops[0]);
      Run(Apply(s, ops[0]), ops[1..])
  }

  /**
   * Over every run of publishes, stops and registrations, an answer for a boundary before all clock
   * readings of the run is what it was, also for snapshots that were only registered during the run.
   */
  lemma {:induction false} GrowingPastNeverChanges(
    s: Store, ops: seq<Op>, descendant: Id, ancestor: Id, boundary: Instant)
    requires GrowthInv(s.records, s.world) && RunsAfter(s, ops, boundary)
    ensures var t := Run(s, ops);
            && GrowthInv(t.records, t.world)
            && RequireDescendant(t.records, t.world, descendant, ancestor, boundary)
               == RequireDescendant(s.records, s.world, descendant, ancestor, boundary)
    decreases |ops|
  {
    if ops == [] {
    } else {
      ApplySound(s, ops[0]);
      ApplyKeepsPast(s, ops[0], descendant, ancestor, boundary);
      GrowingPastNeverChanges(Apply(s, ops[0]), ops[1..], descendant, ancestor, boundary);
    }
  }

  lemma PristineGrows(workspace: string)
    ensures GrowthInv([], Pristine(workspace))
  {
    PristineIsSound([], workspace);
  }
}
