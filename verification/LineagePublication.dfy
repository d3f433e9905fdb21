/**
 * Causal publication of dataset lineage proofs. Legacy proofs carry no registration time; they count
 * from the authenticated issuance of a re-observation witness, which an append-only log protects.
 */
module LineagePublication {
  import opened Common

  type Id = string
  type Digest = string
  type Secret = string

  /** The identity under which witnesses and issuances are filed. */
  datatype Proof = Proof(snapshot: Id, proof: Digest)

  datatype Record = Record(
    key: Proof, dataset: Digest, parent: Option<Id>, availableAt: Instant, registeredAt: Option<Instant>)

  /** The witness digest is injective in these fields, so the witness stands for its digest. */
  datatype Witness = Witness(key: Proof, dataset: Digest, at: Instant)

  datatype Core = Core(workspace: string, key: Proof, dataset: Digest, evidence: Witness, at: Instant)

  /** The authentication code is injective in the secret and the core. */
  datatype Mac = Mac(secret: Secret, core: Core)

  datatype Issuance = Issuance(core: Core, mac: Mac)

  // ---- The prepare/commit log ----------------------------------------------------------------

  /**
   * The state digest is injective, so states stand for their digests. A prepared transaction always
   * starts from the committed state, which the history validation of the source guarantees.
   */
  datatype Log = Log(committed: Option<seq<Witness>>, pending: Option<seq<Witness>>)

  /** Settles a prepared transaction by what is on disk; anything unproven is refused. */
  function Recover(log: Log, observed: Option<seq<Witness>>): Option<Log> {
    match log.pending
    case None => if observed == log.committed then Some(log) else None
    case Some(intended) =>
      if observed == log.committed then Some(Log(log.committed, None))
      else if observed == Some(intended) then Some(Log(observed, None))
      else None
  }

  function Prepare(log: Log, observed: Option<seq<Witness>>, intended: seq<Witness>): Option<Log> {
    if log.pending.Some? || observed != log.committed then None
    else Some(Log(log.committed, Some(intended)))
  }

  /** The witness file, its log, and the issuer's secret and records. */
  datatype World = World(
    workspace: string, file: Option<seq<Witness>>, log: Log, secret: Option<Secret>, issued: Option<seq<Issuance>>)

  function Pristine(workspace: string): World { World(workspace, None, Log(None, None), None, None) }

  // ---- Reading ---------------------------------------------------------------------------------

  predicate DistinctWitnesses(ws: seq<Witness>) { forall i, j :: 0 <= i < j < |ws| ==> ws[i].key != ws[j].key }

  predicate DistinctIssuances(s: seq<Issuance>) { forall i, j :: 0 <= i < j < |s| ==> s[i].core.key != s[j].core.key }

  predicate Verified(i: Issuance, workspace: string, secret: Secret) {
    i.core.workspace == workspace && i.mac == Mac(secret, i.core)
  }

  predicate ReadableIssuances(workspace: string, secret: Secret, s: seq<Issuance>) {
    DistinctIssuances(s) && forall x :: x in s ==> Verified(x, workspace, secret)
  }

  /** Without secret or file nothing was issued; a forged or repeated record makes the store unreadable. */
  function ReadIssuances(w: World): Option<seq<Issuance>> {
    if w.secret.None? || w.issued.None? then Some([])
    else if ReadableIssuances(w.workspace, w.secret.value, w.issued.value) then w.issued
    else None
  }

  function FindWitness(ws: seq<Witness>, key: Proof): (r: Option<Witness>)
    ensures r.Some? ==> r.value in ws && r.value.key == key
    ensures r.None? ==> forall x :: x in ws ==> x.key != key
  {
    if ws == [] then None else if ws[0].key == key then Some(ws[0]) else FindWitness(ws[1..], key)
  }

  function FindIssuance(s: seq<Issuance>, key: Proof): (r: Option<Issuance>)
    ensures r.Some? ==> r.value in s && r.value.core.key == key
    ensures r.None? ==> forall x :: x in s ==> x.core.key != key
  {
    if s == [] then None else if s[0].core.key == key then Some(s[0]) else FindIssuance(s[1..], key)
  }

  /** When a proof became known: at an instant, not yet, or the evidence is broken. */
  datatype Publication = At(at: Instant) | Missing | Broken

  function IssuedTime(w: World, evidence: Witness): Publication {
    match ReadIssuances(w)
    case None => Broken
    case Some(s) =>
      match FindIssuance(s, evidence.key)
      case None => Missing
      case Some(i) =>
        if i.core.dataset == evidence.dataset && i.core.evidence == evidence then At(i.core.at) else Broken
  }

  function WitnessedTime(w: World, r: Record): Publication {
    if w.file.None? then (if Recover(w.log, None).Some? then Missing else Broken)
    else if !DistinctWitnesses(w.file.value) || Recover(w.log, w.file).None? then Broken
    else
      match FindWitness(w.file.value, r.key)
      case None => Missing
      case Some(x) => if x.dataset == r.dataset then IssuedTime(w, x) else Broken
  }

  function PublishedAt(w: World, r: Record): Publication {
    if r.registeredAt.Some? then At(r.registeredAt.value) else WitnessedTime(w, r)
  }

  // ---- The ancestry walk ---------------------------------------------------------------------------

  function IndexOf(records: seq<Record>, id: Id): (r: Option<nat>)
    ensures r.Some? ==> r.value < |records| && records[r.value].key.snapshot == id
    ensures r.None? ==> forall i :: 0 <= i < |records| ==> records[i].key.snapshot != id
  {
    if records == [] then None
    else if records[|records| - 1].key.snapshot == id then Some(|records| - 1)
    else IndexOf(records[..|records| - 1], id)
  }

  /** Snapshot ids are unique and every parent was registered before its child. */
  predicate Sound(records: seq<Record>) {
    && (forall i, j :: 0 <= i < j < |records| ==> records[i].key.snapshot != records[j].key.snapshot)
    && forall i :: 0 <= i < |records| && records[i].parent.Some? ==>
         exists p :: 0 <= p < i && records[p].key.snapshot == records[i].parent.value
  }

  lemma IndexUnique(records: seq<Record>, i: nat)
    requires Sound(records) && i < |records|
    ensures IndexOf(records, records[i].key.snapshot) == Some(i)
  {
  }

  function ParentOf(records: seq<Record>, i: nat): (p: Option<nat>)
    requires Sound(records) && i < |records|
    ensures p.Some? ==> p.value < i && records[i].parent == Some(records[p.value].key.snapshot)
    ensures p.None? <==> records[i].parent.None?
  {
    if records[i].parent.None? then None
    else
      var k: nat :| k < i && records[k].key.snapshot == records[i].parent.value;
      IndexUnique(records, k);
      IndexOf(records, records[i].parent.value)
  }

  datatype Verdict = Accept | Unproven | Failed

  /** The walk from record `i` up to record `a`: every record on the way must have been known by the boundary. */
  function Walk(records: seq<Record>, w: World, i: nat, a: nat, boundary: Instant): Verdict
    requires Sound(records) && i < |records|
  {
    match PublishedAt(w, records[i])
    case Broken => Failed
    case Missing => Unproven
    case At(t) =>
      if t > boundary then Unproven
      else if i == a then Accept
      else if ParentOf(records, i).None? then Unproven
      else Walk(records, w, ParentOf(records, i).value, a, boundary)
  }

  function RequireDescendant(records: seq<Record>, w: World, descendant: Id, ancestor: Id, boundary: Instant): Verdict
    requires Sound(records)
  {
    var d, a := IndexOf(records, descendant), IndexOf(records, ancestor);
    if d.None? || a.None? then Unproven else Walk(records, w, d.value, a.value, boundary)
  }

  /** What a walk sees of one record at a boundary; nothing when the evidence is broken. */
  function Shows(w: World, r: Record, boundary: Instant): Option<bool> {
    match PublishedAt(w, r)
    case Broken => None
    case Missing => Some(false)
    case At(t) => Some(t <= boundary)
  }

  lemma {:induction false} WalkDepends(records: seq<Record>, v: World, w: World, i: nat, a: nat, boundary: Instant)
    requires Sound(records) && i < |records|
    requires forall k :: 0 <= k < |records| ==> Shows(v, records[k], boundary) == Shows(w, records[k], boundary)
    ensures Walk(records, v, i, a, boundary) == Walk(records, w, i, a, boundary)
  {
    assert Shows(v, records[i], boundary) == Shows(w, records[i], boundary);
    if ParentOf(records, i).Some? { WalkDepends(records, v, w, ParentOf(records, i).value, a, boundary); }
  }

  /** Record `a` is `i` itself or one of its ancestors. */
  predicate Above(records: seq<Record>, i: nat, a: nat)
    requires Sound(records) && i < |records|
  {
    i == a || (ParentOf(records, i).Some? && Above(records, ParentOf(records, i).value, a))
  }

  predicate KnownUpTo(records: seq<Record>, w: World, i: nat, a: nat, boundary: Instant)
    requires Sound(records) && i < |records|
  {
    && Shows(w, records[i], boundary) == Some(true)
    && (i != a && ParentOf(records, i).Some? ==> KnownUpTo(records, w, ParentOf(records, i).value, a, boundary))
  }

  /** Acceptance means a real ancestor, with every proof on the way known by the boundary. */
  lemma {:induction false} AcceptedExactly(records: seq<Record>, w: World, i: nat, a: nat, boundary: Instant)
    requires Sound(records) && i < |records|
    ensures Walk(records, w, i, a, boundary) == Accept <==>
            Above(records, i, a) && KnownUpTo(records, w, i, a, boundary)
  {
    if i != a && ParentOf(records, i).Some? {
      AcceptedExactly(records, w, ParentOf(records, i).value, a, boundary);
    }
  }

  /** Acceptance composes and decomposes: `d` to `b` through `a` is `d` to `a` and `a` to `b`. */
  lemma {:induction false} AcceptanceComposes(
    records: seq<Record>, w: World, d: nat, a: nat, b: nat, boundary: Instant)
    requires Sound(records) && d < |records| && a < |records| && Above(records, d, a) && Above(records, a, b)
    ensures Walk(records, w, d, b, boundary) == Accept <==>
            Walk(records, w, d, a, boundary) == Accept && Walk(records, w, a, b, boundary) == Accept
  {
    if d != a {
      var p := ParentOf(records, d).value;
      AboveIsOlder(records, p, a);
      AboveIsOlder(records, a, b);
      AcceptanceComposes(records, w, p, a, b, boundary);
    } else {
      AcceptedExactly(records, w, a, b, boundary);
    }
  }

  lemma {:induction false} AboveIsOlder(records: seq<Record>, i: nat, a: nat)
    requires Sound(records) && i < |records| && Above(records, i, a)
    ensures a <= i
  {
    if i != a { AboveIsOlder(records, ParentOf(records, i).value, a); }
  }

  /** Once known, always known: a later boundary accepts everything an earlier one did. */
  lemma {:induction false} LaterAcceptsMore(
    records: seq<Record>, w: World, i: nat, a: nat, early: Instant, late: Instant)
    requires Sound(records) && i < |records| && early <= late
    requires Walk(records, w, i, a, early) == Accept
    ensures Walk(records, w, i, a, late) == Accept
  {
    if i != a { LaterAcceptsMore(records, w, ParentOf(records, i).value, a, early, late); }
  }

  // ---- Deleting issuances ------------------------------------------------------------------------------

  /** Some record between `i` and `a` needs the publication store. */
  predicate Consults(records: seq<Record>, i: nat, a: nat)
    requires Sound(records) && i < |records|
  {
    || records[i].registeredAt.None?
    || (i != a && ParentOf(records, i).Some? && Consults(records, ParentOf(records, i).value, a))
  }

  lemma FoundInMore(less: seq<Issuance>, more: seq<Issuance>, key: Proof)
    requires DistinctIssuances(more) && forall x :: x in less ==> x in more
    ensures FindIssuance(less, key).Some? ==> FindIssuance(more, key) == FindIssuance(less, key)
  {
    if FindIssuance(less, key).Some? {
      var x, y := FindIssuance(less, key).value, FindIssuance(more, key);
      assert x in more && y.Some?;
      var i :| 0 <= i < |more| && more[i] == x;
      var j :| 0 <= j < |more| && more[j] == y.value;
    }
  }

  /**
   * Deleting issuance records can only turn acceptance into rejection, exactly as far as the store was
   * readable: what the thinned store accepts, the full one accepts too unless it cannot be read.
   */
  lemma {:induction false} DeletionOnlyRejects(
    records: seq<Record>, w: World, less: seq<Issuance>, i: nat, a: nat, boundary: Instant)
    requires Sound(records) && i < |records|
    requires w.secret.Some? && w.issued.Some? && forall x :: x in less ==> x in w.issued.value
    requires Walk(records, w.(issued := Some(less)), i, a, boundary) == Accept
    ensures Walk(records, w, i, a, boundary) == Accept <==>
            !Consults(records, i, a) || ReadableIssuances(w.workspace, w.secret.value, w.issued.value)
  {
    var thin := w.(issued := Some(less));
    if records[i].registeredAt.None? {
      var x := FindWitness(w.file.value, records[i].key).value;
      if ReadableIssuances(w.workspace, w.secret.value, w.issued.value) {
        FoundInMore(less, w.issued.value, x.key);
        assert PublishedAt(w, records[i]) == PublishedAt(thin, records[i]);
      }
    }
    if i != a { DeletionOnlyRejects(records, w, less, ParentOf(records, i).value, a, boundary); }
  }

  /** A store with a repeated record rejects; deleting the repetition makes it accept. */
  lemma DeletionMayRepair(r: Record, at: Instant, secret: Secret) returns (w: World, less: seq<Issuance>)
    requires r.registeredAt.None? && r.parent.None?
    ensures w.issued.Some? && forall x :: x in less ==> x in w.issued.value
    ensures Walk([r], w, 0, 0, at) == Failed
    ensures Walk([r], w.(issued := Some(less)), 0, 0, at) == Accept
  {
    var x := Witness(r.key, r.dataset, at);
    var core := Core("w", r.key, r.dataset, x, at);
    var i := Issuance(core, Mac(secret, core));
    w := World("w", Some([x]), Log(Some([x]), None), Some(secret), Some([i, i]));
    less := [i];
    assert !DistinctIssuances([i, i]) by { assert [i, i][0] == [i, i][1]; }
    assert FindWitness([x], r.key) == Some(x);
    assert FindIssuance(less, r.key) == Some(i);
  }

  // ---- Rollback of the witness file ------------------------------------------------------------------

  /** Whatever is put in place of the witness file, only a logged state can lead to acceptance. */
  lemma {:induction false} OnlyLoggedStatesCount(
    records: seq<Record>, w: World, file: Option<seq<Witness>>, i: nat, a: nat, boundary: Instant)
    requires Sound(records) && i < |records|
    requires Walk(records, w.(file := file), i, a, boundary) == Accept && Consults(records, i, a)
    ensures file.Some?
    ensures file == w.log.committed || file == w.log.pending
  {
    if records[i].registeredAt.Some? {
      OnlyLoggedStatesCount(records, w, file, ParentOf(records, i).value, a, boundary);
    }
  }
}
