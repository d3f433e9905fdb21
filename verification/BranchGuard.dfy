/**
 * The branch lease guard: movement of one source branch is accepted only when a complete chain of
 * commits from the prior to the current head was written by the single live source owner.
 */
module BranchGuard {
  import opened Common
  import opened ClaimLedger
  import opened ClaimResolution
  import opened ClaimFacade

  /** A JSON value read as text: present as stripped text, or something else. */
  datatype Json = Str(text: Text) | NotText

  predicate Blank(j: Json) { j.NotText? || j.text == BLANK }

  /** A JSON list slot of the claim export. */
  datatype Slot<T> = Missing | Null | NotList | List(items: seq<T>)

  datatype OwnerItem = NotObject | OwnerItem(key: Json, mode: Json, run: Json, lease: Json)

  /** The export of the claim resolver, with the spellings that the guard falls back on. */
  datatype ClaimExport = ClaimExport(
    ambiguityLists: seq<Slot<bool>>, admittedRuns: Slot<OwnerItem>, admittedAlias: Slot<OwnerItem>,
    liveRuns: Slot<OwnerItem>)

  datatype MutationItem = NotAnObject | Mutation(head: Json, run: Json, parents: Slot<Json>)

  datatype Movement = Movement(
    key: Json, branch: Json, priorHead: Json, currentHead: Json, mutations: Slot<MutationItem>)

  datatype Status = OK | Collision | AmbiguousState | NoLiveOwner

  datatype Verdict = Verdict(status: Status, writers: seq<Text>)

  datatype InputError = MissingText | KeyMismatch

  datatype Owner = Owner(run: Text, lease: Text)

  // ---- Claim evidence -----------------------------------------------------------------------

  predicate Suspicious<T>(s: Slot<T>) {
    match s case Missing => false case List(items) => items != [] case _ => true
  }

  predicate AmbiguousEvidence(c: ClaimExport) {
    exists i :: 0 <= i < |c.ambiguityLists| && Suspicious(c.ambiguityLists[i])
  }

  predicate Absent<T>(s: Slot<T>) { s.Missing? || s.Null? }

  /** The list that holds the admitted owners: `admitted_runs`, else `admitted`, else `live_runs`. */
  function OwnerSlot(c: ClaimExport): Slot<OwnerItem> {
    if !Absent(c.admittedRuns) then c.admittedRuns
    else if !Absent(c.admittedAlias) then c.admittedAlias
    else c.liveRuns
  }

  /** `None` stands for a value that is not a list of objects. */
  function Records(s: Slot<OwnerItem>): Option<seq<OwnerItem>> {
    match s
    case NotList => None
    case List(items) => if NotObject in items then None else Some(items)
    case _ => Some([])
  }

  predicate SourceItem(item: OwnerItem, key: Text) {
    item.OwnerItem? && item.key == Str(key) && item.mode == Str(SOURCE_MUTATION)
  }

  predicate Broken(item: OwnerItem) {
    item.OwnerItem? && (Blank(item.run) || Blank(item.lease) || ParseInstant(item.lease.text).None?)
  }

  predicate Unexpired(item: OwnerItem, now: Instant) {
    item.OwnerItem? && !Broken(item) && now < ParseInstant(item.lease.text).value
  }

  function Owners(items: seq<OwnerItem>, key: Text, now: Instant): seq<Owner> {
    if items == [] then []
    else
      var last := items[|items| - 1];
      Owners(items[..|items| - 1], key, now)
      + if SourceItem(last, key) && Unexpired(last, now) then [Owner(last.run.text, last.lease.text)] else []
  }

  /** The live owners of a key, or nothing when the evidence is invalid. */
  function LiveOwners(c: ClaimExport, key: Text, now: Instant): Option<seq<Owner>> {
    var records := Records(OwnerSlot(c));
    if records.None?
       || exists i :: 0 <= i < |records.value| && SourceItem(records.value[i], key) && Broken(records.value[i])
    then None
    else Some(Owners(records.value, key, now))
  }

  method AdmittedSourceOwners(c: ClaimExport, key: Text, now: Instant) returns (r: Option<seq<Owner>>)
    ensures r == LiveOwners(c, key, now)
  {
    var raw := c.admittedRuns;
    if Absent(raw) { raw := c.admittedAlias; }
    if Absent(raw) { raw := c.liveRuns; }
    var records := Records(raw);
    if records.None? { return None; }
    var items := records.value;
    var owners: seq<Owner> := [];
    for i := 0 to |items|
      invariant owners == Owners(items[..i], key, now)
      invariant forall k :: 0 <= k < i ==> !(SourceItem(items[k], key) && Broken(items[k]))
    {
      assert items[..i + 1][..i] == items[..i];
      var item := items[i];
      if !SourceItem(item, key) { continue; }
      if Blank(item.run) || Blank(item.lease) { return None; }
      var lease := ParseInstant(item.lease.text);
      if lease.None? { return None; }
      if lease.value <= now { continue; }
      owners := owners + [Owner(item.run.text, item.lease.text)];
    }
    assert items[..|items|] == items;
    return Some(owners);
  }

  // ---- Commit evidence ------------------------------------------------------------------------

  /** One commit: a head, its writer, and distinct parents among which it is not itself. */
  predicate SoundCommit(m: MutationItem) {
    && m.Mutation? && !Blank(m.head) && !Blank(m.run)
    && m.parents.List? && m.parents.items != []
    && (forall i :: 0 <= i < |m.parents.items| ==> !Blank(m.parents.items[i]))
    && (forall i, j :: 0 <= i < j < |m.parents.items| ==> m.parents.items[i].text != m.parents.items[j].text)
    && m.head !in m.parents.items
  }

  predicate FreshHead(ms: seq<MutationItem>, i: nat)
    requires i < |ms|
  {
    ms[i].Mutation? && forall k :: 0 <= k < i && ms[k].Mutation? ==> ms[k].head != ms[i].head
  }

  /** Commit `i` is sound, has a head not seen before, and names its predecessor as a parent. */
  predicate Continues(prior: Text, ms: seq<MutationItem>, i: nat)
    requires i < |ms|
  {
    && SoundCommit(ms[i]) && FreshHead(ms, i)
    && if i == 0 then Str(prior) in ms[0].parents.items
       else ms[i - 1].Mutation? && ms[i - 1].head in ms[i].parents.items
  }

  predicate Linked(prior: Text, ms: seq<MutationItem>, n: nat)
    requires n <= |ms|
  {
    (forall i :: 0 <= i < n ==> SoundCommit(ms[i])) && (forall i :: 0 <= i < n ==> Continues(prior, ms, i))
  }

  /** A parent-linked path of at least one commit from the prior head to the current one. */
  predicate Chain(prior: Text, current: Text, ms: seq<MutationItem>) {
    ms != [] && Linked(prior, ms, |ms|) && ms[|ms| - 1].head == Str(current)
  }

  /** How far the commits are linked: up to the first that does not continue its predecessor. */
  function LinkedLength(prior: Text, ms: seq<MutationItem>, n: nat): (r: nat)
    requires n <= |ms| && Linked(prior, ms, n)
    ensures n <= r <= |ms| && Linked(prior, ms, r) && (r < |ms| ==> !Continues(prior, ms, r))
    decreases |ms| - n
  {
    if n < |ms| && Continues(prior, ms, n) then LinkedLength(prior, ms, n + 1) else n
  }

  lemma LinkedLengthIs(prior: Text, ms: seq<MutationItem>, n: nat)
    requires n <= |ms| && Linked(prior, ms, n) && (n < |ms| ==> !Continues(prior, ms, n))
    ensures LinkedLength(prior, ms, 0) == n
  {
    var r := LinkedLength(prior, ms, 0);
    assert forall i :: 0 <= i < n ==> Continues(prior, ms, i);
  }

  /** The writers that the walk reports: those of the linked commits, even when the walk then fails. */
  function SeenWriters(prior: Text, ms: seq<MutationItem>): seq<Text> {
    Writers(ms[..LinkedLength(prior, ms, 0)])
  }

  function Writers(ms: seq<MutationItem>): seq<Text>
    requires forall i :: 0 <= i < |ms| ==> SoundCommit(ms[i])
  {
    seq(|ms|, i requires 0 <= i < |ms| && SoundCommit(ms[i]) => ms[i].run.text)
  }

  /** Everything but the head check of one commit, in the order in which the loop looks. */
  method CheckCommit(m: MutationItem, expectedParent: Text) returns (ok: bool)
    requires m.Mutation? && !Blank(m.head)
    ensures ok <==> SoundCommit(m) && Str(expectedParent) in m.parents.items
  {
    if !m.parents.List? || m.parents.items == [] { return false; }
    var parents := m.parents.items;
    var normalized: seq<Text> := [];
    for i := 0 to |parents|
      invariant |normalized| == i
      invariant forall k :: 0 <= k < i ==> parents[k] == Str(normalized[k]) && !Blank(parents[k])
      invariant forall j, k :: 0 <= j < k < i ==> normalized[j] != normalized[k]
    {
      if Blank(parents[i]) { return false; }
      if parents[i].text in normalized {
        var k :| 0 <= k < i && normalized[k] == parents[i].text;
        assert parents[k].text == parents[i].text;
        return false;
      }
      normalized := normalized + [parents[i].text];
    }
    assert forall t :: t in normalized <==> Str(t) in parents by { SameMembers(parents, normalized); }
    if m.head.text in normalized { return false; }
    if expectedParent !in normalized { return false; }
    return !Blank(m.run);
  }

  lemma SameMembers(parents: seq<Json>, normalized: seq<Text>)
    requires |parents| == |normalized| && forall k :: 0 <= k < |parents| ==> parents[k] == Str(normalized[k])
    ensures forall t :: t in normalized <==> Str(t) in parents
  {
    forall t | t in normalized ensures Str(t) in parents {
      var k :| 0 <= k < |normalized| && normalized[k] == t;
      assert parents[k] == Str(t);
    }
    forall t | Str(t) in parents ensures t in normalized {
      var k :| 0 <= k < |parents| && parents[k] == Str(t);
      assert normalized[k] == t;
    }
  }

  /** Walks the commits; the writers seen so far are reported even when the walk fails. */
  method WalkMutations(prior: Text, current: Text, ms: seq<MutationItem>) returns (ok: bool, writers: seq<Text>)
    requires ms != []
    ensures ok <==> Chain(prior, current, ms)
    ensures writers == SeenWriters(prior, ms) && (ok ==> writers == Writers(ms))
  {
    writers := [];
    var seenHeads: seq<Text> := [];
    var expectedParent := prior;
    for i := 0 to |ms|
      invariant Linked(prior, ms, i)
      invariant if i == 0 then expectedParent == prior else ms[i - 1].Mutation? && ms[i - 1].head == Str(expectedParent)
      invariant |writers| == i && |seenHeads| == i
      invariant forall k :: 0 <= k < i ==> ms[k].Mutation? && ms[k].head == Str(seenHeads[k])
      invariant forall k :: 0 <= k < i ==> ms[k].run == Str(writers[k])
    {
      if !ms[i].Mutation? || Blank(ms[i].head) {
        assert !Continues(prior, ms, i);
        WritersAre(prior, ms, i, writers);
        return false, writers;
      }
      if ms[i].head.text in seenHeads {
        assert !FreshHead(ms, i);
        assert !Continues(prior, ms, i);
        WritersAre(prior, ms, i, writers);
        return false, writers;
      }
      assert FreshHead(ms, i);
      seenHeads := seenHeads + [ms[i].head.text];
      var sound := CheckCommit(ms[i], expectedParent);
      assert sound <==> Continues(prior, ms, i);
      if !sound {
        WritersAre(prior, ms, i, writers);
        return false, writers;
      }
      writers := writers + [ms[i].run.text];
      expectedParent := ms[i].head.text;
    }
    WritersAre(prior, ms, |ms|, writers);
    assert ms[..|ms|] == ms;
    ok := expectedParent == current;
  }

  lemma WritersAre(prior: Text, ms: seq<MutationItem>, n: nat, writers: seq<Text>)
    requires n <= |ms| && Linked(prior, ms, n) && (n < |ms| ==> !Continues(prior, ms, n))
    requires |writers| == n && forall k :: 0 <= k < n ==> ms[k].Mutation? && ms[k].run == Str(writers[k])
    ensures writers == SeenWriters(prior, ms) == Writers(ms[..n])
  {
    LinkedLengthIs(prior, ms, n);
    assert forall k :: 0 <= k < n ==> Writers(ms[..n])[k] == writers[k];
  }

  // ---- The guard --------------------------------------------------------------------------------

  predicate InputsSound(m: Movement, keyArgument: Option<Text>) {
    && !Blank(m.key) && !Blank(m.branch) && !Blank(m.priorHead) && !Blank(m.currentHead)
    && (keyArgument.Some? ==> keyArgument.value == m.key.text)
  }

  predicate Moved(m: Movement) { m.priorHead != m.currentHead }

  /** The whole movement is attributed, commit by commit. */
  predicate Attributed(m: Movement)
    requires m.priorHead.Str? && m.currentHead.Str?
  {
    m.mutations.List? && NotAnObject !in m.mutations.items
    && Chain(m.priorHead.text, m.currentHead.text, m.mutations.items)
  }

  /** The status in the order of precedence of the source. */
  function StatusOf(c: ClaimExport, m: Movement, now: Instant): Status
    requires InputsSound(m, None)
  {
    var owners := LiveOwners(c, m.key.text, now);
    if AmbiguousEvidence(c) || owners.None? || |owners.value| > 1 then AmbiguousState
    else if |owners.value| == 0 then NoLiveOwner
    else if !Moved(m) then OK
    else if !Attributed(m) then AmbiguousState
    else if forall w :: w in Writers(m.mutations.items) ==> w == owners.value[0].run then OK
    else Collision
  }

  /** The writers of a verdict: none before the commits are looked at, then those of the linked ones. */
  function WritersOf(c: ClaimExport, m: Movement, now: Instant): seq<Text>
    requires InputsSound(m, None)
  {
    var owners := LiveOwners(c, m.key.text, now);
    if AmbiguousEvidence(c) || owners.None? || |owners.value| != 1 || !Moved(m) then []
    else if !m.mutations.List? || NotAnObject in m.mutations.items then []
    else SeenWriters(m.priorHead.text, m.mutations.items)
  }

  method EvaluateGuard(c: ClaimExport, m: Movement, now: Instant, keyArgument: Option<Text>)
    returns (r: Result<Verdict, InputError>)
    ensures r.Ok? <==> InputsSound(m, keyArgument)
    ensures r == Err(KeyMismatch) <==>
            !Blank(m.key) && keyArgument.Some? && keyArgument.value != m.key.text
    ensures r.Ok? ==> r.value.status == StatusOf(c, m, now) && r.value.writers == WritersOf(c, m, now)
    ensures r.Ok? && r.value.status in {OK, Collision} && Moved(m) ==> r.value.writers == Writers(m.mutations.items)
  {
    if Blank(m.key) { return Err(MissingText); }
    if keyArgument.Some? && keyArgument.value != m.key.text { return Err(KeyMismatch); }
    if Blank(m.branch) || Blank(m.priorHead) || Blank(m.currentHead) { return Err(MissingText); }
    var ambiguous := AnySuspicious(c.ambiguityLists);
    if ambiguous { return Ok(Verdict(AmbiguousState, [])); }
    var owners := AdmittedSourceOwners(c, m.key.text, now);
    if owners.None? || |owners.value| > 1 { return Ok(Verdict(AmbiguousState, [])); }
    if owners.value == [] { return Ok(Verdict(NoLiveOwner, [])); }
    if !Moved(m) { return Ok(Verdict(OK, [])); }
    if !m.mutations.List? || NotAnObject in m.mutations.items || m.mutations.items == [] {
      return Ok(Verdict(AmbiguousState, []));
    }
    var linked, writers := WalkMutations(m.priorHead.text, m.currentHead.text, m.mutations.items);
    if !linked { return Ok(Verdict(AmbiguousState, writers)); }
    var foreign := AnyForeign(writers, owners.value[0].run);
    return Ok(Verdict(if foreign then Collision else OK, writers));
  }

  method AnySuspicious(slots: seq<Slot<bool>>) returns (found: bool)
    ensures found <==> exists i :: 0 <= i < |slots| && Suspicious(slots[i])
  {
    for i := 0 to |slots|
      invariant forall k :: 0 <= k < i ==> !Suspicious(slots[k])
    {
      if Suspicious(slots[i]) { return true; }
    }
    return false;
  }

  method AnyForeign(writers: seq<Text>, owner: Text) returns (found: bool)
    ensures found <==> exists w :: w in writers && w != owner
  {
    for i := 0 to |writers|
      invariant forall k :: 0 <= k < i ==> writers[k] == owner
    {
      if writers[i] != owner {
        assert writers[i] in writers;
        return true;
      }
    }
    return false;
  }

  predicate WrittenBy(m: MutationItem, owner: Text) { m.Mutation? && m.run == Str(owner) }

  lemma OwnWriters(ms: seq<MutationItem>, owner: Text)
    requires forall i :: 0 <= i < |ms| ==> SoundCommit(ms[i])
    ensures (forall w :: w in Writers(ms) ==> w == owner) <==> forall i :: 0 <= i < |ms| ==> WrittenBy(ms[i], owner)
  {
    assert forall i :: 0 <= i < |ms| ==> Writers(ms)[i] == ms[i].run.text && Writers(ms)[i] in Writers(ms);
  }

  /** The guard says OK exactly for one live owner and a branch it left alone or moved by its own commits only. */
  lemma GuardAcceptsExactly(c: ClaimExport, m: Movement, now: Instant)
    requires InputsSound(m, None)
    ensures StatusOf(c, m, now) == OK <==>
            && !AmbiguousEvidence(c)
            && exists o: Owner :: LiveOwners(c, m.key.text, now) == Some([o])
                           && (m.priorHead != m.currentHead ==>
                                 && m.mutations.List? && Chain(m.priorHead.text, m.currentHead.text, m.mutations.items)
                                 && forall i :: 0 <= i < |m.mutations.items| ==>
                                      WrittenBy(m.mutations.items[i], o.run))
  {
    var owners := LiveOwners(c, m.key.text, now);
    if owners.Some? && |owners.value| == 1 {
      assert owners.value == [owners.value[0]];
      if Moved(m) && Attributed(m) { OwnWriters(m.mutations.items, owners.value[0].run); }
    }
  }

  /** The guard reports a collision exactly when the movement is proven and somebody else wrote part of it. */
  lemma GuardCollidesExactly(c: ClaimExport, m: Movement, now: Instant)
    requires InputsSound(m, None)
    ensures StatusOf(c, m, now) == Collision <==>
            && !AmbiguousEvidence(c) && m.priorHead != m.currentHead
            && m.mutations.List? && Chain(m.priorHead.text, m.currentHead.text, m.mutations.items)
            && exists o: Owner :: LiveOwners(c, m.key.text, now) == Some([o])
                           && exists i :: 0 <= i < |m.mutations.items| && !WrittenBy(m.mutations.items[i], o.run)
  {
    var owners := LiveOwners(c, m.key.text, now);
    if owners.Some? && |owners.value| == 1 {
      assert owners.value == [owners.value[0]];
      if Moved(m) && Attributed(m) { OwnWriters(m.mutations.items, owners.value[0].run); }
    }
  }

  /** Heads are distinct among the commits only: a chain may pass through the prior head again. */
  lemma PriorHeadMayRecur(a: Text, b: Text, c: Text, writer: Text) returns (ms: seq<MutationItem>)
    requires a != BLANK && b != BLANK && c != BLANK && writer != BLANK && a != b && b != c && a != c
    ensures Chain(a, c, ms) && |ms| == 3 && ms[1].Mutation? && ms[1].head == Str(a)
  {
    ms := [Mutation(Str(b), Str(writer), List([Str(a)])), Mutation(Str(a), Str(writer), List([Str(b)])),
           Mutation(Str(c), Str(writer), List([Str(a)]))];
    forall i | 0 <= i < |ms| ensures SoundCommit(ms[i]) && Continues(a, ms, i) {
      assert FreshHead(ms, i);
    }
  }

  /** Without an owner the guard says so, and every other verdict is undecided. */
  lemma GuardUndecidedExactly(c: ClaimExport, m: Movement, now: Instant)
    requires InputsSound(m, None)
    ensures StatusOf(c, m, now) == NoLiveOwner <==> !AmbiguousEvidence(c) && LiveOwners(c, m.key.text, now) == Some([])
    ensures StatusOf(c, m, now) == AmbiguousState <==>
            || AmbiguousEvidence(c) || LiveOwners(c, m.key.text, now).None?
            || |LiveOwners(c, m.key.text, now).value| > 1
            || (&& |LiveOwners(c, m.key.text, now).value| == 1 && m.priorHead != m.currentHead
                && !(m.mutations.List? && Chain(m.priorHead.text, m.currentHead.text, m.mutations.items)))
  {
  }

  // ---- What counts as evidence ------------------------------------------------------------------------

  /** The evidence is unambiguous exactly when each of its lists is missing or empty. */
  lemma CleanEvidenceExactly(c: ClaimExport)
    ensures !AmbiguousEvidence(c) <==> forall s :: s in c.ambiguityLists ==> s == Missing || s == List([])
  {
    if !AmbiguousEvidence(c) {
      forall s | s in c.ambiguityLists ensures s == Missing || s == List([]) {
        var i :| 0 <= i < |c.ambiguityLists| && c.ambiguityLists[i] == s;
        assert !Suspicious(c.ambiguityLists[i]);
      }
    } else {
      var i :| 0 <= i < |c.ambiguityLists| && Suspicious(c.ambiguityLists[i]);
      assert c.ambiguityLists[i] in c.ambiguityLists;
    }
  }

  /** The first list that is there at all, in the order in which the guard falls back. */
  predicate Picks(c: ClaimExport, s: Slot<OwnerItem>) {
    || (s == c.admittedRuns && s.NotList?) || (s == c.admittedRuns && s.List?)
    || (c.admittedRuns in {Missing, Null} && s == c.admittedAlias && (s.NotList? || s.List?))
    || (c.admittedRuns in {Missing, Null} && c.admittedAlias in {Missing, Null} && s == c.liveRuns)
  }

  /** A live source owner of the key, as an item of the export. */
  predicate OwnedBy(item: OwnerItem, key: Text, now: Instant, o: Owner) {
    && item == OwnerItem(Str(key), Str(Plain("SOURCE_MUTATION")), Str(o.run), Str(o.lease))
    && o.run != BLANK && ParseInstant(o.lease).Some? && now < ParseInstant(o.lease).value
  }

  /** A source item of the key without a readable owner. */
  predicate Spoils(item: OwnerItem, key: Text) {
    && item.OwnerItem? && item.key == Str(key) && item.mode == Str(Plain("SOURCE_MUTATION"))
    && (item.run.NotText? || item.run == Str(BLANK) || item.lease.NotText? || item.lease == Str(BLANK)
        || ParseInstant(item.lease.text).None?)
  }

  lemma {:induction false} OwnersMembers(items: seq<OwnerItem>, key: Text, now: Instant, o: Owner)
    ensures o in Owners(items, key, now) <==> exists i :: 0 <= i < |items| && OwnedBy(items[i], key, now, o)
  {
    if items != [] {
      var n := |items| - 1;
      OwnersMembers(items[..n], key, now, o);
      assert forall i :: 0 <= i < n ==> items[..n][i] == items[i];
      OwnedItem(items[n], key, now, o);
    }
  }

  lemma OwnedItem(item: OwnerItem, key: Text, now: Instant, o: Owner)
    ensures OwnedBy(item, key, now, o) <==>
            SourceItem(item, key) && Unexpired(item, now) && o == Owner(item.run.text, item.lease.text)
  {
    assert ParseInstant(BLANK).None?;
  }

  /**
   * The live owners are exactly the unexpired source items of the key in the first list that is there;
   * the evidence is invalid when that is no list of objects or holds a source item of the key that is broken.
   */
  lemma OwnersExactly(c: ClaimExport, key: Text, now: Instant, s: Slot<OwnerItem>)
    requires Picks(c, s)
    ensures LiveOwners(c, key, now).None? <==>
            s.NotList? || (s.List? && exists item :: item in s.items && (item.NotObject? || Spoils(item, key)))
    ensures LiveOwners(c, key, now).Some? && s.List? ==>
              forall o :: o in LiveOwners(c, key, now).value <==>
                exists i :: 0 <= i < |s.items| && OwnedBy(s.items[i], key, now, o)
    ensures !s.NotList? && !s.List? ==> LiveOwners(c, key, now) == Some([])
  {
    if s.List? {
      forall o ensures o in Owners(s.items, key, now) <==>
                       exists i :: 0 <= i < |s.items| && OwnedBy(s.items[i], key, now, o) {
        OwnersMembers(s.items, key, now, o);
      }
      forall i | 0 <= i < |s.items|
        ensures SourceItem(s.items[i], key) && Broken(s.items[i]) <==> Spoils(s.items[i], key)
      {
        assert s.items[i] in s.items;
      }
    }
  }

  // ---- The chain, by its heads ---------------------------------------------------------------------------

  /** One commit with this head on top of that parent, all of its texts present and its parents distinct. */
  predicate CommitOn(m: MutationItem, head: Text, parent: Text) {
    && m.Mutation? && m.head == Str(head) && head != BLANK && m.run.Str? && m.run.text != BLANK && m.parents.List?
    && Str(parent) in m.parents.items && Str(head) !in m.parents.items
    && (forall p :: p in m.parents.items ==> p.Str? && p.text != BLANK)
    && forall i, j :: 0 <= i < j < |m.parents.items| ==> m.parents.items[i] != m.parents.items[j]
  }

  function ParentHead(prior: Text, heads: seq<Text>, i: nat): Text
    requires i < |heads|
  {
    if i == 0 then prior else heads[i - 1]
  }

  /** The commits have these heads, each on top of the one before, the first on top of the prior head. */
  predicate PathOf(prior: Text, ms: seq<MutationItem>, heads: seq<Text>) {
    && |heads| == |ms|
    && (forall i :: 0 <= i < |ms| ==> CommitOn(ms[i], heads[i], ParentHead(prior, heads, i)))
    && forall i, j :: 0 <= i < j < |heads| ==> heads[i] != heads[j]
  }

  function HeadsOf(ms: seq<MutationItem>): (r: seq<Text>)
    requires forall i :: 0 <= i < |ms| ==> SoundCommit(ms[i])
    ensures |r| == |ms| && forall i :: 0 <= i < |r| ==> SoundCommit(ms[i]) && ms[i].head == Str(r[i])
  {
    seq(|ms|, i requires 0 <= i < |ms| && SoundCommit(ms[i]) => ms[i].head.text)
  }

  lemma CommitContinues(prior: Text, ms: seq<MutationItem>, heads: seq<Text>, i: nat)
    requires i < |ms| == |heads| && PathOf(prior, ms, heads)
    ensures Continues(prior, ms, i)
  {
    assert CommitOn(ms[i], heads[i], ParentHead(prior, heads, i));
    forall k | 0 <= k < i ensures ms[k].head == Str(heads[k]) {
      assert CommitOn(ms[k], heads[k], ParentHead(prior, heads, k));
    }
  }

  lemma LinkedPath(prior: Text, ms: seq<MutationItem>)
    requires Linked(prior, ms, |ms|)
    ensures PathOf(prior, ms, HeadsOf(ms))
  {
    var heads := HeadsOf(ms);
    forall i | 0 <= i < |ms| ensures CommitOn(ms[i], heads[i], ParentHead(prior, heads, i)) {
      assert Continues(prior, ms, i);
      forall p | p in ms[i].parents.items ensures p.Str? && p.text != BLANK {
        var k :| 0 <= k < |ms[i].parents.items| && ms[i].parents.items[k] == p;
      }
    }
    forall i, j | 0 <= i < j < |heads| ensures heads[i] != heads[j] {
      assert Continues(prior, ms, j);
    }
  }

  lemma PathLinks(prior: Text, ms: seq<MutationItem>, heads: seq<Text>)
    requires PathOf(prior, ms, heads)
    ensures Linked(prior, ms, |ms|)
    ensures ms != [] ==> ms[|ms| - 1].Mutation? && ms[|ms| - 1].head == Str(heads[|ms| - 1])
  {
    forall i | 0 <= i < |ms| ensures SoundCommit(ms[i]) && Continues(prior, ms, i) {
      CommitContinues(prior, ms, heads, i);
    }
    if ms != [] { assert CommitOn(ms[|ms| - 1], heads[|ms| - 1], ParentHead(prior, heads, |ms| - 1)); }
  }

  /** The commits have a path of heads that ends at the current one. */
  ghost predicate Leads(prior: Text, current: Text, ms: seq<MutationItem>) {
    exists heads :: PathOf(prior, ms, heads) && heads != [] && heads[|heads| - 1] == current
  }

  lemma ChainLeads(prior: Text, current: Text, ms: seq<MutationItem>)
    requires Chain(prior, current, ms)
    ensures Leads(prior, current, ms)
  {
    LinkedPath(prior, ms);
    var heads := HeadsOf(ms);
    assert heads != [] && heads[|heads| - 1] == current;
  }

  lemma PathChains(prior: Text, current: Text, ms: seq<MutationItem>)
    requires Leads(prior, current, ms)
    ensures Chain(prior, current, ms)
  {
    var heads :| PathOf(prior, ms, heads) && heads != [] && heads[|heads| - 1] == current;
    PathLinks(prior, ms, heads);
  }

  /** A movement is a chain exactly when some heads are its path and the last of them is the current head. */
  lemma ChainExactly(prior: Text, current: Text, ms: seq<MutationItem>)
    ensures Chain(prior, current, ms) <==> Leads(prior, current, ms)
  {
    if Chain(prior, current, ms) { ChainLeads(prior, current, ms); }
    if Leads(prior, current, ms) { PathChains(prior, current, ms); }
  }

  /** The writers of a verdict are those of the longest linked part, once there is one owner to compare them to. */
  lemma WritersExactly(c: ClaimExport, m: Movement, now: Instant) returns (n: nat)
    requires InputsSound(m, None)
    ensures if && !AmbiguousEvidence(c) && LiveOwners(c, m.key.text, now).Some?
               && |LiveOwners(c, m.key.text, now).value| == 1 && m.priorHead != m.currentHead
               && m.mutations.List? && (forall x :: x in m.mutations.items ==> x.Mutation?)
            then
              && n <= |m.mutations.items| && Linked(m.priorHead.text, m.mutations.items, n)
              && (n < |m.mutations.items| ==> !Linked(m.priorHead.text, m.mutations.items, n + 1))
              && WritersOf(c, m, now) == Writers(m.mutations.items[..n])
            else WritersOf(c, m, now) == []
  {
    n := if m.mutations.List? then LinkedLength(m.priorHead.text, m.mutations.items, 0) else 0;
    if m.mutations.List? && NotAnObject !in m.mutations.items {
      forall x | x in m.mutations.items ensures x.Mutation? {}
    }
  }
}
