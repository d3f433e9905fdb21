/** The claim resolver and the branch guard together: an export may be resolved before it is used. */
module GuardedExport {
  import opened Common
  import opened ClaimLedger
  import opened ClaimResolution
  import opened ClaimFacade
  import opened ClaimScenarios
  import opened BranchGuard

  /** A blank field is exported as null. */
  function ToJson(t: Text): Json { if t == BLANK then NotText else Str(t) }

  function Item(p: Public): OwnerItem {
    OwnerItem(ToJson(p.run.key), ToJson(p.run.mode), ToJson(p.id), ToJson(FormatInstant(p.run.lease)))
  }

  function Items(s: seq<Public>): (r: seq<OwnerItem>)
    ensures |r| == |s| && forall i :: 0 <= i < |s| ==> r[i] == Item(s[i])
  {
    if s == [] then [] else Items(s[..|s| - 1]) + [Item(s[|s| - 1])]
  }

  function Marks(n: nat): (r: seq<bool>)
    ensures |r| == n
  {
    seq(n, _ => true)
  }

  function Export(r: Resolution): ClaimExport {
    ClaimExport([List(Marks(|r.ambiguous|)), Missing, Missing, List(Marks(|r.malformed|))],
                List(Items(r.admitted)), Missing, List(Items(r.live)))
  }

  lemma ExportedAmbiguity(r: Resolution)
    ensures AmbiguousEvidence(Export(r)) <==> r.ambiguous != [] || r.malformed != []
  {
    var lists := Export(r).ambiguityLists;
    assert Suspicious(lists[0]) <==> r.ambiguous != [];
    assert Suspicious(lists[3]) <==> r.malformed != [];
  }

  lemma ExportedOwners(r: Resolution, key: Text, now: Instant)
    requires forall p :: p in r.admitted ==> p.id != BLANK && p.run.lease.Some?
    ensures LiveOwners(Export(r), key, now) == Some(Owners(Items(r.admitted), key, now))
  {
    forall i | 0 <= i < |r.admitted| ensures !Broken(Items(r.admitted)[i]) {
      assert r.admitted[i] in r.admitted;
    }
  }

  function OwnerOf(p: Public, key: Text, now: Instant): seq<Owner> {
    if SourceItem(Item(p), key) && Unexpired(Item(p), now) then [Owner(Item(p).run.text, Item(p).lease.text)] else []
  }

  lemma OwnersSnoc(s: seq<Public>, p: Public, key: Text, now: Instant)
    ensures Owners(Items(s + [p]), key, now) == Owners(Items(s), key, now) + OwnerOf(p, key, now)
  {
    assert (s + [p])[..|s|] == s;
    assert (Items(s) + [Item(p)])[..|s|] == Items(s);
  }

  lemma OwnerOnceLive(p: Public, key: Text, now: Instant, later: Instant)
    requires now <= later
    ensures LiveSource(p, later) ==> LiveSource(p, now)
    ensures LiveSource(p, now) && !LiveSource(p, later) ==> OwnerOf(p, key, later) == []
  {
  }

  function OwnersIn(s: seq<Public>, key: Text, now: Instant): seq<Owner> {
    if s == [] then [] else OwnersIn(s[..|s| - 1], key, now) + OwnerOf(s[|s| - 1], key, now)
  }

  lemma {:induction false} OwnersInItems(s: seq<Public>, key: Text, now: Instant)
    ensures Owners(Items(s), key, now) == OwnersIn(s, key, now)
  {
    if s != [] {
      var n := |s| - 1;
      OwnersInItems(s[..n], key, now);
      OwnersSnoc(s[..n], s[n], key, now);
      assert s == s[..n] + [s[n]];
    }
  }

  lemma PrefixOfAppend(a: seq<Public>, b: seq<Public>)
    requires b != []
    ensures (a + b)[..|a + b| - 1] == a + b[..|b| - 1] && (a + b)[|a + b| - 1] == b[|b| - 1]
  {
  }

  lemma {:induction false} OwnersInAppend(a: seq<Public>, b: seq<Public>, key: Text, now: Instant)
    ensures OwnersIn(a + b, key, now) == OwnersIn(a, key, now) + OwnersIn(b, key, now)
  {
    if b == [] {
      assert a + b == a;
    } else {
      var n := |b| - 1;
      OwnersInAppend(a, b[..n], key, now);
      PrefixOfAppend(a, b);
      Associative(OwnersIn(a, key, now), OwnersIn(b[..n], key, now), OwnerOf(b[n], key, now));
    }
  }

  lemma OwnersAppend(a: seq<Public>, b: seq<Public>, key: Text, now: Instant)
    ensures Owners(Items(a + b), key, now) == Owners(Items(a), key, now) + Owners(Items(b), key, now)
  {
    OwnersInAppend(a, b, key, now);
    OwnersInItems(a, key, now);
    OwnersInItems(b, key, now);
    OwnersInItems(a + b, key, now);
  }

  /** Runs that were live once own something at `later` only while they are still live. */
  lemma {:induction false} OwnersStillLive(s: seq<Public>, key: Text, now: Instant, later: Instant)
    requires now <= later && forall p :: p in s ==> LiveSource(p, now)
    ensures Owners(Items(s), key, later) == Owners(Items(Select(s, ByLiveSource(later))), key, later)
  {
    if s != [] {
      var n := |s| - 1;
      assert s == s[..n] + [s[n]];
      OwnersStillLive(s[..n], key, now, later);
      OwnerOnceLive(s[n], key, now, later);
      OwnersSnoc(s[..n], s[n], key, later);
      OwnersSnoc(Select(s[..n], ByLiveSource(later)), s[n], key, later);
    }
  }

  lemma OwnerOfKey(p: Public, key: Text, now: Instant)
    requires key != BLANK && LiveSource(p, now) && p.id != BLANK
    ensures OwnerOf(p, key, now) == [] <==> p.run.key != key
  {
    assert p.run.lease.Some? && now < p.run.lease.value;
    assert Item(p).key == Str(key) <==> p.run.key == key;
  }

  /** Live runs hold no owner of a key exactly when none of them claims it. */
  lemma {:induction false} OwnersOfKey(s: seq<Public>, key: Text, now: Instant)
    requires key != BLANK && forall p :: p in s ==> LiveSource(p, now) && p.id != BLANK
    ensures Owners(Items(s), key, now) == [] <==> !ClaimsKey(s, key)
  {
    if s != [] {
      var n := |s| - 1;
      assert s == s[..n] + [s[n]];
      OwnersOfKey(s[..n], key, now);
      OwnersSnoc(s[..n], s[n], key, now);
      OwnerOfKey(s[n], key, now);
    }
  }

  predicate ClaimsKey(s: seq<Public>, key: Text) { exists p :: p in s && p.run.key == key }

  /** The live source runs of a later clock are the still live ones of an earlier clock, in the same order. */
  lemma LiveLater(r: seq<Public>, now: Instant, later: Instant)
    requires now <= later
    ensures Select(r, ByLiveSource(later)) == Select(Select(r, ByLiveSource(now)), ByLiveSource(later))
  {
    SelectTwice(r, ByLiveSource(now), ByLiveSource(later));
    SelectSame(r, (p: Public) => ByLiveSource(now)(p) && ByLiveSource(later)(p), ByLiveSource(later));
  }

  /** Owners of one key that are unexpired at `later` are the same whichever of the two live lists is read. */
  lemma OwnersCommute(r: seq<Public>, key: Text, now: Instant, later: Instant)
    requires now <= later
    ensures Owners(Items(Select(r, ByLiveSource(now))), key, later)
            == Owners(Items(Select(r, ByLiveSource(later))), key, later)
  {
    OwnersStillLive(Select(r, ByLiveSource(now)), key, now, later);
    LiveLater(r, now, later);
  }

  // ---- Admission at two clocks ----------------------------------------------------------------------

  predicate SoundCapacity(capacity: Option<int>) { capacity.Some? ==> capacity.value >= 1 }

  function Fenced(r: seq<Public>, m: seq<Problem>, now: Instant, capacity: Option<int>): Resolution
    requires SoundCapacity(capacity)
  {
    FailClosed(ResolveRoster(r, m, now, capacity))
  }

  /** A resolution admits the front of a list of live source runs and lets the rest wait. */
  predicate Cuts(f: Resolution, source: seq<Public>, capacity: Option<int>)
    requires SoundCapacity(capacity)
  {
    f.admitted == source[..Taken(source, capacity)] && f.collisions == source[Taken(source, capacity)..]
  }

  /** Admitted and waiting runs are the live source runs, cut at the capacity, before and after the mode fence. */
  lemma AdmissionOf(r: seq<Public>, m: seq<Problem>, now: Instant, capacity: Option<int>)
    requires IsRoster(r) && SoundCapacity(capacity)
    ensures Cuts(Fenced(r, m, now, capacity), Select(r, ByLiveSource(now)), capacity)
  {
    FenceReclassifies(r, m, now, capacity);
    SelectTwice(r, InBucket(Live, now), IsSource());
    SelectSame(r, (p: Public) => InBucket(Live, now)(p) && IsSource()(p), ByLiveSource(now));
  }

  /**
   * The waiting runs of an export that a later clock lets in: still live, in claim order, as many as
   * the admitted runs that are still live leave room for.
   */
  function Promoted(stale: Resolution, later: Instant, capacity: Option<int>): seq<Public>
    requires capacity.Some? ==> |stale.admitted| <= capacity.value
  {
    var waiting := Select(stale.collisions, ByLiveSource(later));
    if capacity.None? then waiting
    else
      var room := capacity.value - |Select(stale.admitted, ByLiveSource(later))|;
      if |waiting| <= room then waiting else waiting[..room]
  }

  lemma {:induction false} SelectAppend(a: seq<Public>, b: seq<Public>, keep: Public -> bool)
    ensures Select(a + b, keep) == Select(a, keep) + Select(b, keep)
  {
    if b == [] {
      assert a + b == a;
    } else {
      var n := |b| - 1;
      SelectAppend(a, b[..n], keep);
      PrefixOfAppend(a, b);
      Associative(Select(a, keep), Select(b[..n], keep), [b[n]]);
    }
  }

  /** Cutting a list at a capacity and dropping from both parts is dropping first, up to the free room. */
  lemma CutThenDrop(s: seq<Public>, keep: Public -> bool, capacity: int)
    requires capacity >= 1
    ensures var n := Taken(s, Some(capacity));
            var kept := Select(s, keep);
            var waiting := Select(s[n..], keep);
            var room := capacity - |Select(s[..n], keep)|;
            kept[..Taken(kept, Some(capacity))]
            == Select(s[..n], keep) + if |waiting| <= room then waiting else waiting[..room]
  {
    var n := Taken(s, Some(capacity));
    assert s == s[..n] + s[n..];
    SelectAppend(s[..n], s[n..], keep);
  }

  lemma CutLater(
    stale: Resolution, anew: Resolution, source: seq<Public>, later: Instant, capacity: Option<int>)
    requires SoundCapacity(capacity)
    requires Cuts(stale, source, capacity) && Cuts(anew, Select(source, ByLiveSource(later)), capacity)
    ensures capacity.Some? ==> |stale.admitted| <= capacity.value
    ensures anew.admitted == Select(stale.admitted, ByLiveSource(later)) + Promoted(stale, later, capacity)
  {
    if capacity.Some? {
      CutThenDrop(source, ByLiveSource(later), capacity.value);
    } else {
      var none: seq<Public> := [];
      assert source[..|source|] == source && source[|source|..] == none;
      assert Select(none, ByLiveSource(later)) == none;
    }
  }

  /** What a later clock admits can be read off the earlier export. */
  lemma AdmissionLater(r: seq<Public>, m: seq<Problem>, now: Instant, later: Instant, capacity: Option<int>)
    requires IsRoster(r) && SoundCapacity(capacity) && now <= later
    ensures var stale := Fenced(r, m, now, capacity);
            && (capacity.Some? ==> |stale.admitted| <= capacity.value)
            && Fenced(r, m, later, capacity).admitted
               == Select(stale.admitted, ByLiveSource(later)) + Promoted(stale, later, capacity)
  {
    AdmissionOf(r, m, now, capacity);
    AdmissionOf(r, m, later, capacity);
    LiveLater(r, now, later);
    CutLater(Fenced(r, m, now, capacity), Fenced(r, m, later, capacity), Select(r, ByLiveSource(now)), later, capacity);
  }

  /** At `later`, a fresh export has the owners of the stale one and then those of the promoted runs. */
  lemma OwnersLater(r: seq<Public>, m: seq<Problem>, key: Text, now: Instant, later: Instant, capacity: Option<int>)
    requires IsRoster(r) && SoundCapacity(capacity) && now <= later
    ensures var stale := Fenced(r, m, now, capacity);
            && (capacity.Some? ==> |stale.admitted| <= capacity.value)
            && Owners(Items(Fenced(r, m, later, capacity).admitted), key, later)
               == Owners(Items(stale.admitted), key, later)
                  + Owners(Items(Promoted(stale, later, capacity)), key, later)
  {
    var stale := Fenced(r, m, now, capacity);
    AdmissionLater(r, m, now, later, capacity);
    AdmittedAreLive(r, m, now, capacity);
    OwnersStillLive(stale.admitted, key, now, later);
    OwnersAppend(Select(stale.admitted, ByLiveSource(later)), Promoted(stale, later, capacity), key, later);
  }

  lemma AdmittedAreLive(r: seq<Public>, m: seq<Problem>, now: Instant, capacity: Option<int>)
    requires IsRoster(r) && SoundCapacity(capacity)
    ensures forall p :: p in Fenced(r, m, now, capacity).admitted || p in Fenced(r, m, now, capacity).collisions ==>
              p in r && p.id != BLANK && p.run.lease.Some? && LiveSource(p, now)
  {
    AdmissionOf(r, m, now, capacity);
    var source := Select(r, ByLiveSource(now));
    forall p | p in source ensures p in r && p.id != BLANK && p.run.lease.Some? && LiveSource(p, now) {}
  }

  predicate SomeAmbiguous(r: seq<Public>, now: Instant) { exists p :: p in r && FencedBucket(p, now) == Ambiguous }

  lemma SomeAmbiguousAlways(r: seq<Public>, now: Instant, later: Instant)
    ensures SomeAmbiguous(r, now) ==> SomeAmbiguous(r, later)
  {
    if SomeAmbiguous(r, now) {
      var p :| p in r && FencedBucket(p, now) == Ambiguous;
      assert FencedBucket(p, later) == Ambiguous;
    }
  }

  lemma FencedAmbiguity(r: seq<Public>, m: seq<Problem>, now: Instant, capacity: Option<int>)
    requires IsRoster(r) && (capacity.Some? ==> capacity.value >= 1)
    ensures var f := FailClosed(ResolveRoster(r, m, now, capacity));
            AmbiguousEvidence(Export(f)) <==> m != [] || SomeAmbiguous(r, now)
  {
    var was := ResolveRoster(r, m, now, capacity);
    var f := FailClosed(was);
    ExportedAmbiguity(f);
    FenceReclassifies(r, m, now, capacity);
    BucketsCover(r, m, now, capacity);
    InvalidOverRoster(r, AllBuckets(was));
    var invalid := Invalid(AllBuckets(was));
    if invalid != [] { assert invalid[0] in invalid && invalid[0] in f.ambiguous; }
    if f.ambiguous != [] { assert f.ambiguous[0] in f.ambiguous; }
    forall p | p in r && FencedBucket(p, now) == Ambiguous ensures f.ambiguous != [] { assert p in f.ambiguous; }
  }

  function GuardResolved(cs: seq<Comment>, resolvedAt: Instant, capacity: Option<int>, m: Movement, now: Instant)
    : Status
    requires InputsSound(m, None) && SoundCapacity(capacity)
  {
    StatusOf(Export(ResolveFenced(cs, resolvedAt, capacity).value), m, now)
  }

  lemma AmbiguityCommutes(r: seq<Public>, problems: seq<Problem>, now: Instant, later: Instant, capacity: Option<int>)
    requires IsRoster(r) && SoundCapacity(capacity)
    ensures AmbiguousEvidence(Export(Fenced(r, problems, now, capacity)))
            == AmbiguousEvidence(Export(Fenced(r, problems, later, capacity)))
  {
    FencedAmbiguity(r, problems, now, capacity);
    FencedAmbiguity(r, problems, later, capacity);
    SomeAmbiguousAlways(r, now, later);
    SomeAmbiguousAlways(r, later, now);
  }

  /** More live owners change the answer of the guard exactly when it was not ambiguous already. */
  lemma MoreOwnersSameStatus(c: ClaimExport, d: ClaimExport, m: Movement, now: Instant, more: seq<Owner>)
    requires InputsSound(m, None) && AmbiguousEvidence(c) == AmbiguousEvidence(d)
    requires LiveOwners(c, m.key.text, now).Some?
    requires LiveOwners(d, m.key.text, now) == Some(LiveOwners(c, m.key.text, now).value + more)
    ensures StatusOf(c, m, now) == StatusOf(d, m, now) <==> more == [] || StatusOf(c, m, now) == AmbiguousState
  {
    if more == [] {
      assert LiveOwners(c, m.key.text, now).value + more == LiveOwners(c, m.key.text, now).value;
    } else {
      assert |LiveOwners(d, m.key.text, now).value| >= |LiveOwners(c, m.key.text, now).value| + 1;
    }
  }

  lemma RosterAgreesExactly(
    r: seq<Public>, problems: seq<Problem>, now: Instant, later: Instant, capacity: Option<int>, m: Movement)
    requires IsRoster(r) && SoundCapacity(capacity) && now <= later && InputsSound(m, None)
    ensures var stale := Fenced(r, problems, now, capacity);
            var anew := Fenced(r, problems, later, capacity);
            && (capacity.Some? ==> |stale.admitted| <= capacity.value)
            && (StatusOf(Export(stale), m, later) == StatusOf(Export(anew), m, later) <==>
                !ClaimsKey(Promoted(stale, later, capacity), m.key.text)
                || StatusOf(Export(stale), m, later) == AmbiguousState)
  {
    var stale, anew := Fenced(r, problems, now, capacity), Fenced(r, problems, later, capacity);
    var key := m.key.text;
    AmbiguityCommutes(r, problems, now, later, capacity);
    AdmittedAreLive(r, problems, now, capacity);
    AdmittedAreLive(r, problems, later, capacity);
    ExportedOwners(stale, key, later);
    ExportedOwners(anew, key, later);
    OwnersLater(r, problems, key, now, later, capacity);
    var promoted := Promoted(stale, later, capacity);
    PromotedWaited(stale, later, capacity);
    OwnersOfKey(promoted, key, later);
    MoreOwnersSameStatus(Export(stale), Export(anew), m, later, Owners(Items(promoted), key, later));
  }

  lemma PromotedWaited(stale: Resolution, later: Instant, capacity: Option<int>)
    requires capacity.Some? ==> |stale.admitted| <= capacity.value
    ensures forall p :: p in Promoted(stale, later, capacity) ==> p in stale.collisions && LiveSource(p, later)
  {
    var waiting := Select(stale.collisions, ByLiveSource(later));
    forall p | p in Promoted(stale, later, capacity) ensures p in waiting {}
  }

  /**
   * Guarding at `later` an export resolved at `now` is guarding a fresh one exactly when no waiting run
   * of the guarded key is let in meanwhile, or the old export already leaves the guard undecided.
   */
  lemma GuardsAgreeExactly(cs: seq<Comment>, now: Instant, later: Instant, capacity: Option<int>, m: Movement)
    requires now <= later && InputsSound(m, None) && SoundCapacity(capacity)
    ensures var stale := ResolveFenced(cs, now, capacity).value;
            && (capacity.Some? ==> |stale.admitted| <= capacity.value)
            && (GuardResolved(cs, now, capacity, m, later) == GuardResolved(cs, later, capacity, m, later) <==>
                !ClaimsKey(Promoted(stale, later, capacity), m.key.text)
                || GuardResolved(cs, now, capacity, m, later) == AmbiguousState)
  {
    ResolverRoster(cs);
    RosterAgreesExactly(RosterOf(cs), Malformed(cs), now, later, capacity, m);
  }

  /** What the holder of an export can check at once: nobody waits for the guarded key. */
  lemma NobodyWaiting(cs: seq<Comment>, now: Instant, later: Instant, capacity: Option<int>, m: Movement)
    requires now <= later && InputsSound(m, None) && SoundCapacity(capacity)
    requires !ClaimsKey(ResolveFenced(cs, now, capacity).value.collisions, m.key.text)
    ensures GuardResolved(cs, now, capacity, m, later) == GuardResolved(cs, later, capacity, m, later)
  {
    GuardsAgreeExactly(cs, now, later, capacity, m);
    PromotedWaited(ResolveFenced(cs, now, capacity).value, later, capacity);
  }

  /** Without a capacity limit nobody waits at all. */
  lemma ResolveEarlierGuardLater(cs: seq<Comment>, now: Instant, later: Instant, m: Movement)
    requires now <= later && InputsSound(m, None)
    ensures GuardResolved(cs, now, None, m, later) == GuardResolved(cs, later, None, m, later)
  {
    ResolverRoster(cs);
    AdmissionOf(RosterOf(cs), Malformed(cs), now, None);
    NobodyWaiting(cs, now, later, None, m);
  }

  // ---- With a capacity limit the two clocks do not commute ------------------------------------------

  lemma SelectPair(p: Public, q: Public, keep: Public -> bool)
    ensures Select([p, q], keep) == (if keep(p) then [p] else []) + (if keep(q) then [q] else [])
  {
    assert [p, q][..1] == [p] && [p][..0] == [];
  }

  lemma OneAdmitted(p: Public, q: Public, problems: seq<Problem>, now: Instant)
    requires p.run.mode == SOURCE_MUTATION && q.run.mode == SOURCE_MUTATION && LiveSource(q, now)
    ensures ResolveRoster([p, q], problems, now, Some(1)).admitted == if LiveSource(p, now) then [p] else [q]
  {
    SelectTwice([p, q], InBucket(Live, now), IsSource());
    SelectSame([p, q], (x: Public) => InBucket(Live, now)(x) && IsSource()(x), ByLiveSource(now));
    SelectPair(p, q, ByLiveSource(now));
  }

  lemma OwnersOne(p: Public, key: Text, now: Instant)
    ensures Owners(Items([p]), key, now) == OwnerOf(p, key, now)
  {
    var none: seq<Public> := [];
    OwnersSnoc(none, p, key, now);
    assert none + [p] == [p];
    assert Owners(Items(none), key, now) == [];
  }

  lemma OwnerOfPublic(p: Public, key: Text, now: Instant)
    requires p.id != BLANK && p.run.lease.Some? && p.run.key == key && key != BLANK && p.run.mode == SOURCE_MUTATION
    ensures OwnerOf(p, key, now) == if now < p.run.lease.value then [Owner(p.id, Canonical(p.run.lease.value))] else []
  {
    assert Item(p) == OwnerItem(Str(key), Str(SOURCE_MUTATION), Str(p.id), Str(Canonical(p.run.lease.value)));
  }

  lemma SingleOwner(r: Resolution, p: Public, key: Text, now: Instant)
    requires r.admitted == [p] && p.id != BLANK && p.run.lease.Some? && p.run.key == key && key != BLANK
    requires p.run.mode == SOURCE_MUTATION
    ensures LiveOwners(Export(r), key, now) ==
            Some(if now < p.run.lease.value then [Owner(p.id, Canonical(p.run.lease.value))] else [])
  {
    ExportedOwners(r, key, now);
    OwnersOne(p, key, now);
    OwnerOfPublic(p, key, now);
  }

  lemma CleanClaimProblems(cs: seq<Comment>, id: Text, lease: Instant)
    requires id != BLANK && id !in After(cs).runs && Malformed(cs) == []
    ensures Malformed(cs + [ClaimComment(id, lease)]) == []
  {
    var c := ClaimComment(id, lease);
    ClaimEvent(id, lease);
    assert (cs + [c])[..|cs|] == cs;
    assert [ClaimOf(id, lease)][..0] == [];
    assert FoldProblems(After(cs), [ClaimOf(id, lease)]) == Problems(After(cs), ClaimOf(id, lease));
    assert ClaimProblems(ClaimOf(id, lease), id) == [];
  }

  lemma TwoClean(a: Text, s: Instant, b: Text, t: Instant)
    requires a != BLANK && b != BLANK && a != b
    ensures Malformed(TwoClaims(a, s, b, t)) == []
  {
    var none: seq<Comment> := [];
    var one := [ClaimComment(a, s)];
    assert After(none) == EMPTY && Malformed(none) == [];
    assert none + one == one && TwoClaims(a, s, b, t) == one + [ClaimComment(b, t)];
    CleanClaimProblems(none, a, s);
    ClaimCommentStep(none, a, s);
    CleanClaimProblems(one, b, t);
  }

  /** The first run's lease ends between the two clocks: the stale export admits nobody else. */
  lemma CapacityBreaksCommutation(a: Text, s: Instant, b: Text, t: Instant, now: Instant, later: Instant, m: Movement)
    requires a != BLANK && b != BLANK && a != b && now < s <= later < t
    requires InputsSound(m, None) && m.key == Str(Plain("k")) && !Moved(m)
    ensures GuardResolved(TwoClaims(a, s, b, t), now, Some(1), m, later) == NoLiveOwner
    ensures GuardResolved(TwoClaims(a, s, b, t), later, Some(1), m, later) == OK
  {
    TwoRoster(a, s, b, t);
    TwoClean(a, s, b, t);
    PairOfClaims(a, s, b, t, now, later, m);
    PairOfClaims(a, s, b, t, later, later, m);
  }

  lemma PairOfClaims(a: Text, s: Instant, b: Text, t: Instant, resolvedAt: Instant, now: Instant, m: Movement)
    requires a != BLANK && b != BLANK && a != b && resolvedAt <= now && s <= now < t
    requires InputsSound(m, None) && m.key == Str(Plain("k")) && !Moved(m)
    ensures var r := [Public(a, 0, Opened(ClaimOf(a, s))), Public(b, 1, Opened(ClaimOf(b, t)))];
            StatusOf(Export(FailClosed(ResolveRoster(r, [], resolvedAt, Some(1)))), m, now) ==
            if resolvedAt < s then NoLiveOwner else OK
  {
    ClaimEvent(a, s);
    ClaimEvent(b, t);
    PairGuard(Public(a, 0, Opened(ClaimOf(a, s))), Public(b, 1, Opened(ClaimOf(b, t))), resolvedAt, now, m);
  }

  /** The status of an unmoved branch depends only on the ambiguity and the number of live owners. */
  lemma UnmovedStatus(c: ClaimExport, m: Movement, now: Instant, owners: seq<Owner>)
    requires InputsSound(m, None) && !Moved(m) && !AmbiguousEvidence(c)
    requires LiveOwners(c, m.key.text, now) == Some(owners) && |owners| <= 1
    ensures StatusOf(c, m, now) == if owners == [] then NoLiveOwner else OK
  {
  }

  lemma PairIsClean(p: Public, q: Public, resolvedAt: Instant)
    requires IsRoster([p, q]) && Healthy(p.run) && Healthy(q.run) && p.run.lease.Some? && q.run.lease.Some?
    requires p.run.mode == SOURCE_MUTATION && q.run.mode == SOURCE_MUTATION
    ensures !AmbiguousEvidence(Export(FailClosed(ResolveRoster([p, q], [], resolvedAt, Some(1)))))
  {
    FencedAmbiguity([p, q], [], resolvedAt, Some(1));
    forall x | x in [p, q] ensures FencedBucket(x, resolvedAt) != Ambiguous {}
  }

  lemma PairAdmits(p: Public, q: Public, resolvedAt: Instant)
    requires IsRoster([p, q]) && LiveSource(q, resolvedAt)
    requires p.run.mode == SOURCE_MUTATION && q.run.mode == SOURCE_MUTATION
    ensures FailClosed(ResolveRoster([p, q], [], resolvedAt, Some(1))).admitted ==
            if LiveSource(p, resolvedAt) then [p] else [q]
  {
    FenceReclassifies([p, q], [], resolvedAt, Some(1));
    OneAdmitted(p, q, [], resolvedAt);
  }

  lemma PairGuard(p: Public, q: Public, resolvedAt: Instant, now: Instant, m: Movement)
    requires IsRoster([p, q]) && InputsSound(m, None) && !Moved(m)
    requires Healthy(p.run) && Healthy(q.run) && p.run.lease.Some? && q.run.lease.Some?
    requires p.run.mode == SOURCE_MUTATION && q.run.mode == SOURCE_MUTATION
    requires m.key == Str(p.run.key) && m.key == Str(q.run.key)
    requires resolvedAt <= now && p.run.lease.value <= now < q.run.lease.value
    ensures StatusOf(Export(FailClosed(ResolveRoster([p, q], [], resolvedAt, Some(1)))), m, now) ==
            if resolvedAt < p.run.lease.value then NoLiveOwner else OK
  {
    var f := FailClosed(ResolveRoster([p, q], [], resolvedAt, Some(1)));
    var first := LiveSource(p, resolvedAt);
    var owner := if first then p else q;
    assert p == [p, q][0] && q == [p, q][1];
    PairIsClean(p, q, resolvedAt);
    PairAdmits(p, q, resolvedAt);
    SingleOwner(f, owner, m.key.text, now);
    UnmovedStatus(Export(f), m, now, if first then [] else [Owner(q.id, Canonical(q.run.lease.value))]);
  }
}
