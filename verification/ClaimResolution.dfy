/** Classification of claimed runs at one instant, capacity admission, and what the fold guarantees. */
module ClaimResolution {
  import opened Common
  import opened ClaimLedger

  datatype Bucket = Live | Ended | Lapsed | Ambiguous

  /** A claimed run with its place in the order of original claims. */
  datatype Public = Public(id: Text, order: nat, run: Run)

  datatype Resolution = Resolution(
    live: seq<Public>, sourceLive: seq<Public>, nonSourceLive: seq<Public>, admitted: seq<Public>,
    collisions: seq<Public>, released: seq<Public>, expired: seq<Public>, ambiguous: seq<Public>,
    malformed: seq<Problem>)

  datatype ResolveError = CapacityTooSmall

  const SOURCE_MUTATION := Plain("SOURCE_MUTATION")

  function BucketOf(run: Run, now: Instant): Bucket {
    if run.ambiguous || run.latest == Confused || run.lease.None? then Ambiguous
    else if run.latest == Released then Ended
    else if run.lease.value <= now then Lapsed
    else Live
  }

  predicate Sound(l: Ledger) {
    && (forall id :: id in l.runs ==> id in l.order)
    && (forall id :: id in l.order ==> id in l.runs)
    && (forall i, j :: 0 <= i < j < |l.order| ==> l.order[i] != l.order[j])
  }

  lemma StepSound(l: Ledger, e: Event)
    requires Sound(l)
    ensures Sound(Step(l, e)) && l.order <= Step(l, e).order
  {
  }

  lemma {:induction false} FoldSound(l: Ledger, es: seq<Event>)
    requires Sound(l)
    ensures Sound(Fold(l, es)) && l.order <= Fold(l, es).order
  {
    if es != [] {
      FoldSound(l, es[..|es| - 1]);
      StepSound(Fold(l, es[..|es| - 1]), es[|es| - 1]);
    }
  }

  /** A history in which server order is broken lends no ownership at all. */
  function Shown(run: Run, disordered: bool): Run { if disordered then Confuse(run) else run }

  function Roster(l: Ledger, disordered: bool): (r: seq<Public>)
    requires Sound(l)
    ensures |r| == |l.order|
    ensures forall i :: 0 <= i < |r| ==> r[i] == Public(l.order[i], i, Shown(l.runs[l.order[i]], disordered))
  {
    seq(|l.order|, i requires 0 <= i < |l.order| => Public(l.order[i], i, Shown(l.runs[l.order[i]], disordered)))
  }

  function Select(s: seq<Public>, keep: Public -> bool): (r: seq<Public>)
    ensures forall p :: p in r <==> p in s && keep(p)
    ensures |r| <= |s|
  {
    if s == [] then []
    else
      var n := |s| - 1;
      assert s == s[..n] + [s[n]];
      if keep(s[n]) then Select(s[..n], keep) + [s[n]] else Select(s[..n], keep)
  }

  function InBucket(b: Bucket, now: Instant): Public -> bool { (p: Public) => BucketOf(p.run, now) == b }

  function IsSource(): Public -> bool { (p: Public) => p.run.mode == SOURCE_MUTATION }

  function IsNotSource(): Public -> bool { (p: Public) => p.run.mode != SOURCE_MUTATION }

  function Taken(s: seq<Public>, capacity: Option<int>): nat
    requires capacity.Some? ==> capacity.value >= 1
  {
    if capacity.None? || |s| <= capacity.value then |s| else capacity.value
  }

  function ResolveRoster(r: seq<Public>, malformed: seq<Problem>, now: Instant, capacity: Option<int>): Resolution
    requires capacity.Some? ==> capacity.value >= 1
  {
    var live := Select(r, InBucket(Live, now));
    var source := Select(live, IsSource());
    Resolution(
      live, source, Select(live, IsNotSource()),
      source[..Taken(source, capacity)], source[Taken(source, capacity)..],
      Select(r, InBucket(Ended, now)), Select(r, InBucket(Lapsed, now)), Select(r, InBucket(Ambiguous, now)),
      malformed)
  }

  function RosterOf(cs: seq<Comment>): seq<Public>
    ensures Sound(After(cs))
  {
    FoldSound(EMPTY, AllEvents(cs));
    Roster(After(cs), Disordered(cs))
  }

  function Resolve(cs: seq<Comment>, now: Instant, capacity: Option<int>): Result<Resolution, ResolveError> {
    if capacity.Some? && capacity.value < 1 then Err(CapacityTooSmall)
    else Ok(ResolveRoster(RosterOf(cs), Malformed(cs), now, capacity))
  }

  // ---- Sorting by claim order -------------------------------------------------------------------

  predicate Ordered(s: seq<Public>) { forall i, j :: 0 <= i < j < |s| ==> s[i].order < s[j].order }

  function Insert(p: Public, s: seq<Public>): (r: seq<Public>)
    ensures forall x :: x in r <==> x == p || x in s
    ensures |r| == |s| + 1
  {
    if s == [] || p.order <= s[0].order then [p] + s else [s[0]] + Insert(p, s[1..])
  }

  /** A stable sort by claim order. */
  function SortByOrder(s: seq<Public>): (r: seq<Public>)
    ensures forall x :: x in r <==> x in s
    ensures |r| == |s|
  {
    if s == [] then [] else Insert(s[0], SortByOrder(s[1..]))
  }

  lemma {:induction false} SortedStays(s: seq<Public>)
    requires Ordered(s)
    ensures SortByOrder(s) == s
  {
    if s != [] { SortedStays(s[1..]); }
  }

  lemma {:induction false} SelectOrdered(s: seq<Public>, keep: Public -> bool)
    requires Ordered(s)
    ensures Ordered(Select(s, keep))
  {
    if s != [] {
      var n := |s| - 1;
      SelectOrdered(s[..n], keep);
      var rest := Select(s[..n], keep);
      forall i | 0 <= i < |rest| ensures rest[i].order < s[n].order { assert rest[i] in s[..n]; }
    }
  }

  // ---- The imperative resolution ------------------------------------------------------------------

  method Classify(r: seq<Public>, now: Instant)
    returns (live: seq<Public>, released: seq<Public>, expired: seq<Public>, ambiguous: seq<Public>)
    ensures live == Select(r, InBucket(Live, now)) && released == Select(r, InBucket(Ended, now))
    ensures expired == Select(r, InBucket(Lapsed, now)) && ambiguous == Select(r, InBucket(Ambiguous, now))
  {
    live, released, expired, ambiguous := [], [], [], [];
    for i := 0 to |r|
      invariant live == Select(r[..i], InBucket(Live, now)) && released == Select(r[..i], InBucket(Ended, now))
      invariant expired == Select(r[..i], InBucket(Lapsed, now))
      invariant ambiguous == Select(r[..i], InBucket(Ambiguous, now))
    {
      assert r[..i + 1][..i] == r[..i];
      var run := r[i].run;
      if run.ambiguous || run.latest == Confused || run.lease.None? {
        ambiguous := ambiguous + [r[i]];
      } else if run.latest == Released {
        released := released + [r[i]];
      } else if run.lease.value <= now {
        expired := expired + [r[i]];
      } else {
        live := live + [r[i]];
      }
    }
    assert r[..|r|] == r;
  }

  method SplitSource(live: seq<Public>) returns (source: seq<Public>, other: seq<Public>)
    ensures source == Select(live, IsSource()) && other == Select(live, IsNotSource())
  {
    source, other := [], [];
    for i := 0 to |live|
      invariant source == Select(live[..i], IsSource()) && other == Select(live[..i], IsNotSource())
    {
      assert live[..i + 1][..i] == live[..i];
      if live[i].run.mode == SOURCE_MUTATION { source := source + [live[i]]; } else { other := other + [live[i]]; }
    }
    assert live[..|live|] == live;
  }

  /** Folds the comments and takes all ownership from a disordered history. */
  method FoldRoster(cs: seq<Comment>) returns (roster: seq<Public>, malformed: seq<Problem>)
    ensures roster == RosterOf(cs) && malformed == Malformed(cs)
  {
    var l, problems, disordered := FoldComments(cs);
    FoldSound(EMPTY, AllEvents(cs));
    if disordered {
      var runs := map id | id in l.runs :: Confuse(l.runs[id]);
      l := l.(runs := runs);
    }
    return Roster(l, false), problems;
  }

  method ResolveComments(cs: seq<Comment>, now: Instant, capacity: Option<int>)
    returns (r: Result<Resolution, ResolveError>)
    ensures r == Resolve(cs, now, capacity)
  {
    if capacity.Some? && capacity.value < 1 { return Err(CapacityTooSmall); }
    var roster, malformed := FoldRoster(cs);
    var live, released, expired, ambiguous := Classify(roster, now);
    SelectOrdered(roster, InBucket(Live, now));
    SortedStays(live);
    live := SortByOrder(live);
    var source, other := SplitSource(live);
    var n := Taken(source, capacity);
    return Ok(Resolution(live, source, other, source[..n], source[n..], released, expired, ambiguous, malformed));
  }

  // ---- Isolation: a run depends only on the events that name it -------------------------------------

  lemma MentionsOne(e: Event)
    requires !Repeats(e)
    ensures forall id :: id in Mentions(e) <==> id == First(e, RunId) && id != BLANK
  {
    var vs := Values(e, RunId);
    assert |vs| <= 1;
  }

  lemma GetStep(l: Ledger, e: Event, id: Text)
    ensures Get(Step(l, e), id) == if id in Mentions(e) then StepRun(Get(l, id), e) else Get(l, id)
  {
    if !Repeats(e) { MentionsOne(e); }
  }

  /** The events that name a run. */
  function OwnEvents(es: seq<Event>, id: Text): seq<Event> {
    if es == [] then []
    else OwnEvents(es[..|es| - 1], id) + if id in Mentions(es[|es| - 1]) then [es[|es| - 1]] else []
  }

  function RunFrom(start: Option<Run>, h: seq<Event>): Option<Run> {
    if h == [] then start else StepRun(RunFrom(start, h[..|h| - 1]), h[|h| - 1])
  }

  lemma RunSnoc(start: Option<Run>, h: seq<Event>, e: Event)
    ensures RunFrom(start, h + [e]) == StepRun(RunFrom(start, h), e)
  {
    assert (h + [e])[..|h|] == h;
  }

  /** Folding the whole ledger and looking a run up is folding that run's own events alone. */
  lemma {:induction false} Isolation(l: Ledger, es: seq<Event>, id: Text)
    ensures Get(Fold(l, es), id) == RunFrom(Get(l, id), OwnEvents(es, id))
  {
    if es != [] {
      var n := |es| - 1;
      Isolation(l, es[..n], id);
      GetStep(Fold(l, es[..n]), es[n], id);
      RunSnoc(Get(l, id), OwnEvents(es[..n], id), es[n]);
      if id !in Mentions(es[n]) { assert OwnEvents(es, id) == OwnEvents(es[..n], id); }
    }
  }

  // ---- When exactly a run is live ----------------------------------------------------------------------

  predicate CleanClaim(e: Event) { !Repeats(e) && KindOf(e.header) == Claim }

  /** Event `i` is the run's first claim, it is complete, and everything after it is a fitting renewal. */
  predicate Unbroken(h: seq<Event>, i: nat) {
    && i < |h| && CleanClaim(h[i]) && CompleteClaim(h[i])
    && (forall j :: 0 <= j < i ==> !CleanClaim(h[j]))
    && (forall j :: i < j < |h| ==> Fits(Opened(h[i]), h[j]))
  }

  predicate Healthy(run: Run) { !run.ambiguous && run.latest != Confused && run.latest != Released }

  predicate SameIdentity(a: Run, b: Run) {
    a.task == b.task && a.key == b.key && a.account == b.account && a.mode == b.mode && a.slice == b.slice
    && a.claimedAt == b.claimedAt
  }

  lemma FitsIgnoresLease(a: Run, b: Run, e: Event)
    requires SameIdentity(a, b)
    ensures Fits(a, e) <==> Fits(b, e)
  {
    assert forall name :: Held(a, name) == Held(b, name);
  }

  predicate FirstClaimAt(h: seq<Event>, i: nat) {
    i < |h| && CleanClaim(h[i]) && forall j :: 0 <= j < i ==> !CleanClaim(h[j])
  }

  /** What a state says about the events that led to it. */
  predicate Reflects(run: Run, h: seq<Event>, i: nat) {
    && FirstClaimAt(h, i) && SameIdentity(run, Opened(h[i]))
    && (Healthy(run) <==> Unbroken(h, i))
    && (Healthy(run) ==> run.lease == ParseInstant(First(h[|h| - 1], LeaseUntil)))
    && (run.lease.None? || run.latest == Confused ==> run.ambiguous)
  }

  lemma UnbrokenSnoc(h: seq<Event>, e: Event, i: nat)
    requires i < |h|
    ensures Unbroken(h + [e], i) <==> Unbroken(h, i) && Fits(Opened(h[i]), e)
    ensures FirstClaimAt(h + [e], i) <==> FirstClaimAt(h, i)
  {
    var all := h + [e];
    assert all[..|h|] == h && all[|h|] == e;
    assert forall j :: 0 <= j < |h| ==> all[j] == h[j];
  }

  lemma ReflectsSnoc(run: Run, h: seq<Event>, e: Event, i: nat)
    requires Reflects(run, h, i)
    ensures Reflects(StepRun(Some(run), e).value, h + [e], i)
  {
    UnbrokenSnoc(h, e, i);
    FitsIgnoresLease(run, Opened(h[i]), e);
    assert (h + [e])[i] == h[i];
  }

  /** What a run's own events say about it, event by event. */
  lemma {:induction false} History(h: seq<Event>) returns (i: nat)
    ensures var run := RunFrom(None, h);
            if run.None? then forall j :: 0 <= j < |h| ==> !CleanClaim(h[j])
            else Reflects(run.value, h, i)
  {
    i := 0;
    if h != [] {
      var n := |h| - 1;
      assert h == h[..n] + [h[n]];
      i := History(h[..n]);
      if RunFrom(None, h[..n]).None? {
        i := n;
      } else {
        ReflectsSnoc(RunFrom(None, h[..n]).value, h[..n], h[n], i);
      }
    }
  }

  function OwnHistory(cs: seq<Comment>, id: Text): seq<Event> { OwnEvents(AllEvents(cs), id) }

  function StateOf(cs: seq<Comment>, id: Text): Option<Run> {
    match Get(After(cs), id)
    case None => None
    case Some(run) => Some(Shown(run, Disordered(cs)))
  }

  /**
   * A run is live exactly when the comments are in server order, its first claim is complete, every
   * later event that names it is a renewal that fits the claim, and the last lease is still ahead.
   */
  lemma LiveExactly(cs: seq<Comment>, id: Text, now: Instant)
    ensures (StateOf(cs, id).Some? && BucketOf(StateOf(cs, id).value, now) == Live) <==>
            var h := OwnHistory(cs, id);
            && !Disordered(cs) && h != []
            && (exists i: nat :: Unbroken(h, i))
            && ParseInstant(First(h[|h| - 1], LeaseUntil)).Some?
            && now < ParseInstant(First(h[|h| - 1], LeaseUntil)).value
  {
    var h := OwnHistory(cs, id);
    Isolation(EMPTY, AllEvents(cs), id);
    var i := History(h);
    forall j: nat | Unbroken(h, j) ensures RunFrom(None, h).Some? && i == j {}
  }

  // ---- When exactly a run is released, lapsed or ambiguous ------------------------------------------------

  predicate CleanRelease(e: Event) { !Repeats(e) && KindOf(e.header) == Release }

  /** Until event `k` nothing broke the claim at `i`, and from then on the run was only released. */
  predicate ReleasedAt(h: seq<Event>, i: nat, k: nat) {
    i < k < |h| && Unbroken(h[..k], i) && forall j :: k <= j < |h| ==> CleanRelease(h[j])
  }

  ghost predicate ReleasedCleanly(h: seq<Event>, i: nat) { exists k: nat :: ReleasedAt(h, i, k) }

  predicate EndedRun(run: Run) { !run.ambiguous && run.latest == Released && run.lease.Some? }

  lemma ReleasedSnoc(h: seq<Event>, e: Event, i: nat)
    ensures ReleasedCleanly(h + [e], i) <==> CleanRelease(e) && (Unbroken(h, i) || ReleasedCleanly(h, i))
  {
    var all := h + [e];
    assert all[|h|] == e && all[..|h|] == h;
    forall k | 0 <= k < |h| ensures ReleasedAt(all, i, k) <==> ReleasedAt(h, i, k) && CleanRelease(e) {
      assert all[..k] == h[..k];
      assert forall j :: 0 <= j < |h| ==> all[j] == h[j];
    }
    if CleanRelease(e) && Unbroken(h, i) { assert ReleasedAt(all, i, |h|); }
    if CleanRelease(e) && ReleasedCleanly(h, i) {
      var k: nat :| ReleasedAt(h, i, k);
      assert ReleasedAt(all, i, k);
    }
  }

  lemma UnbrokenLease(h: seq<Event>, i: nat)
    requires Unbroken(h, i)
    ensures ParseInstant(First(h[|h| - 1], LeaseUntil)).Some?
  {
    if i < |h| - 1 { assert Fits(Opened(h[i]), h[|h| - 1]); }
  }

  /** A run has ended exactly when its own events are an unbroken claim and then releases alone. */
  lemma {:induction false} EndedHistory(h: seq<Event>, i: nat)
    requires RunFrom(None, h).Some? && Reflects(RunFrom(None, h).value, h, i)
    ensures EndedRun(RunFrom(None, h).value) <==> ReleasedCleanly(h, i)
  {
    var n := |h| - 1;
    var before, e := h[..n], h[n];
    assert h == before + [e];
    ReleasedSnoc(before, e, i);
    var prior := RunFrom(None, before);
    var at := History(before);
    if prior.Some? {
      assert at == i by { UnbrokenSnoc(before, e, at); }
      EndedHistory(before, i);
      if Unbroken(before, i) { UnbrokenLease(before, i); }
    }
  }

  /** The lease that an unbroken history ends with. */
  predicate LeaseAt(h: seq<Event>, lease: Instant) {
    h != [] && ParseInstant(First(h[|h| - 1], LeaseUntil)) == Some(lease)
  }

  predicate WasClaimed(h: seq<Event>) { exists j :: 0 <= j < |h| && CleanClaim(h[j]) }

  ghost predicate Intact(h: seq<Event>) { exists i: nat :: Unbroken(h, i) }

  ghost predicate ReleasedWhole(h: seq<Event>) { exists i: nat :: ReleasedCleanly(h, i) }

  lemma StateIsHistory(cs: seq<Comment>, id: Text)
    ensures StateOf(cs, id) ==
            match RunFrom(None, OwnHistory(cs, id))
            case None => None
            case Some(run) => Some(Shown(run, Disordered(cs)))
  {
    Isolation(EMPTY, AllEvents(cs), id);
  }

  lemma ReleasedFirst(h: seq<Event>, i: nat)
    requires ReleasedCleanly(h, i)
    ensures FirstClaimAt(h, i)
  {
    var k: nat :| ReleasedAt(h, i, k);
    assert h[..k][i] == h[i];
    forall j | 0 <= j < i ensures !CleanClaim(h[j]) { assert h[..k][j] == h[j]; }
  }

  lemma OneFirstClaim(h: seq<Event>, i: nat, j: nat)
    requires FirstClaimAt(h, i) && FirstClaimAt(h, j)
    ensures i == j
  {
  }

  lemma EndedWhole(h: seq<Event>)
    ensures (RunFrom(None, h).Some? && EndedRun(RunFrom(None, h).value)) <==> ReleasedWhole(h)
  {
    var i := History(h);
    if ReleasedWhole(h) {
      var j: nat :| ReleasedCleanly(h, j);
      ReleasedFirst(h, j);
      assert RunFrom(None, h).Some?;
      OneFirstClaim(h, i, j);
    }
    if RunFrom(None, h).Some? { EndedHistory(h, i); }
  }

  lemma HealthyWhole(h: seq<Event>)
    ensures (RunFrom(None, h).Some? && Healthy(RunFrom(None, h).value)) <==> Intact(h)
    ensures Intact(h) ==> RunFrom(None, h).value.lease.Some? && LeaseAt(h, RunFrom(None, h).value.lease.value)
    ensures RunFrom(None, h).Some? <==> WasClaimed(h)
    ensures RunFrom(None, h).Some? ==>
              var run := RunFrom(None, h).value; run.lease.None? || run.latest == Confused ==> run.ambiguous
  {
    var i := History(h);
    if Intact(h) {
      var j: nat :| Unbroken(h, j);
      assert RunFrom(None, h).Some?;
      OneFirstClaim(h, i, j);
      UnbrokenLease(h, j);
    }
  }

  /** A run is released exactly when, in server order, its events are an unbroken claim and then only releases. */
  lemma EndedExactly(cs: seq<Comment>, id: Text, now: Instant)
    ensures (StateOf(cs, id).Some? && BucketOf(StateOf(cs, id).value, now) == Ended) <==>
            !Disordered(cs) && ReleasedWhole(OwnHistory(cs, id))
  {
    StateIsHistory(cs, id);
    EndedWhole(OwnHistory(cs, id));
    HealthyWhole(OwnHistory(cs, id));
  }

  /** A run has lapsed exactly when its history is unbroken and its last lease is at or before the clock. */
  lemma LapsedExactly(cs: seq<Comment>, id: Text, now: Instant)
    ensures (StateOf(cs, id).Some? && BucketOf(StateOf(cs, id).value, now) == Lapsed) <==>
            var h := OwnHistory(cs, id);
            !Disordered(cs) && Intact(h) && exists lease :: LeaseAt(h, lease) && lease <= now
  {
    StateIsHistory(cs, id);
    HealthyWhole(OwnHistory(cs, id));
  }

  /** Every other claimed run is ambiguous. */
  lemma AmbiguousExactly(cs: seq<Comment>, id: Text, now: Instant)
    ensures (StateOf(cs, id).Some? && BucketOf(StateOf(cs, id).value, now) == Ambiguous) <==>
            var h := OwnHistory(cs, id);
            WasClaimed(h) && (Disordered(cs) || (!Intact(h) && !ReleasedWhole(h)))
  {
    StateIsHistory(cs, id);
    EndedWhole(OwnHistory(cs, id));
    HealthyWhole(OwnHistory(cs, id));
  }

  predicate Identified(run: Run) {
    && run.task != BLANK && run.key != BLANK && run.account != BLANK && run.mode != BLANK && run.slice != BLANK
    && run.claimedAt.Some?
  }

  lemma {:induction false} UnambiguousIsIdentified(h: seq<Event>)
    ensures RunFrom(None, h).Some? && !RunFrom(None, h).value.ambiguous ==> Identified(RunFrom(None, h).value)
  {
    if h != [] { UnambiguousIsIdentified(h[..|h| - 1]); }
  }

  /** Only a run with a complete identity and a claim time is ever listed as anything but ambiguous. */
  lemma ListedIsIdentified(cs: seq<Comment>, id: Text, now: Instant)
    requires StateOf(cs, id).Some? && BucketOf(StateOf(cs, id).value, now) != Ambiguous
    ensures Identified(StateOf(cs, id).value)
  {
    StateIsHistory(cs, id);
    UnambiguousIsIdentified(OwnHistory(cs, id));
  }

  // ---- Extensions ---------------------------------------------------------------------------------------

  predicate Doomed(run: Run) { run.ambiguous || run.latest == Released }

  lemma {:induction false} DoomedStays(run: Run, h: seq<Event>)
    ensures RunFrom(Some(run), h).Some?
    ensures SameIdentity(RunFrom(Some(run), h).value, run)
    ensures run.ambiguous ==> RunFrom(Some(run), h).value.ambiguous
    ensures Doomed(run) ==> Doomed(RunFrom(Some(run), h).value)
    ensures (forall i :: 0 <= i < |h| ==> KindOf(h[i].header) != Renew || Repeats(h[i])) ==>
              RunFrom(Some(run), h).value.lease == run.lease
  {
    if h != [] { DoomedStays(run, h[..|h| - 1]); }
  }

  lemma Extended(cs: seq<Comment>, more: seq<Comment>, id: Text)
    ensures Get(After(cs + more), id) == RunFrom(Get(After(cs), id), OwnEvents(AllEvents(more), id))
    ensures Sound(After(cs)) && Sound(After(cs + more)) && After(cs).order <= After(cs + more).order
  {
    AllEventsAppend(cs, more);
    FoldAppend(EMPTY, AllEvents(cs), AllEvents(more));
    Isolation(After(cs), AllEvents(more), id);
    FoldSound(EMPTY, AllEvents(cs));
    FoldSound(After(cs), AllEvents(more));
  }

  lemma LeaselessIsAmbiguous(cs: seq<Comment>, id: Text)
    ensures StateOf(cs, id).Some? && (StateOf(cs, id).value.lease.None? || StateOf(cs, id).value.latest == Confused) ==>
              StateOf(cs, id).value.ambiguous
  {
    Isolation(EMPTY, AllEvents(cs), id);
    var i := History(OwnHistory(cs, id));
  }

  /** Once ambiguous or released, no extension and no clock makes a run live, or a confused run released. */
  lemma NeverLiveAgain(cs: seq<Comment>, more: seq<Comment>, id: Text, now: Instant, later: Instant)
    requires StateOf(cs, id).Some? && BucketOf(StateOf(cs, id).value, now) in {Ambiguous, Ended}
    ensures StateOf(cs + more, id).Some?
    ensures BucketOf(StateOf(cs + more, id).value, later) in {Ambiguous, Ended}
    ensures BucketOf(StateOf(cs, id).value, now) == Ambiguous ==>
              BucketOf(StateOf(cs + more, id).value, later) == Ambiguous
  {
    LeaselessIsAmbiguous(cs, id);
    LeaselessIsAmbiguous(cs + more, id);
    Extended(cs, more, id);
    DoomedStays(Get(After(cs), id).value, OwnEvents(AllEvents(more), id));
    if Disordered(cs) { DisorderedGrows(cs, more); }
  }

  // ---- The clock ------------------------------------------------------------------------------------------

  lemma {:induction false} SelectSame(s: seq<Public>, a: Public -> bool, b: Public -> bool)
    requires forall p :: p in s ==> a(p) == b(p)
    ensures Select(s, a) == Select(s, b)
  {
    if s != [] {
      assert forall p :: p in s[..|s| - 1] ==> p in s;
      SelectSame(s[..|s| - 1], a, b);
    }
  }

  lemma {:induction false} SelectTwice(s: seq<Public>, a: Public -> bool, b: Public -> bool)
    ensures Select(Select(s, a), b) == Select(s, (p: Public) => a(p) && b(p))
  {
    if s != [] {
      var n := |s| - 1;
      SelectTwice(s[..n], a, b);
      if a(s[n]) {
        var rest := Select(s[..n], a);
        assert (rest + [s[n]])[..|rest|] == rest;
      }
    }
  }

  /** The ambiguous and released lists do not depend on the clock; the live list only loses members. */
  lemma OnlyLiveShrinks(cs: seq<Comment>, now: Instant, later: Instant, capacity: Option<int>)
    requires now <= later && (capacity.Some? ==> capacity.value >= 1)
    ensures var a, b := Resolve(cs, now, capacity).value, Resolve(cs, later, capacity).value;
            && a.ambiguous == b.ambiguous && a.released == b.released && a.malformed == b.malformed
            && b.live == Select(a.live, InBucket(Live, later))
            && (forall p :: p in a.expired ==> p in b.expired)
  {
    var r := RosterOf(cs);
    SelectSame(r, InBucket(Ambiguous, now), InBucket(Ambiguous, later));
    SelectSame(r, InBucket(Ended, now), InBucket(Ended, later));
    SelectTwice(r, InBucket(Live, now), InBucket(Live, later));
    var both := (p: Public) => InBucket(Live, now)(p) && InBucket(Live, later)(p);
    SelectSame(r, both, InBucket(Live, later));
  }

  // ---- One bucket each ------------------------------------------------------------------------------------

  lemma RosterCounts(r: seq<Public>)
    requires r != []
    ensures multiset(r) == multiset(r[..|r| - 1]) + multiset{r[|r| - 1]}
  {
    assert r == r[..|r| - 1] + [r[|r| - 1]];
  }

  lemma SelectCounts(r: seq<Public>, keep: Public -> bool)
    requires r != []
    ensures var last := r[|r| - 1];
            multiset(Select(r, keep)) ==
            multiset(Select(r[..|r| - 1], keep)) + if keep(last) then multiset{last} else multiset{}
  {
  }

  /** The four buckets split the roster, and the roster is one entry for each run that was ever claimed. */
  lemma {:induction false} BucketsPartition(r: seq<Public>, now: Instant)
    ensures multiset(Select(r, InBucket(Live, now))) + multiset(Select(r, InBucket(Ended, now)))
            + multiset(Select(r, InBucket(Lapsed, now))) + multiset(Select(r, InBucket(Ambiguous, now)))
            == multiset(r)
  {
    if r != [] {
      BucketsPartition(r[..|r| - 1], now);
      RosterCounts(r);
      SelectCounts(r, InBucket(Live, now));
      SelectCounts(r, InBucket(Ended, now));
      SelectCounts(r, InBucket(Lapsed, now));
      SelectCounts(r, InBucket(Ambiguous, now));
    }
  }

  lemma ClaimedExactlyOnce(cs: seq<Comment>, id: Text)
    ensures var r := RosterOf(cs);
            && (forall i, j :: 0 <= i < j < |r| ==> r[i].id != r[j].id)
            && ((exists p :: p in r && p.id == id) <==>
                exists i :: 0 <= i < |OwnHistory(cs, id)| && CleanClaim(OwnHistory(cs, id)[i]))
            && (forall p :: p in r && p.id == id ==> Some(p.run) == StateOf(cs, id))
  {
    var l := After(cs);
    var r := RosterOf(cs);
    Isolation(EMPTY, AllEvents(cs), id);
    var at := History(OwnHistory(cs, id));
    if id in l.runs {
      assert id in l.order;
      var k :| 0 <= k < |l.order| && l.order[k] == id;
      assert r[k] in r && r[k].id == id;
    }
  }

  predicate Lists(s: seq<Public>, id: Text) { exists p :: p in s && p.id == id }

  lemma BucketLists(cs: seq<Comment>, id: Text, b: Bucket, now: Instant)
    ensures Lists(Select(RosterOf(cs), InBucket(b, now)), id) <==>
            StateOf(cs, id).Some? && BucketOf(StateOf(cs, id).value, now) == b
  {
    var l := After(cs);
    var r := RosterOf(cs);
    ClaimedExactlyOnce(cs, id);
    if id in l.runs {
      assert id in l.order;
      var k :| 0 <= k < |l.order| && l.order[k] == id;
      assert r[k] in r && r[k].id == id;
    }
  }

  /** Which list shows a run is fixed by the events that name it, the comment order and the clock alone. */
  lemma ListedExactly(cs: seq<Comment>, id: Text, now: Instant, capacity: Option<int>)
    requires capacity.Some? ==> capacity.value >= 1
    ensures var r, h := Resolve(cs, now, capacity).value, OwnHistory(cs, id);
            && (Lists(r.released, id) <==> !Disordered(cs) && ReleasedWhole(h))
            && (Lists(r.live, id) <==> !Disordered(cs) && Intact(h) && exists lease :: LeaseAt(h, lease) && now < lease)
            && (Lists(r.expired, id) <==>
                !Disordered(cs) && Intact(h) && exists lease :: LeaseAt(h, lease) && lease <= now)
            && (Lists(r.ambiguous, id) <==>
                WasClaimed(h) && (Disordered(cs) || (!Intact(h) && !ReleasedWhole(h))))
  {
    BucketLists(cs, id, Ended, now);
    BucketLists(cs, id, Live, now);
    BucketLists(cs, id, Lapsed, now);
    BucketLists(cs, id, Ambiguous, now);
    EndedExactly(cs, id, now);
    LiveExactly(cs, id, now);
    LapsedExactly(cs, id, now);
    AmbiguousExactly(cs, id, now);
    LiveLease(OwnHistory(cs, id), now);
  }

  lemma LiveLease(h: seq<Event>, now: Instant)
    ensures (&& h != [] && ParseInstant(First(h[|h| - 1], LeaseUntil)).Some?
             && now < ParseInstant(First(h[|h| - 1], LeaseUntil)).value) <==>
            exists lease :: LeaseAt(h, lease) && now < lease
  {
    if h != [] && ParseInstant(First(h[|h| - 1], LeaseUntil)).Some? {
      assert LeaseAt(h, ParseInstant(First(h[|h| - 1], LeaseUntil)).value);
    }
  }

  /** Live runs are split by mode; of the source runs those claimed first are admitted, up to the capacity. */
  ghost predicate SplitByMode(r: Resolution, capacity: Option<int>) {
    && (forall p :: p in r.sourceLive <==> p in r.live && p.run.mode == SOURCE_MUTATION)
    && (forall p :: p in r.nonSourceLive <==> p in r.live && p.run.mode != SOURCE_MUTATION)
    && r.admitted + r.collisions == r.sourceLive && Ordered(r.sourceLive)
    && (capacity.None? ==> r.collisions == [])
    && (capacity.Some? ==> |r.admitted| <= capacity.value && (r.collisions != [] ==> |r.admitted| == capacity.value))
  }

  lemma CutJoins(s: seq<Public>, n: nat)
    requires n <= |s|
    ensures s[..n] + s[n..] == s && |s[..n]| == n && (s[n..] == [] <==> n == |s|)
  {
  }

  lemma RosterSplit(roster: seq<Public>, malformed: seq<Problem>, now: Instant, capacity: Option<int>)
    requires Ordered(roster) && (capacity.Some? ==> capacity.value >= 1)
    ensures SplitByMode(ResolveRoster(roster, malformed, now, capacity), capacity)
  {
    var live := Select(roster, InBucket(Live, now));
    var source := Select(live, IsSource());
    SelectOrdered(roster, InBucket(Live, now));
    SelectOrdered(live, IsSource());
    CutJoins(source, Taken(source, capacity));
  }

  lemma LiveSplitExactly(cs: seq<Comment>, now: Instant, capacity: Option<int>)
    requires capacity.Some? ==> capacity.value >= 1
    ensures SplitByMode(Resolve(cs, now, capacity).value, capacity)
  {
    RosterInOrder(cs);
    RosterSplit(RosterOf(cs), Malformed(cs), now, capacity);
  }

  lemma RosterInOrder(cs: seq<Comment>)
    ensures Ordered(RosterOf(cs))
  {
  }

  // ---- Non-displacement -------------------------------------------------------------------------------------

  /** How many of the first `n` entries are kept. */
  function Rank(s: seq<Public>, keep: Public -> bool, n: nat): nat
    requires n <= |s|
  {
    |Select(s[..n], keep)|
  }

  /** A kept entry stands at its rank in the selection. */
  lemma {:induction false} SelectAt(s: seq<Public>, keep: Public -> bool, n: nat)
    requires n < |s| && keep(s[n])
    ensures Rank(s, keep, n) < |Select(s, keep)| && Select(s, keep)[Rank(s, keep, n)] == s[n]
  {
    var last := |s| - 1;
    if n < last {
      SelectAt(s[..last], keep, n);
      assert s[..last][..n] == s[..n];
    }
  }

  lemma RankSnoc(s: seq<Public>, keep: Public -> bool, n: nat)
    requires 0 < n <= |s|
    ensures Rank(s, keep, n) == Rank(s, keep, n - 1) + if keep(s[n - 1]) then 1 else 0
  {
    assert s[..n][..n - 1] == s[..n - 1];
  }

  lemma {:induction false} RankMonotone(
    a: seq<Public>, b: seq<Public>, keepA: Public -> bool, keepB: Public -> bool, n: nat)
    requires n <= |a| && n <= |b|
    requires forall i :: 0 <= i < n && keepB(b[i]) ==> keepA(a[i])
    ensures Rank(b, keepB, n) <= Rank(a, keepA, n)
  {
    if n > 0 {
      RankMonotone(a, b, keepA, keepB, n - 1);
      RankSnoc(a, keepA, n);
      RankSnoc(b, keepB, n);
    } else {
      assert b[..0] == [];
    }
  }

  predicate LiveSource(p: Public, now: Instant) { BucketOf(p.run, now) == Live && p.run.mode == SOURCE_MUTATION }

  function ByLiveSource(now: Instant): Public -> bool { (p: Public) => LiveSource(p, now) }

  /** A live source run is admitted exactly when fewer than `capacity` of the runs claimed before it are live. */
  lemma AdmittedByRank(r: seq<Public>, malformed: seq<Problem>, now: Instant, capacity: int, n: nat)
    requires Ordered(r) && capacity >= 1 && n < |r| && LiveSource(r[n], now)
    ensures r[n] in ResolveRoster(r, malformed, now, Some(capacity)).admitted <==>
            Rank(r, ByLiveSource(now), n) < capacity
  {
    SelectTwice(r, InBucket(Live, now), IsSource());
    SelectSame(r, (p: Public) => InBucket(Live, now)(p) && IsSource()(p), ByLiveSource(now));
    var source := Select(r, ByLiveSource(now));
    var k := Rank(r, ByLiveSource(now), n);
    SelectAt(r, ByLiveSource(now), n);
    SelectOrdered(r, ByLiveSource(now));
    assert forall i :: 0 <= i < |source| && source[i] == r[n] ==> i == k;
  }

  lemma AdmittedIsLive(r: seq<Public>, malformed: seq<Problem>, now: Instant, capacity: int, p: Public)
    requires capacity >= 1 && p in ResolveRoster(r, malformed, now, Some(capacity)).admitted
    ensures p in r && LiveSource(p, now)
  {
    var live := Select(r, InBucket(Live, now));
    assert p in Select(live, IsSource());
  }

  /** Admission survives when no run claimed before it becomes live that was not live before. */
  lemma RosterKeepsAdmitted(
    a: seq<Public>, b: seq<Public>, ma: seq<Problem>, mb: seq<Problem>,
    now: Instant, later: Instant, capacity: int, n: nat)
    requires Ordered(a) && Ordered(b) && capacity >= 1 && n < |a| && n < |b|
    requires a[n] in ResolveRoster(a, ma, now, Some(capacity)).admitted && LiveSource(b[n], later)
    requires forall i :: 0 <= i < n && LiveSource(b[i], later) ==> LiveSource(a[i], now)
    ensures b[n] in ResolveRoster(b, mb, later, Some(capacity)).admitted
  {
    AdmittedIsLive(a, ma, now, capacity, a[n]);
    AdmittedByRank(a, ma, now, capacity, n);
    RankMonotone(a, b, ByLiveSource(now), ByLiveSource(later), n);
    AdmittedByRank(b, mb, later, capacity, n);
  }

  /** The extension renews a run whose lease had already lapsed at `now`. */
  predicate Revives(cs: seq<Comment>, now: Instant, more: seq<Comment>, id: Text) {
    && StateOf(cs, id).Some? && BucketOf(StateOf(cs, id).value, now) == Lapsed
    && exists i :: 0 <= i < |OwnEvents(AllEvents(more), id)| &&
         KindOf(OwnEvents(AllEvents(more), id)[i].header) == Renew && !Repeats(OwnEvents(AllEvents(more), id)[i])
  }

  lemma RosterAt(cs: seq<Comment>, n: nat)
    requires n < |RosterOf(cs)|
    ensures Sound(After(cs)) && n < |After(cs).order| && StateOf(cs, After(cs).order[n]).Some?
    ensures RosterOf(cs)[n] == Public(After(cs).order[n], n, StateOf(cs, After(cs).order[n]).value)
  {
  }

  lemma ModeStays(cs: seq<Comment>, more: seq<Comment>, id: Text)
    requires StateOf(cs, id).Some?
    ensures StateOf(cs + more, id).Some? && StateOf(cs + more, id).value.mode == StateOf(cs, id).value.mode
  {
    Extended(cs, more, id);
    DoomedStays(Get(After(cs), id).value, OwnEvents(AllEvents(more), id));
  }

  /** A run that the extension does not renew keeps its lease, or loses its health. */
  lemma LeaseStays(cs: seq<Comment>, more: seq<Comment>, id: Text)
    requires StateOf(cs, id).Some?
    requires forall i :: 0 <= i < |OwnEvents(AllEvents(more), id)| ==>
               KindOf(OwnEvents(AllEvents(more), id)[i].header) != Renew || Repeats(OwnEvents(AllEvents(more), id)[i])
    ensures StateOf(cs + more, id).Some? && StateOf(cs + more, id).value.lease == StateOf(cs, id).value.lease
  {
    Extended(cs, more, id);
    DoomedStays(Get(After(cs), id).value, OwnEvents(AllEvents(more), id));
  }

  lemma StateWasLive(cs: seq<Comment>, more: seq<Comment>, now: Instant, later: Instant, id: Text)
    requires now <= later && StateOf(cs, id).Some? && !Revives(cs, now, more, id)
    ensures StateOf(cs + more, id).Some?
    ensures BucketOf(StateOf(cs + more, id).value, later) == Live ==> BucketOf(StateOf(cs, id).value, now) == Live
  {
    ModeStays(cs, more, id);
    if BucketOf(StateOf(cs, id).value, now) == Lapsed {
      LeaseStays(cs, more, id);
    } else if BucketOf(StateOf(cs, id).value, now) in {Ambiguous, Ended} {
      NeverLiveAgain(cs, more, id, now, later);
    }
  }

  lemma SamePlace(cs: seq<Comment>, more: seq<Comment>, n: nat)
    requires n < |RosterOf(cs)|
    ensures n < |RosterOf(cs + more)| && RosterOf(cs + more)[n].id == RosterOf(cs)[n].id
  {
    Extended(cs, more, RosterOf(cs)[n].id);
    assert |RosterOf(cs)| == |After(cs).order| && |RosterOf(cs + more)| == |After(cs + more).order|;
  }

  /** The claim mode is fixed by the first claim. */
  lemma SourceStays(cs: seq<Comment>, more: seq<Comment>, n: nat)
    requires n < |RosterOf(cs)| && n < |RosterOf(cs + more)| && RosterOf(cs + more)[n].id == RosterOf(cs)[n].id
    ensures RosterOf(cs + more)[n].run.mode == RosterOf(cs)[n].run.mode
  {
    var id := RosterOf(cs)[n].id;
    RosterAt(cs, n);
    RosterAt(cs + more, n);
    ModeStays(cs, more, id);
  }

  lemma LiveWasLive(cs: seq<Comment>, more: seq<Comment>, now: Instant, later: Instant, n: nat)
    requires now <= later && n < |RosterOf(cs)| && n < |RosterOf(cs + more)|
    requires RosterOf(cs + more)[n].id == RosterOf(cs)[n].id
    requires !Revives(cs, now, more, RosterOf(cs)[n].id)
    requires LiveSource(RosterOf(cs + more)[n], later)
    ensures LiveSource(RosterOf(cs)[n], now)
  {
    RosterAt(cs, n);
    RosterAt(cs + more, n);
    SourceStays(cs, more, n);
    StateWasLive(cs, more, now, later, RosterOf(cs)[n].id);
  }

  /** Earlier claimed runs that were not live at `now` and are at `later`. */
  function Returned(a: seq<Public>, b: seq<Public>, now: Instant, later: Instant, n: nat): nat
    requires n <= |a| && n <= |b|
  {
    if n == 0 then 0
    else Returned(a, b, now, later, n - 1)
         + if LiveSource(b[n - 1], later) && !LiveSource(a[n - 1], now) then 1 else 0
  }

  /** Earlier claimed runs that were live at `now` and are not at `later`. */
  function Departed(a: seq<Public>, b: seq<Public>, now: Instant, later: Instant, n: nat): nat
    requires n <= |a| && n <= |b|
  {
    if n == 0 then 0
    else Departed(a, b, now, later, n - 1)
         + if LiveSource(a[n - 1], now) && !LiveSource(b[n - 1], later) then 1 else 0
  }

  lemma {:induction false} RankMoves(a: seq<Public>, b: seq<Public>, now: Instant, later: Instant, n: nat)
    requires n <= |a| && n <= |b|
    ensures Rank(b, ByLiveSource(later), n) + Departed(a, b, now, later, n)
            == Rank(a, ByLiveSource(now), n) + Returned(a, b, now, later, n)
  {
    if n == 0 {
      assert a[..0] == [] && b[..0] == [];
    } else {
      RankMoves(a, b, now, later, n - 1);
      RankSnoc(a, ByLiveSource(now), n);
      RankSnoc(b, ByLiveSource(later), n);
    }
  }

  lemma {:induction false} NobodyReturned(a: seq<Public>, b: seq<Public>, now: Instant, later: Instant, n: nat)
    requires n <= |a| && n <= |b|
    ensures Returned(a, b, now, later, n) == 0 <==>
            forall i :: 0 <= i < n && LiveSource(b[i], later) ==> LiveSource(a[i], now)
  {
    if n > 0 { NobodyReturned(a, b, now, later, n - 1); }
  }

  /**
   * An admitted run that is still live after any extension and later clock is still admitted exactly
   * when fewer than `capacity` of the runs claimed before it are live then: when the earlier runs that
   * came back do not outnumber the free slots and the earlier runs that left.
   */
  lemma StaysAdmittedExactly(
    cs: seq<Comment>, more: seq<Comment>, now: Instant, later: Instant, capacity: int, n: nat)
    requires capacity >= 1 && n < |RosterOf(cs)|
    requires RosterOf(cs)[n] in Resolve(cs, now, Some(capacity)).value.admitted
    requires n < |RosterOf(cs + more)| && BucketOf(RosterOf(cs + more)[n].run, later) == Live
    ensures RosterOf(cs + more)[n].id == RosterOf(cs)[n].id
    ensures var a := RosterOf(cs);
            var b := RosterOf(cs + more);
            var stays := b[n] in Resolve(cs + more, later, Some(capacity)).value.admitted;
            && (stays <==> Rank(b, ByLiveSource(later), n) < capacity)
            && (stays <==> Rank(a, ByLiveSource(now), n) + Returned(a, b, now, later, n)
                           < capacity + Departed(a, b, now, later, n))
  {
    var a, b := RosterOf(cs), RosterOf(cs + more);
    AdmittedIsLive(a, Malformed(cs), now, capacity, a[n]);
    SamePlace(cs, more, n);
    SourceStays(cs, more, n);
    AdmittedByRank(b, Malformed(cs + more), later, capacity, n);
    RankMoves(a, b, now, later, n);
  }

  /** The extension renews a source run claimed before place `n` that had lapsed at `now`. */
  predicate RevivesEarlier(cs: seq<Comment>, now: Instant, more: seq<Comment>, n: nat)
    requires n <= |RosterOf(cs)|
  {
    exists i :: 0 <= i < n && RosterOf(cs)[i].run.mode == SOURCE_MUTATION && Revives(cs, now, more, RosterOf(cs)[i].id)
  }

  /** Only a renewal after the lease lapsed brings an earlier claimed run back. */
  lemma OnlyRevivalsReturn(cs: seq<Comment>, more: seq<Comment>, now: Instant, later: Instant, n: nat)
    requires now <= later && n <= |RosterOf(cs)| && n <= |RosterOf(cs + more)| && !RevivesEarlier(cs, now, more, n)
    ensures forall i :: 0 <= i < n && LiveSource(RosterOf(cs + more)[i], later) ==> LiveSource(RosterOf(cs)[i], now)
    ensures Returned(RosterOf(cs), RosterOf(cs + more), now, later, n) == 0
  {
    var a, b := RosterOf(cs), RosterOf(cs + more);
    forall i | 0 <= i < n && LiveSource(b[i], later) ensures LiveSource(a[i], now) {
      SamePlace(cs, more, i);
      SourceStays(cs, more, i);
      LiveWasLive(cs, more, now, later, i);
    }
    NobodyReturned(a, b, now, later, n);
  }

  /**
   * Non-displacement: an admitted run that is still live after any extension and later clock is still
   * admitted, provided the extension renews no source run claimed before it that had lapsed at the
   * earlier clock.
   */
  lemma NotDisplaced(cs: seq<Comment>, more: seq<Comment>, now: Instant, later: Instant, capacity: int, n: nat)
    requires now <= later && capacity >= 1 && n < |RosterOf(cs)|
    requires RosterOf(cs)[n] in Resolve(cs, now, Some(capacity)).value.admitted
    requires n < |RosterOf(cs + more)| && BucketOf(RosterOf(cs + more)[n].run, later) == Live
    requires !RevivesEarlier(cs, now, more, n)
    ensures RosterOf(cs + more)[n].id == RosterOf(cs)[n].id
    ensures RosterOf(cs + more)[n] in Resolve(cs + more, later, Some(capacity)).value.admitted
  {
    var a, b := RosterOf(cs), RosterOf(cs + more);
    OnlyRevivalsReturn(cs, more, now, later, n);
    AdmittedIsLive(a, Malformed(cs), now, capacity, a[n]);
    SamePlace(cs, more, n);
    SourceStays(cs, more, n);
    RosterKeepsAdmitted(a, b, Malformed(cs), Malformed(cs + more), now, later, capacity, n);
  }
}
