/** The claim-mode fence: runs with an unknown mode are moved into the ambiguous bucket. */
module ClaimFacade {
  import opened Common
  import opened ClaimLedger
  import opened ClaimResolution

  const ALLOWED_CLAIM_MODES :=
    [SOURCE_MUTATION, Plain("INTEGRATION"), Plain("READ_ONLY_AUDIT"), Plain("RESEARCH"), Plain("CI_TRIAGE")]

  predicate BadMode(p: Public) {
    p.run.mode != BLANK && p.run.mode !in ALLOWED_CLAIM_MODES && p.id != BLANK
  }

  predicate HasId(s: seq<Public>, id: Text) { exists i :: 0 <= i < |s| && s[i].id == id }

  /** The first record seen for each run with an unknown mode. */
  function Invalid(ps: seq<Public>): (r: seq<Public>)
    ensures forall p :: p in r ==> p in ps && BadMode(p)
    ensures forall p :: p in ps && BadMode(p) ==> HasId(r, p.id)
    ensures forall i, j :: 0 <= i < j < |r| ==> r[i].id != r[j].id
  {
    if ps == [] then []
    else
      var n := |ps| - 1;
      var rest := Invalid(ps[..n]);
      assert ps == ps[..n] + [ps[n]];
      if BadMode(ps[n]) && !HasId(rest, ps[n].id) then
        var r := rest + [ps[n]];
        assert r[|rest|] == ps[n];
        assert forall id :: HasId(rest, id) ==> HasId(r, id) by {
          forall id | HasId(rest, id) ensures HasId(r, id) {
            var i :| 0 <= i < |rest| && rest[i].id == id;
            assert r[i].id == id;
          }
        }
        r
      else rest
  }

  /** All eight lists, in the order in which the fence reads them. */
  function AllBuckets(r: Resolution): seq<Public> {
    r.live + r.sourceLive + r.nonSourceLive + r.admitted + r.collisions + r.released + r.expired + r.ambiguous
  }

  function OutsideOf(s: seq<Public>): Public -> bool { (p: Public) => !HasId(s, p.id) }

  /** Replaces the record with the same run, or appends: one assignment into an insertion-ordered table. */
  function Assign(table: seq<Public>, p: Public): (r: seq<Public>)
    ensures forall x :: x in r ==> x in table || x == p
    ensures p in r
    ensures forall x :: x in table && x.id != p.id ==> x in r
  {
    if table == [] then [p]
    else if table[0].id == p.id then [p] + table[1..]
    else [table[0]] + Assign(table[1..], p)
  }

  function Overlay(table: seq<Public>, more: seq<Public>): seq<Public> {
    if more == [] then table else Assign(Overlay(table, more[..|more| - 1]), more[|more| - 1])
  }

  predicate Reported(malformed: seq<Problem>, id: Text) { Problem(InvalidClaimMode, Some(id)) in malformed }

  function NewReports(malformed: seq<Problem>, invalid: seq<Public>): (r: seq<Problem>)
    ensures forall x :: x in r ==> x.kind == InvalidClaimMode
    ensures forall p :: p in invalid && !Reported(malformed, p.id) ==> Reported(r, p.id)
    ensures (forall p :: p in invalid ==> Reported(malformed, p.id)) ==> r == []
  {
    if invalid == [] then []
    else
      var n := |invalid| - 1;
      assert invalid == invalid[..n] + [invalid[n]];
      NewReports(malformed, invalid[..n])
      + if Reported(malformed, invalid[n].id) then [] else [Problem(InvalidClaimMode, Some(invalid[n].id))]
  }

  function FailClosed(r: Resolution): Resolution {
    var invalid := Invalid(AllBuckets(r));
    if invalid == [] then r
    else
      var keep := OutsideOf(invalid);
      Resolution(
        Select(r.live, keep), Select(r.sourceLive, keep), Select(r.nonSourceLive, keep),
        Select(r.admitted, keep), Select(r.collisions, keep), Select(r.released, keep), Select(r.expired, keep),
        SortByOrder(Overlay(Overlay([], r.ambiguous), invalid)),
        r.malformed + NewReports(r.malformed, invalid))
  }

  // ---- The imperative fence ---------------------------------------------------------------------

  method FindId(s: seq<Public>, id: Text) returns (found: bool)
    ensures found == HasId(s, id)
  {
    for i := 0 to |s|
      invariant forall k :: 0 <= k < i ==> s[k].id != id
    {
      if s[i].id == id { return true; }
    }
    return false;
  }

  method CollectInvalid(ps: seq<Public>) returns (invalid: seq<Public>)
    ensures invalid == Invalid(ps)
  {
    invalid := [];
    for i := 0 to |ps|
      invariant invalid == Invalid(ps[..i])
    {
      assert ps[..i + 1][..i] == ps[..i];
      var known := FindId(invalid, ps[i].id);
      if BadMode(ps[i]) && !known { invalid := invalid + [ps[i]]; }
    }
    assert ps[..|ps|] == ps;
  }

  method DropRuns(s: seq<Public>, invalid: seq<Public>) returns (kept: seq<Public>)
    ensures kept == Select(s, OutsideOf(invalid))
  {
    kept := [];
    for i := 0 to |s|
      invariant kept == Select(s[..i], OutsideOf(invalid))
    {
      assert s[..i + 1][..i] == s[..i];
      var drop := FindId(invalid, s[i].id);
      if !drop { kept := kept + [s[i]]; }
    }
    assert s[..|s|] == s;
  }

  method Update(table: seq<Public>, more: seq<Public>) returns (r: seq<Public>)
    ensures r == Overlay(table, more)
  {
    r := table;
    for i := 0 to |more|
      invariant r == Overlay(table, more[..i])
    {
      assert more[..i + 1][..i] == more[..i];
      r := Assign(r, more[i]);
    }
    assert more[..|more|] == more;
  }

  method Report(malformed: seq<Problem>, invalid: seq<Public>) returns (r: seq<Problem>)
    ensures r == malformed + NewReports(malformed, invalid)
  {
    var added: seq<Problem> := [];
    for i := 0 to |invalid|
      invariant added == NewReports(malformed, invalid[..i])
    {
      assert invalid[..i + 1][..i] == invalid[..i];
      if Problem(InvalidClaimMode, Some(invalid[i].id)) !in malformed {
        added := added + [Problem(InvalidClaimMode, Some(invalid[i].id))];
      }
    }
    assert invalid[..|invalid|] == invalid;
    return malformed + added;
  }

  method FailClosedInvalidClaimModes(result: Resolution) returns (r: Resolution)
    ensures r == FailClosed(result)
  {
    var invalid := CollectInvalid(AllBuckets(result));
    if invalid == [] { return result; }
    var live := DropRuns(result.live, invalid);
    var sourceLive := DropRuns(result.sourceLive, invalid);
    var nonSourceLive := DropRuns(result.nonSourceLive, invalid);
    var admitted := DropRuns(result.admitted, invalid);
    var collisions := DropRuns(result.collisions, invalid);
    var released := DropRuns(result.released, invalid);
    var expired := DropRuns(result.expired, invalid);
    var ambiguous := Update([], result.ambiguous);
    ambiguous := Update(ambiguous, invalid);
    var malformed := Report(result.malformed, invalid);
    return Resolution(live, sourceLive, nonSourceLive, admitted, collisions, released, expired,
                      SortByOrder(ambiguous), malformed);
  }

  // ---- Lists over one roster ----------------------------------------------------------------------

  predicate OneRecordEach(r: seq<Public>) { forall i, j :: 0 <= i < j < |r| ==> r[i].id != r[j].id }

  /** A claim roster: one record for each run, numbered in claim order. */
  predicate IsRoster(r: seq<Public>) {
    OneRecordEach(r) && forall i :: 0 <= i < |r| ==> r[i].order == i && r[i].id != BLANK
  }

  lemma SameIdSameRecord(r: seq<Public>, p: Public, q: Public)
    requires IsRoster(r) && p in r && q in r && (p.id == q.id || p.order == q.order)
    ensures p == q
  {
  }

  lemma FirstMember(s: seq<Public>)
    ensures s != [] ==> s[0] in s
  {
  }

  lemma {:induction false} OrderedUnique(a: seq<Public>, b: seq<Public>)
    requires Ordered(a) && Ordered(b) && forall p :: p in a <==> p in b
    ensures a == b
    decreases |a|
  {
    FirstMember(a);
    FirstMember(b);
    if a == [] {
    } else {
      assert a[0] in b && b != [] && b[0] in a;
      var i :| 0 <= i < |b| && b[i] == a[0];
      var j :| 0 <= j < |a| && a[j] == b[0];
      assert i == 0 && j == 0;
      forall p ensures p in a[1..] <==> p in b[1..] {
        if p in a[1..] { assert p in b; assert p != a[0]; assert p in b[1..]; }
        if p in b[1..] { assert p in a; assert p != b[0]; assert p in a[1..]; }
      }
      OrderedUnique(a[1..], b[1..]);
    }
  }

  lemma {:induction false} InsertOrders(p: Public, s: seq<Public>)
    requires Ordered(s) && forall x :: x in s ==> x.order != p.order
    ensures Ordered(Insert(p, s))
  {
    if s != [] && s[0].order < p.order {
      InsertOrders(p, s[1..]);
      var rest := Insert(p, s[1..]);
      forall i | 0 <= i < |rest| ensures s[0].order < rest[i].order { assert rest[i] in rest; }
    }
  }

  lemma {:induction false} SortOrders(s: seq<Public>)
    requires forall i, j :: 0 <= i < j < |s| ==> s[i].order != s[j].order
    ensures Ordered(SortByOrder(s))
  {
    if s != [] {
      SortOrders(s[1..]);
      InsertOrders(s[0], SortByOrder(s[1..]));
    }
  }

  lemma {:induction false} AssignOverRoster(r: seq<Public>, table: seq<Public>, p: Public)
    requires IsRoster(r) && p in r && OneRecordEach(table) && forall x :: x in table ==> x in r
    ensures OneRecordEach(Assign(table, p)) && forall x :: x in Assign(table, p) <==> x in table || x == p
  {
    if table != [] && table[0].id != p.id {
      var tail := table[1..];
      AssignOverRoster(r, tail, p);
      assert forall x :: x in table <==> x == table[0] || x in tail;
      forall i | 0 <= i < |Assign(tail, p)| ensures Assign(tail, p)[i].id != table[0].id {
        assert Assign(tail, p)[i] in Assign(tail, p);
      }
    } else if table != [] {
      SameIdSameRecord(r, table[0], p);
    }
  }

  lemma {:induction false} OverlayOverRoster(r: seq<Public>, table: seq<Public>, more: seq<Public>)
    requires IsRoster(r) && OneRecordEach(table)
    requires forall x :: x in table || x in more ==> x in r
    ensures OneRecordEach(Overlay(table, more)) && forall x :: x in Overlay(table, more) <==> x in table || x in more
  {
    if more != [] {
      var n := |more| - 1;
      assert more == more[..n] + [more[n]];
      OverlayOverRoster(r, table, more[..n]);
      AssignOverRoster(r, Overlay(table, more[..n]), more[n]);
    }
  }

  lemma SortedOverlay(r: seq<Public>, a: seq<Public>, b: seq<Public>, want: seq<Public>)
    requires IsRoster(r) && Ordered(want)
    requires forall x :: x in a || x in b ==> x in r
    requires forall x :: x in want <==> x in a || x in b
    ensures SortByOrder(Overlay(Overlay([], a), b)) == want
  {
    OverlayOverRoster(r, [], a);
    OverlayOverRoster(r, Overlay([], a), b);
    var merged := Overlay(Overlay([], a), b);
    forall i, j | 0 <= i < j < |merged| ensures merged[i].order != merged[j].order {
      assert merged[i] in merged && merged[j] in merged;
      if merged[i].order == merged[j].order { SameIdSameRecord(r, merged[i], merged[j]); }
    }
    SortOrders(merged);
    OrderedUnique(SortByOrder(merged), want);
  }

  // ---- What the fence does to a resolution -------------------------------------------------------------

  /** The bucket of a run once unknown modes count as ambiguous. */
  function FencedBucket(p: Public, now: Instant): Bucket {
    if BadMode(p) then Ambiguous else BucketOf(p.run, now)
  }

  function InFenced(b: Bucket, now: Instant): Public -> bool { (p: Public) => FencedBucket(p, now) == b }

  lemma {:induction false} SelectAll(s: seq<Public>, keep: Public -> bool)
    requires forall p :: p in s ==> keep(p)
    ensures Select(s, keep) == s
  {
    if s != [] {
      assert s == s[..|s| - 1] + [s[|s| - 1]];
      SelectAll(s[..|s| - 1], keep);
    }
  }

  /** The bad runs found in lists that cover the roster are exactly the roster's bad runs. */
  lemma InvalidOverRoster(r: seq<Public>, ps: seq<Public>)
    requires IsRoster(r) && forall p :: p in ps ==> p in r
    requires forall p :: p in r && BadMode(p) ==> p in ps
    ensures forall p :: p in Invalid(ps) <==> p in r && BadMode(p)
    ensures forall p :: p in r ==> (OutsideOf(Invalid(ps))(p) <==> !BadMode(p))
  {
    var invalid := Invalid(ps);
    forall p | p in r && BadMode(p) ensures p in invalid {
      var i :| 0 <= i < |invalid| && invalid[i].id == p.id;
      assert invalid[i] in invalid;
      SameIdSameRecord(r, p, invalid[i]);
    }
    forall p | p in r ensures HasId(invalid, p.id) <==> BadMode(p) {
      if HasId(invalid, p.id) {
        var i :| 0 <= i < |invalid| && invalid[i].id == p.id;
        assert invalid[i] in invalid;
        SameIdSameRecord(r, p, invalid[i]);
      }
    }
  }

  lemma BucketsCover(r: seq<Public>, m: seq<Problem>, now: Instant, capacity: Option<int>)
    requires capacity.Some? ==> capacity.value >= 1
    ensures forall p :: p in AllBuckets(ResolveRoster(r, m, now, capacity)) <==> p in r
  {
    var res := ResolveRoster(r, m, now, capacity);
    forall p ensures p in AllBuckets(res) <==> p in r {
      assert p in r ==> p in res.live || p in res.released || p in res.expired || p in res.ambiguous;
      assert p in res.admitted ==> p in res.sourceLive;
      assert p in res.collisions ==> p in res.sourceLive;
    }
  }

  lemma DropFromBucket(r: seq<Public>, ps: seq<Public>, b: Bucket, now: Instant)
    requires IsRoster(r) && b != Ambiguous && forall p :: p in r ==> (OutsideOf(Invalid(ps))(p) <==> !BadMode(p))
    ensures Select(Select(r, InBucket(b, now)), OutsideOf(Invalid(ps))) == Select(r, InFenced(b, now))
  {
    var keep := OutsideOf(Invalid(ps));
    SelectTwice(r, InBucket(b, now), keep);
    SelectSame(r, (p: Public) => InBucket(b, now)(p) && keep(p), InFenced(b, now));
  }

  lemma NoBadRuns(r: seq<Public>, now: Instant, b: Bucket)
    requires forall p :: p in r ==> !BadMode(p)
    ensures Select(r, InBucket(b, now)) == Select(r, InFenced(b, now))
  {
    SelectSame(r, InBucket(b, now), InFenced(b, now));
  }

  lemma RosterOrdered(r: seq<Public>)
    requires IsRoster(r)
    ensures Ordered(r)
  {
  }

  lemma SelectSwap(s: seq<Public>, a: Public -> bool, b: Public -> bool)
    ensures Select(Select(s, a), b) == Select(Select(s, b), a)
  {
    SelectTwice(s, a, b);
    SelectTwice(s, b, a);
    SelectSame(s, (p: Public) => a(p) && b(p), (p: Public) => b(p) && a(p));
  }

  /**
   * The fence reclassifies and nothing else: each bucket holds, in claim order, exactly the runs whose
   * fenced bucket it is, the live runs are split by mode as before, and source admission is untouched.
   */
  lemma FenceReclassifies(r: seq<Public>, m: seq<Problem>, now: Instant, capacity: Option<int>)
    requires IsRoster(r) && (capacity.Some? ==> capacity.value >= 1)
    ensures var was := ResolveRoster(r, m, now, capacity);
            var f := FailClosed(was);
            && f.live == Select(r, InFenced(Live, now)) && f.released == Select(r, InFenced(Ended, now))
            && f.expired == Select(r, InFenced(Lapsed, now)) && f.ambiguous == Select(r, InFenced(Ambiguous, now))
            && f.sourceLive == was.sourceLive && f.admitted == was.admitted && f.collisions == was.collisions
            && f.nonSourceLive == Select(f.live, IsNotSource())
  {
    var was := ResolveRoster(r, m, now, capacity);
    var invalid := Invalid(AllBuckets(was));
    BucketsCover(r, m, now, capacity);
    InvalidOverRoster(r, AllBuckets(was));
    if invalid == [] {
      forall p | p in r ensures !BadMode(p) { assert p !in invalid; }
      NoBadRuns(r, now, Live);
      NoBadRuns(r, now, Ended);
      NoBadRuns(r, now, Lapsed);
      NoBadRuns(r, now, Ambiguous);
    } else {
      DropFromBucket(r, AllBuckets(was), Live, now);
      SelectSwap(was.live, IsNotSource(), OutsideOf(invalid));
      DropFromBucket(r, AllBuckets(was), Ended, now);
      DropFromBucket(r, AllBuckets(was), Lapsed, now);
      SelectAll(was.sourceLive, OutsideOf(invalid));
      SelectAll(was.admitted, OutsideOf(invalid));
      SelectAll(was.collisions, OutsideOf(invalid));
      RosterOrdered(r);
      SelectOrdered(r, InFenced(Ambiguous, now));
      SortedOverlay(r, was.ambiguous, invalid, Select(r, InFenced(Ambiguous, now)));
    }
  }

  /** Every claimed run is still in exactly one of the four buckets. */
  lemma {:induction false} FencedPartition(r: seq<Public>, now: Instant)
    ensures multiset(Select(r, InFenced(Live, now))) + multiset(Select(r, InFenced(Ended, now)))
            + multiset(Select(r, InFenced(Lapsed, now))) + multiset(Select(r, InFenced(Ambiguous, now)))
            == multiset(r)
  {
    if r != [] {
      FencedPartition(r[..|r| - 1], now);
      RosterCounts(r);
      SelectCounts(r, InFenced(Live, now));
      SelectCounts(r, InFenced(Ended, now));
      SelectCounts(r, InFenced(Lapsed, now));
      SelectCounts(r, InFenced(Ambiguous, now));
    }
  }

  /** A run with an unknown mode is never owned: it is ambiguous, and reported. */
  lemma UnknownModeIsFenced(r: seq<Public>, m: seq<Problem>, now: Instant, capacity: Option<int>, p: Public)
    requires IsRoster(r) && (capacity.Some? ==> capacity.value >= 1) && p in r && BadMode(p)
    ensures var f := FailClosed(ResolveRoster(r, m, now, capacity));
            p in f.ambiguous && p !in f.live && p !in f.released && p !in f.expired && Reported(f.malformed, p.id)
  {
    var was := ResolveRoster(r, m, now, capacity);
    FenceReclassifies(r, m, now, capacity);
    BucketsCover(r, m, now, capacity);
    InvalidOverRoster(r, AllBuckets(was));
    assert p in Invalid(AllBuckets(was));
  }

  lemma KeptStays(r: seq<Public>, s: seq<Public>, ps: seq<Public>)
    requires IsRoster(r) && forall p :: p in s || p in ps ==> p in r
    requires forall p :: p in s ==> !BadMode(p)
    ensures Select(s, OutsideOf(Invalid(ps))) == s
  {
    var invalid := Invalid(ps);
    forall p | p in s ensures OutsideOf(invalid)(p) {
      if HasId(invalid, p.id) {
        var i :| 0 <= i < |invalid| && invalid[i].id == p.id;
        assert invalid[i] in invalid;
        SameIdSameRecord(r, p, invalid[i]);
        assert false;
      }
    }
    SelectAll(s, OutsideOf(invalid));
  }

  predicate NoneBad(r: seq<Public>, s: seq<Public>) { forall p :: p in s ==> p in r && !BadMode(p) }

  /** A result whose bad runs are all in a sorted ambiguous list and reported is left as it is. */
  predicate Settled(r: seq<Public>, f: Resolution) {
    && NoneBad(r, f.live) && NoneBad(r, f.sourceLive) && NoneBad(r, f.nonSourceLive) && NoneBad(r, f.admitted)
    && NoneBad(r, f.collisions) && NoneBad(r, f.released) && NoneBad(r, f.expired)
    && Ordered(f.ambiguous)
    && forall p :: p in f.ambiguous ==> p in r && (BadMode(p) ==> Reported(f.malformed, p.id))
  }

  lemma SettledStays(r: seq<Public>, f: Resolution)
    requires IsRoster(r) && Settled(r, f)
    ensures FailClosed(f) == f
  {
    var ps := AllBuckets(f);
    KeptStays(r, f.live, ps);
    KeptStays(r, f.sourceLive, ps);
    KeptStays(r, f.nonSourceLive, ps);
    KeptStays(r, f.admitted, ps);
    KeptStays(r, f.collisions, ps);
    KeptStays(r, f.released, ps);
    KeptStays(r, f.expired, ps);
    SortedOverlay(r, f.ambiguous, Invalid(ps), f.ambiguous);
    assert forall p :: p in Invalid(ps) ==> Reported(f.malformed, p.id);
    assert f.malformed + [] == f.malformed;
  }

  lemma SourceIsNotBad(r: seq<Public>, m: seq<Problem>, now: Instant, capacity: Option<int>)
    requires IsRoster(r) && (capacity.Some? ==> capacity.value >= 1)
    ensures var was := ResolveRoster(r, m, now, capacity);
            NoneBad(r, was.sourceLive) && NoneBad(r, was.admitted) && NoneBad(r, was.collisions)
  {
    var was := ResolveRoster(r, m, now, capacity);
    assert forall p :: p in was.admitted ==> p in was.sourceLive;
    assert forall p :: p in was.collisions ==> p in was.sourceLive;
  }

  lemma FencedNonSource(r: seq<Public>, m: seq<Problem>, now: Instant, capacity: Option<int>)
    requires IsRoster(r) && (capacity.Some? ==> capacity.value >= 1)
    ensures NoneBad(r, FailClosed(ResolveRoster(r, m, now, capacity)).nonSourceLive)
  {
    var was := ResolveRoster(r, m, now, capacity);
    BucketsCover(r, m, now, capacity);
    InvalidOverRoster(r, AllBuckets(was));
    forall p | p in FailClosed(was).nonSourceLive ensures p in r && !BadMode(p) {
      assert p in was.nonSourceLive && p in r;
      assert BadMode(p) ==> p in Invalid(AllBuckets(was));
    }
  }

  /** Fencing twice is fencing once. */
  lemma FenceIdempotent(r: seq<Public>, m: seq<Problem>, now: Instant, capacity: Option<int>)
    requires IsRoster(r) && (capacity.Some? ==> capacity.value >= 1)
    ensures var f := FailClosed(ResolveRoster(r, m, now, capacity)); FailClosed(f) == f
  {
    var f := FailClosed(ResolveRoster(r, m, now, capacity));
    FenceReclassifies(r, m, now, capacity);
    SourceIsNotBad(r, m, now, capacity);
    FencedNonSource(r, m, now, capacity);
    RosterOrdered(r);
    SelectOrdered(r, InFenced(Ambiguous, now));
    forall p | p in f.ambiguous && BadMode(p) ensures Reported(f.malformed, p.id) {
      UnknownModeIsFenced(r, m, now, capacity, p);
    }
    SettledStays(r, f);
  }

  // ---- The public resolver -----------------------------------------------------------------------------

  lemma ResolverRoster(cs: seq<Comment>)
    ensures IsRoster(RosterOf(cs))
  {
    FoldSound(EMPTY, AllEvents(cs));
    FoldNamesRuns(EMPTY, AllEvents(cs));
  }

  lemma {:induction false} FoldNamesRuns(l: Ledger, es: seq<Event>)
    requires BLANK !in l.order
    ensures BLANK !in Fold(l, es).order
  {
    if es != [] { FoldNamesRuns(l, es[..|es| - 1]); }
  }

  function ResolveFenced(cs: seq<Comment>, now: Instant, capacity: Option<int>): Result<Resolution, ResolveError> {
    match Resolve(cs, now, capacity)
    case Err(e) => Err(e)
    case Ok(r) => Ok(FailClosed(r))
  }

  method ResolveFencedComments(cs: seq<Comment>, now: Instant, capacity: Option<int>)
    returns (r: Result<Resolution, ResolveError>)
    ensures r == ResolveFenced(cs, now, capacity)
  {
    r := ResolveComments(cs, now, capacity);
    if r.Ok? {
      var fenced := FailClosedInvalidClaimModes(r.value);
      r := Ok(fenced);
    }
  }

  // ---- What the public lists show ------------------------------------------------------------------------

  predicate KnownMode(mode: Text) {
    mode in {BLANK, Plain("SOURCE_MUTATION"), Plain("INTEGRATION"), Plain("READ_ONLY_AUDIT"), Plain("RESEARCH"),
             Plain("CI_TRIAGE")}
  }

  /** The run was claimed, in a mode that is known. */
  predicate KnownRun(cs: seq<Comment>, id: Text) {
    StateOf(cs, id).Some? && KnownMode(StateOf(cs, id).value.mode)
  }

  lemma BadModeExactly(p: Public)
    requires p.id != BLANK
    ensures BadMode(p) <==> !KnownMode(p.run.mode)
  {
  }

  lemma FencedBucketLists(cs: seq<Comment>, id: Text, b: Bucket, now: Instant)
    ensures Lists(Select(RosterOf(cs), InFenced(b, now)), id) <==>
            StateOf(cs, id).Some? && b == if KnownRun(cs, id) then BucketOf(StateOf(cs, id).value, now) else Ambiguous
  {
    var r := RosterOf(cs);
    ResolverRoster(cs);
    ClaimedExactlyOnce(cs, id);
    if Lists(r, id) {
      var p :| p in r && p.id == id;
      BadModeExactly(p);
      assert InFenced(b, now)(p) ==> p in Select(r, InFenced(b, now));
    }
    if StateOf(cs, id).Some? {
      BucketLists(cs, id, BucketOf(StateOf(cs, id).value, now), now);
      assert Lists(r, id);
    }
  }

  /**
   * Which public list shows a run is fixed by the events that name it, its mode, the comment order and the
   * clock: a run in an unknown mode is ambiguous, and every other one is where its history puts it.
   */
  lemma FencedListsExactly(cs: seq<Comment>, id: Text, now: Instant, capacity: Option<int>)
    requires capacity.Some? ==> capacity.value >= 1
    ensures var f, h := ResolveFenced(cs, now, capacity).value, OwnHistory(cs, id);
            && (Lists(f.released, id) <==> KnownRun(cs, id) && !Disordered(cs) && ReleasedWhole(h))
            && (Lists(f.live, id) <==>
                KnownRun(cs, id) && !Disordered(cs) && Intact(h) && exists lease :: LeaseAt(h, lease) && now < lease)
            && (Lists(f.expired, id) <==>
                KnownRun(cs, id) && !Disordered(cs) && Intact(h) && exists lease :: LeaseAt(h, lease) && lease <= now)
            && (Lists(f.ambiguous, id) <==>
                WasClaimed(h) && (!KnownRun(cs, id) || Disordered(cs) || (!Intact(h) && !ReleasedWhole(h))))
  {
    var r := RosterOf(cs);
    ResolverRoster(cs);
    FenceReclassifies(r, Malformed(cs), now, capacity);
    FencedBucketLists(cs, id, Ended, now);
    FencedBucketLists(cs, id, Live, now);
    FencedBucketLists(cs, id, Lapsed, now);
    FencedBucketLists(cs, id, Ambiguous, now);
    EndedExactly(cs, id, now);
    LiveExactly(cs, id, now);
    LapsedExactly(cs, id, now);
    AmbiguousExactly(cs, id, now);
    LiveLease(OwnHistory(cs, id), now);
    StateIsHistory(cs, id);
    HealthyWhole(OwnHistory(cs, id));
  }
}
