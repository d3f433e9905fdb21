/** The workflow-scoped client: bounded snapshots, orphan bookkeeping and revalidated cancellation. */
module ScopedController {
  import opened Common
  import opened RunObservations
  import opened GitHubApi

  const REQUEST_BUDGET := 24

  // ---- The page plan --------------------------------------------------------------------------

  function PagesFor(total: int): (pages: nat)
    ensures pages >= 1
  {
    if total <= RUNS_PER_PAGE then 1 else (total + RUNS_PER_PAGE - 1) / RUNS_PER_PAGE
  }

  predicate PlanSound(plan: seq<nat>) {
    2 <= |plan| <= 3 && plan[0] == 1 && plan[1] == 2 && (|plan| == 3 ==> plan[2] >= 1)
  }

  /** Small snapshots keep one grace page; large ones sample pages 1, 2 and the oldest. */
  function FirstPlan(total: int): (plan: seq<nat>)
    ensures PlanSound(plan)
  {
    var pages := PagesFor(total);
    if pages == 1 then [1, 2] else if pages == 2 then [1, 2, 3] else [1, 2, pages]
  }

  /** The count on page 2 may retarget the single tail page. */
  function Replan(plan: seq<nat>, index: nat, total: int): (r: seq<nat>)
    ensures PlanSound(plan) ==> PlanSound(r)
  {
    if index == 1 && |plan| == 3 && plan[..2] == [1, 2] && plan[2] > 2 && PagesFor(total) > 2
    then [1, 2, PagesFor(total)] else plan
  }

  function Renamed(o: Observation, name: string): Observation { o.(name := name) }

  function AllRenamed(s: seq<Observation>, name: string): (r: seq<Observation>)
    ensures |r| == |s| && forall i :: 0 <= i < |s| ==> r[i] == Renamed(s[i], name)
  {
    seq(|s|, i requires 0 <= i < |s| => Renamed(s[i], name))
  }

  function Ids(s: seq<Observation>): set<nat> { set i | 0 <= i < |s| :: s[i].id }

  // ---- A collection that stands still -----------------------------------------------------------

  function PageOf(c: seq<Observation>, page: nat): seq<Observation>
    requires page >= 1
  {
    var lo := RUNS_PER_PAGE * (page - 1);
    var hi := lo + RUNS_PER_PAGE;
    if |c| <= lo then [] else if |c| <= hi then c[lo..] else c[lo..hi]
  }

  function Rows(s: seq<Observation>): (r: seq<Option<Observation>>)
    ensures |r| == |s| && forall i :: 0 <= i < |s| ==> r[i] == Some(s[i])
  {
    seq(|s|, i requires 0 <= i < |s| => Some(s[i]))
  }

  predicate DistinctIds(c: seq<Observation>) { forall i, j :: 0 <= i < j < |c| ==> c[i].id != c[j].id }

  /** The environment always shows the pages of one fixed collection. */
  ghost predicate Static(world: (nat, Request) -> Reply, status: nat, c: seq<Observation>) {
    && DistinctIds(c)
    && forall k: nat, page: nat :: page >= 1 ==>
      world(k, ListRuns(status, page)) == RunsPage(|c|, Rows(PageOf(c, page)))
  }

  /** What the three-request scan sees of a fixed collection. */
  function Sampled(c: seq<Observation>): (r: seq<Observation>) {
    if |c| <= 3 * RUNS_PER_PAGE then c else c[..2 * RUNS_PER_PAGE] + PageOf(c, PagesFor(|c|))
  }

  /** The scoped scan of a fixed collection sees every run exactly when there are at most three pages. */
  lemma SampledIsCompleteExactly(c: seq<Observation>)
    requires DistinctIds(c)
    ensures (forall o :: o in c ==> o in Sampled(c)) <==> |c| <= 3 * RUNS_PER_PAGE
  {
    if |c| > 3 * RUNS_PER_PAGE {
      var lost := c[2 * RUNS_PER_PAGE];
      assert lost in c;
      var lo := RUNS_PER_PAGE * (PagesFor(|c|) - 1);
      assert lo >= 3 * RUNS_PER_PAGE;
      forall i | 0 <= i < |Sampled(c)| ensures Sampled(c)[i] != lost {
        var at := if i < 2 * RUNS_PER_PAGE then i else lo + (i - 2 * RUNS_PER_PAGE);
        assert Sampled(c)[i] == c[at];
      }
    }
  }

  ghost predicate AllStatic(world: (nat, Request) -> Reply, still: seq<seq<Observation>>) {
    forall status :: 0 <= status < |still| ==> Static(world, status, still[status])
  }

  function Samples(still: seq<seq<Observation>>): (r: seq<seq<Observation>>)
    ensures |r| == |still| && forall i :: 0 <= i < |r| ==> r[i] == Sampled(still[i])
  {
    seq(|still|, i requires 0 <= i < |still| => Sampled(still[i]))
  }

  function Concatenated(cs: seq<seq<Observation>>, name: string): seq<Observation> {
    if cs == [] then [] else Concatenated(cs[..|cs| - 1], name) + AllRenamed(cs[|cs| - 1], name)
  }

  /** What the scan of one fixed collection for each status returns, in order. */
  function Snapshot(still: seq<seq<Observation>>, name: string): seq<Observation> { Concatenated(Samples(still), name) }

  lemma SnapshotSnoc(still: seq<seq<Observation>>, name: string, n: nat)
    requires n < |still|
    ensures Snapshot(still[..n + 1], name) == Snapshot(still[..n], name) + AllRenamed(Sampled(still[n]), name)
  {
    var samples := Samples(still[..n + 1]);
    assert samples[..n] == Samples(still[..n]) && samples[n] == Sampled(still[n]);
  }

  /** A run has one status at a time. */
  predicate OneStatusEach(still: seq<seq<Observation>>) {
    && (forall i :: 0 <= i < |still| ==> DistinctIds(still[i]))
    && forall i, j, o, p :: 0 <= i < j < |still| && o in still[i] && p in still[j] ==> o.id != p.id
  }

  predicate ListedId(s: seq<Observation>, id: nat) { exists o :: o in s && o.id == id }

  /** Some collection of the list has an observation of this run. */
  predicate ListedSomewhere(cs: seq<seq<Observation>>, id: nat) { exists i :: 0 <= i < |cs| && ListedId(cs[i], id) }

  lemma ListedAppend(a: seq<Observation>, b: seq<Observation>, id: nat)
    ensures ListedId(a + b, id) <==> ListedId(a, id) || ListedId(b, id)
  {
    assert forall o :: o in a + b <==> o in a || o in b;
  }

  lemma SomewhereSnoc(cs: seq<seq<Observation>>, c: seq<Observation>, id: nat)
    ensures ListedSomewhere(cs + [c], id) <==> ListedSomewhere(cs, id) || ListedId(c, id)
  {
    var all := cs + [c];
    assert all[|cs|] == c;
    forall i | 0 <= i < |cs| ensures all[i] == cs[i] {}
    if ListedSomewhere(cs, id) {
      var i :| 0 <= i < |cs| && ListedId(cs[i], id);
      assert ListedId(all[i], id);
    }
  }

  lemma {:induction false} ConcatenatedIds(cs: seq<seq<Observation>>, name: string, id: nat)
    ensures ListedId(Concatenated(cs, name), id) <==> ListedSomewhere(cs, id)
  {
    if cs != [] {
      var n := |cs| - 1;
      ConcatenatedIds(cs[..n], name, id);
      SplitLast(cs);
      SomewhereSnoc(cs[..n], cs[n], id);
      RenamedIds(cs[n], name, id);
      ListedAppend(Concatenated(cs[..n], name), AllRenamed(cs[n], name), id);
    }
  }

  lemma RenamedIds(s: seq<Observation>, name: string, id: nat)
    ensures ListedId(AllRenamed(s, name), id) <==> ListedId(s, id)
  {
    var r := AllRenamed(s, name);
    if ListedId(s, id) {
      var i :| 0 <= i < |s| && s[i].id == id;
      assert r[i] in r;
    }
    if ListedId(r, id) {
      var i :| 0 <= i < |r| && r[i].id == id;
      assert s[i] in s;
    }
  }

  lemma SampledOnly(c: seq<Observation>)
    ensures forall o :: o in Sampled(c) ==> o in c
  {
  }

  lemma OneRecord(still: seq<seq<Observation>>, i: nat, j: nat, o: Observation, p: Observation)
    requires OneStatusEach(still) && i < |still| && j < |still| && o in still[i] && p in still[j] && o.id == p.id
    ensures i == j && o == p
  {
    var k :| 0 <= k < |still[i]| && still[i][k] == o;
    var l :| 0 <= l < |still[j]| && still[j][l] == p;
  }

  lemma ListedOnce(still: seq<seq<Observation>>, i: nat, o: Observation)
    requires OneStatusEach(still) && i < |still| && o in still[i]
    ensures ListedSomewhere(Samples(still), o.id) <==> o in Sampled(still[i])
  {
    var samples := Samples(still);
    if ListedSomewhere(samples, o.id) {
      var j :| 0 <= j < |samples| && ListedId(samples[j], o.id);
      var p: Observation :| p in samples[j] && p.id == o.id;
      SampledOnly(still[j]);
      OneRecord(still, i, j, o, p);
    }
    if o in Sampled(still[i]) { assert ListedId(samples[i], o.id); }
  }

  /** Every run of the collection is listed. */
  predicate ListsAll(s: seq<Observation>, c: seq<Observation>) { forall o :: o in c ==> ListedId(s, o.id) }

  lemma CollectionListed(still: seq<seq<Observation>>, name: string, i: nat)
    requires OneStatusEach(still) && i < |still|
    ensures ListsAll(Snapshot(still, name), still[i]) <==> |still[i]| <= 3 * RUNS_PER_PAGE
  {
    forall o | o in still[i] ensures ListedId(Snapshot(still, name), o.id) <==> o in Sampled(still[i]) {
      ConcatenatedIds(Samples(still), name, o.id);
      ListedOnce(still, i, o);
    }
    SampledIsCompleteExactly(still[i]);
  }

  /** A snapshot of collections that stand still lists every run exactly when none has more than three pages. */
  lemma SnapshotIsCompleteExactly(still: seq<seq<Observation>>, name: string)
    requires OneStatusEach(still)
    ensures (forall i :: 0 <= i < |still| ==> ListsAll(Snapshot(still, name), still[i])) <==>
            forall i :: 0 <= i < |still| ==> |still[i]| <= 3 * RUNS_PER_PAGE
  {
    forall i | 0 <= i < |still|
      ensures ListsAll(Snapshot(still, name), still[i]) <==> |still[i]| <= 3 * RUNS_PER_PAGE
    {
      CollectionListed(still, name, i);
    }
  }

  lemma {:induction false} DistinctCount(s: seq<Observation>)
    requires DistinctIds(s)
    ensures |Ids(s)| == |s|
  {
    if s != [] {
      var n := |s| - 1;
      DistinctCount(s[..n]);
      assert Ids(s) == Ids(s[..n]) + {s[n].id};
    }
  }

  /** Pages read so far of a fixed collection, in plan order. */
  function ReadSoFar(c: seq<Observation>, index: nat): seq<Observation> {
    if index == 0 then [] else if |c| <= RUNS_PER_PAGE * index then c else c[..RUNS_PER_PAGE * index]
  }

  lemma StaticStep(c: seq<Observation>, index: nat)
    requires index > 0 ==> |c| > RUNS_PER_PAGE * index
    ensures ReadSoFar(c, index) + PageOf(c, index + 1) == ReadSoFar(c, index + 1)
    ensures DistinctIds(c) ==> DistinctIds(ReadSoFar(c, index + 1))
  {
  }

  lemma StaticTail(c: seq<Observation>)
    requires |c| > 2 * RUNS_PER_PAGE
    ensures ReadSoFar(c, 2) + PageOf(c, PagesFor(|c|)) == Sampled(c)
  {
    if |c| <= 3 * RUNS_PER_PAGE { assert PagesFor(|c|) == 3; }
  }

  /** Where the scan of a fixed collection stands before its page `index`. */
  predicate StillSoFar(
    c: seq<Observation>, name: string, runs: seq<Observation>, seen: set<nat>, plan: seq<nat>, index: nat, page: nat)
  {
    && runs == AllRenamed(ReadSoFar(c, index), name) && seen == Ids(runs)
    && index < 3 && (index > 0 ==> |c| > RUNS_PER_PAGE * index && plan == FirstPlan(|c|))
    && page == if index == 2 then PagesFor(|c|) else index + 1
  }

  predicate StopsAfter(rows: nat, known: nat, seen: nat, total: int, index: nat, plan: seq<nat>) {
    rows < RUNS_PER_PAGE || seen == known || seen >= total || index >= |plan|
  }

  lemma RenamedCount(c: seq<Observation>, name: string)
    requires DistinctIds(c)
    ensures |Ids(AllRenamed(c, name))| == |c|
  {
    DistinctCount(AllRenamed(c, name));
  }

  lemma RenamedAppend(a: seq<Observation>, b: seq<Observation>, name: string)
    ensures AllRenamed(a + b, name) == AllRenamed(a, name) + AllRenamed(b, name)
    ensures Ids(a + b) == Ids(a) + Ids(b)
  {
    IdsAppend(a, b);
  }

  lemma IdsAppend(a: seq<Observation>, b: seq<Observation>)
    ensures Ids(a + b) == Ids(a) + Ids(b)
  {
    forall i | 0 <= i < |b| ensures (a + b)[|a| + i] == b[i] {}
    forall id | id in Ids(a) ensures id in Ids(a + b) {
      var i :| 0 <= i < |a| && a[i].id == id;
      assert (a + b)[i].id == id;
    }
    forall id | id in Ids(b) ensures id in Ids(a + b) {
      var i :| 0 <= i < |b| && b[i].id == id;
      assert (a + b)[|a| + i].id == id;
    }
  }

  lemma EarlyLengths(c: seq<Observation>, index: nat)
    requires index < 2 && (index > 0 ==> |c| > RUNS_PER_PAGE)
    ensures |ReadSoFar(c, index)| == RUNS_PER_PAGE * index
    ensures |ReadSoFar(c, index + 1)| == |ReadSoFar(c, index)| + |PageOf(c, index + 1)|
    ensures if |c| <= RUNS_PER_PAGE * (index + 1)
            then |ReadSoFar(c, index + 1)| == |c| && ReadSoFar(c, index + 1) == Sampled(c)
            else |PageOf(c, index + 1)| == RUNS_PER_PAGE
  {
  }

  lemma PlanLengths(total: int)
    ensures |FirstPlan(total)| == 2 <==> total <= RUNS_PER_PAGE
    ensures total > 2 * RUNS_PER_PAGE ==> FirstPlan(total) == [1, 2, PagesFor(total)]
  {
  }

  lemma SameReplan(total: int, index: nat)
    ensures Replan(FirstPlan(total), index, total) == FirstPlan(total)
  {
  }

  /** The rows read so far, and how many runs they are. */
  lemma StillUnion(c: seq<Observation>, name: string, index: nat)
    requires DistinctIds(c) && (index > 0 ==> |c| > RUNS_PER_PAGE * index)
    ensures var runs, shown := AllRenamed(ReadSoFar(c, index), name), AllRenamed(PageOf(c, index + 1), name);
            && runs + shown == AllRenamed(ReadSoFar(c, index + 1), name) && Ids(runs + shown) == Ids(runs) + Ids(shown)
            && |Ids(runs)| == |ReadSoFar(c, index)| && |Ids(runs + shown)| == |ReadSoFar(c, index + 1)|
  {
    StaticStep(c, index);
    RenamedAppend(ReadSoFar(c, index), PageOf(c, index + 1), name);
    IdsAppend(AllRenamed(ReadSoFar(c, index), name), AllRenamed(PageOf(c, index + 1), name));
    RenamedCount(ReadSoFar(c, index), name);
    RenamedCount(ReadSoFar(c, index + 1), name);
  }

  lemma StillStepEarly(
    c: seq<Observation>, name: string, runs: seq<Observation>, seen: set<nat>, plan: seq<nat>, index: nat,
    shown: seq<Observation>)
    requires DistinctIds(c) && index < 2 && StillSoFar(c, name, runs, seen, plan, index, index + 1)
    requires shown == AllRenamed(PageOf(c, index + 1), name)
    ensures var next := FirstPlan(|c|);
            if StopsAfter(|shown|, |seen|, |seen + Ids(shown)|, |c|, index + 1, next)
            then runs + shown == AllRenamed(Sampled(c), name)
            else StillSoFar(c, name, runs + shown, seen + Ids(shown), next, index + 1, next[index + 1])
  {
    StillUnion(c, name, index);
    EarlyLengths(c, index);
    PlanLengths(|c|);
  }

  lemma StillStepLast(
    c: seq<Observation>, name: string, runs: seq<Observation>, seen: set<nat>, plan: seq<nat>, page: nat,
    shown: seq<Observation>)
    requires StillSoFar(c, name, runs, seen, plan, 2, page) && shown == AllRenamed(PageOf(c, page), name)
    ensures runs + shown == AllRenamed(Sampled(c), name)
  {
    RenamedAppend(ReadSoFar(c, 2), PageOf(c, page), name);
    StaticTail(c);
  }

  lemma StillStep(
    c: seq<Observation>, name: string, runs: seq<Observation>, seen: set<nat>, plan: seq<nat>, index: nat, page: nat,
    shown: seq<Observation>, next: seq<nat>)
    requires DistinctIds(c) && StillSoFar(c, name, runs, seen, plan, index, page)
    requires shown == AllRenamed(PageOf(c, page), name)
    requires next == if index == 0 then FirstPlan(|c|) else Replan(plan, index, |c|)
    ensures if StopsAfter(|shown|, |seen|, |seen + Ids(shown)|, |c|, index + 1, next)
            then runs + shown == AllRenamed(Sampled(c), name)
            else StillSoFar(c, name, runs + shown, seen + Ids(shown), next, index + 1, next[index + 1])
  {
    SameReplan(|c|, index);
    if index < 2 {
      StillStepEarly(c, name, runs, seen, plan, index, shown);
    } else {
      StillStepLast(c, name, runs, seen, plan, page, shown);
      assert |next| <= 3;
    }
  }

  /** The loop state of a scan before page `page`, the `index`-th of its plan. */
  datatype PlannedScan = PlannedScan(runs: seq<Observation>, seen: set<nat>, plan: seq<nat>, index: nat, page: nat)

  predicate ScanSound(s: PlannedScan) {
    && s.index < 3 && s.page >= 1
    && if s.index == 0 then s.plan == [] else PlanSound(s.plan) && s.index < |s.plan|
  }

  /** On a collection that stands still, the scan is where it should be. */
  predicate ScanStill(s: PlannedScan, still: Option<seq<Observation>>, name: string) {
    still.Some? ==> StillSoFar(still.value, name, s.runs, s.seen, s.plan, s.index, s.page)
  }

  /** The loop state after one accepted page, and whether it was the last. */
  function NextScan(s: PlannedScan, total: int, shown: seq<Observation>): (r: (PlannedScan, bool))
    requires ScanSound(s)
    ensures r.0.runs == s.runs + shown && r.0.index == s.index + 1
    ensures !r.1 ==> ScanSound(r.0)
  {
    var plan := if s.index == 0 then FirstPlan(total) else Replan(s.plan, s.index, total);
    var seen := s.seen + Ids(shown);
    var done := StopsAfter(|shown|, |s.seen|, |seen|, total, s.index + 1, plan);
    (PlannedScan(s.runs + shown, seen, plan, s.index + 1, if done then s.page else plan[s.index + 1]), done)
  }

  lemma NextStill(s: PlannedScan, c: seq<Observation>, name: string, shown: seq<Observation>)
    requires DistinctIds(c) && ScanSound(s) && ScanStill(s, Some(c), name)
    requires shown == AllRenamed(PageOf(c, s.page), name)
    ensures var (next, done) := NextScan(s, |c|, shown);
            if done then next.runs == AllRenamed(Sampled(c), name) else ScanStill(next, Some(c), name)
  {
    var plan := if s.index == 0 then FirstPlan(|c|) else Replan(s.plan, s.index, |c|);
    StillStep(c, name, s.runs, s.seen, s.plan, s.index, s.page, shown, plan);
  }

  // ---- The client ----------------------------------------------------------------------------------

  class ScopedClient {
    const api: Api
    const workflow: nat
    const workflowName: string
    var unbound: map<nat, Candidate>
    var explicit: set<nat>
    var conflicted: set<nat>
    var recovered: map<nat, (nat, Sha)>
    var zeroAssociation: map<nat, (Sha, string)>

    constructor (world: (nat, Request) -> Reply, workflow: nat, workflowName: string)
      ensures Valid() && fresh(api) && api.trace == [] && api.world == world && NoRecovery()
      ensures this.workflow == workflow && this.workflowName == workflowName
    {
      this.api := new Api(world, Some(workflow), Some(REQUEST_BUDGET));
      this.workflow, this.workflowName := workflow, workflowName;
      unbound, explicit, conflicted := map[], {}, {};
      recovered, zeroAssociation := map[], map[];
    }

    ghost predicate Valid()
      reads this, api
    {
      api.Valid() && api.scope == Some(workflow) && api.limit == Some(REQUEST_BUDGET)
    }

    ghost predicate NoRecovery()
      reads this
    {
      recovered == map[] && zeroAssociation == map[]
    }

    function BookNow(): Book
      reads this
    {
      Book(unbound, explicit, conflicted)
    }

    /** Only reads were sent, at most `n` of them. */
    twostate predicate OnlyReads(n: nat)
      reads this, api
    {
      old(api.trace) <= api.trace && |api.trace| <= |old(api.trace)| + n && Posts(api.trace) == Posts(old(api.trace))
    }

    /** Without a recovered identity a cancel request is the very next exchange, if it is sent at all. */
    twostate predicate PostsNext(id: nat)
      reads this, api
    {
      id !in old(recovered) && id !in old(zeroAssociation) && Posts(api.trace) != Posts(old(api.trace)) ==>
        |api.trace| > |old(api.trace)| && api.trace[|old(api.trace)|].request == PostCancel(id)
    }

    // ---- Snapshot -----------------------------------------------------------------------------

    /** Records one observed row in the identity maps. */
    method Observe(o: Observation)
      modifies this`unbound, this`explicit, this`conflicted
      ensures BookNow() == Note(old(BookNow()), o)
    {
      if o.prs == [] {
        if o.id in explicit || o.id in conflicted {
          unbound := unbound - {o.id};
        } else if o.id in unbound && unbound[o.id] != CandidateOf(o) {
          unbound := unbound - {o.id};
          conflicted := conflicted + {o.id};
        } else {
          unbound := unbound[o.id := CandidateOf(o)];
        }
      } else {
        explicit := explicit + {o.id};
        unbound := unbound - {o.id};
      }
    }

    /** Parses one page; a malformed row fails it after the rows before it were recorded. */
    method ObservePage(rows: seq<Option<Observation>>) returns (ok: bool, runs: seq<Observation>)
      modifies this`unbound, this`explicit, this`conflicted
      ensures ok <==> None !in rows
      ensures ok ==> |runs| == |rows| && BookNow() == TrackFrom(old(BookNow()), runs)
      ensures ok ==> forall i :: 0 <= i < |rows| ==> rows[i].Some? && runs[i] == Renamed(rows[i].value, workflowName)
    {
      runs := [];
      for i := 0 to |rows|
        invariant |runs| == i && BookNow() == TrackFrom(old(BookNow()), runs)
        invariant forall k :: 0 <= k < i ==> rows[k].Some? && runs[k] == Renamed(rows[k].value, workflowName)
      {
        if rows[i].None? { return false, runs; }
        var run := Renamed(rows[i].value, workflowName);
        Observe(run);
        assert (runs + [run])[..i] == runs;
        runs := runs + [run];
      }
      return true, runs;
    }

    /** Reads and records one page. */
    method ScanPage(status: nat, page: nat, ghost still: Option<seq<Observation>>)
      returns (r: Attempt<(int, seq<Observation>)>)
      requires Valid() && page >= 1
      requires still.Some? ==> Static(api.world, status, still.value)
      modifies this`unbound, this`explicit, this`conflicted, api
      ensures Valid() && OnlyReads(1)
      ensures r.Got? ==> BookNow() == TrackFrom(old(BookNow()), r.value.1)
      ensures r.Refused? ==> r.why in {Failure, BudgetExhausted}
      ensures r == Refused(BudgetExhausted) ==> api.remaining == Some(0)
      ensures r == Refused(BudgetExhausted) <==> old(api.remaining) == Some(0)
      ensures still.Some? ==> r == Refused(BudgetExhausted)
                              || r == Got((|still.value|, AllRenamed(PageOf(still.value, page), workflowName)))
    {
      ghost var at := |api.trace|;
      if still.Some? {
        assert api.world(at, ListRuns(status, page)) == RunsPage(|still.value|, Rows(PageOf(still.value, page)));
      }
      var next := api.ListPage(status, page);
      if next.Refused? { return Refused(next.why); }
      var ok, shown := ObservePage(next.value.1);
      if !ok { return Refused(Failure); }
      if still.Some? { assert shown == AllRenamed(PageOf(still.value, page), workflowName); }
      return Got((next.value.0, shown));
    }

    /**
     * The bounded scan of one status: at most three requests for any replies, and every run of a
     * collection that stands still and fits in three pages.
     */
    method ActiveRunsForStatus(status: nat, ghost still: Option<seq<Observation>>)
      returns (r: Attempt<seq<Observation>>)
      requires Valid()
      requires still.Some? ==> Static(api.world, status, still.value)
      modifies this`unbound, this`explicit, this`conflicted, api
      ensures Valid() && OnlyReads(3)
      ensures r.Got? ==> BookNow() == TrackFrom(old(BookNow()), r.value)
      ensures r.Refused? ==> r.why in {Failure, BudgetExhausted}
      ensures r == Refused(BudgetExhausted) ==> api.remaining == Some(0)
      ensures r == Refused(BudgetExhausted) ==> old(api.remaining).value < 3
      ensures still.Some? ==> r == Refused(BudgetExhausted)
                              || r == Got(AllRenamed(Sampled(still.value), workflowName))
    {
      var scan := PlannedScan([], {}, [], 0, 1);
      while true
        invariant Valid() && OnlyReads(scan.index) && ScanSound(scan)
        invariant BookNow() == TrackFrom(old(BookNow()), scan.runs)
        invariant ScanStill(scan, still, workflowName)
        decreases 3 - scan.index
      {
        var next := ScanPage(status, scan.page, still);
        if next.Refused? { return Refused(next.why); }
        var (total, shown) := next.value;
        if still.Some? { NextStill(scan, still.value, workflowName, shown); }
        TrackAppend(old(BookNow()), scan.runs, shown);
        var (after, done) := NextScan(scan, total, shown);
        scan := after;
        if done { break; }
      }
      return Got(scan.runs);
    }

    method ResetSnapshot()
      modifies this
      ensures BookNow() == BLANK_BOOK && NoRecovery()
    {
      recovered, zeroAssociation := map[], map[];
      unbound, explicit, conflicted := map[], {}, {};
    }

    /**
     * One snapshot over all active statuses; a failure leaves no partial authority behind. With fifteen
     * units left it never runs out of budget, and of collections that stand still it is exactly the samples.
     */
    method ActiveRuns(ghost still: Option<seq<seq<Observation>>>) returns (r: Attempt<seq<Observation>>)
      requires Valid()
      requires still.Some? ==> |still.value| == STATUS_COUNT && AllStatic(api.world, still.value)
      modifies this, api
      ensures Valid() && NoRecovery() && OnlyReads(3 * STATUS_COUNT)
      ensures BookNow() == if r.Got? then Track(r.value) else BLANK_BOOK
      ensures r.Refused? ==> r.why in {Failure, BudgetExhausted}
      ensures r == Refused(BudgetExhausted) ==> api.remaining == Some(0)
      ensures old(api.remaining).value >= 3 * STATUS_COUNT ==> r != Refused(BudgetExhausted)
      ensures still.Some? ==> r == Refused(BudgetExhausted) || r == Got(Snapshot(still.value, workflowName))
    {
      ResetSnapshot();
      var runs: seq<Observation> := [];
      for status := 0 to STATUS_COUNT
        invariant Valid() && NoRecovery() && OnlyReads(3 * status)
        invariant BookNow() == Track(runs)
        invariant still.Some? ==> runs == Snapshot(still.value[..status], workflowName)
      {
        if still.Some? { SnapshotSnoc(still.value, workflowName, status); }
        var next := ActiveRunsForStatus(status, if still.None? then None else Some(still.value[status]));
        if next.Refused? {
          ResetSnapshot();
          return Refused(next.why);
        }
        TrackAppend(BLANK_BOOK, runs, next.value);
        runs := runs + next.value;
      }
      if still.Some? { assert still.value[..STATUS_COUNT] == still.value; }
      return Got(runs);
    }

    // ---- Association and branch reads -------------------------------------------------------

    /** The single PR that the commit belongs to. */
    method HistoricalAssociation(head: Sha) returns (r: Attempt<nat>)
      requires Valid()
      modifies api
      ensures Valid() && Posts(api.trace) == Posts(old(api.trace)) && old(api.trace) <= api.trace
      ensures r.Refused? ==> r.why in {Failure, BudgetExhausted, Absent, Ambiguous}
      ensures r == Refused(BudgetExhausted) ==> api.remaining == Some(0)
      ensures r.Got? ==> PullPages(api.trace, |old(api.trace)|, |api.trace|, head)
                         && OnlyPull(api.trace, |old(api.trace)|, |api.trace|, r.value)
      ensures r.Refused? && r.why in {Absent, Ambiguous} ==> PullPages(api.trace, |old(api.trace)|, |api.trace|, head)
      ensures r == Refused(Absent) ==> NoPulls(api.trace, |old(api.trace)|, |api.trace|)
      ensures r == Refused(Ambiguous) ==>
                exists m, n :: m != n && Named(api.trace, |old(api.trace)|, m) && Named(api.trace, |old(api.trace)|, n)
      ensures Calm(api.world) && r != Refused(BudgetExhausted) ==>
                && (r == Refused(Absent) <==> NoneOf(api.world, head))
                && forall pr: nat :: r == Got(pr) <==> OneOf(api.world, head, pr)
    {
      var numbers := api.CommitAssociation(head, true);
      if Calm(api.world) { AssociationCalm(api.world, old(api.trace), api.trace, head, numbers); }
      if numbers.Refused? { return Refused(numbers.why); }
      if numbers.value == {} { return Refused(Absent); }
      if |numbers.value| != 1 {
        ghost var m, n := TwoMembers(numbers.value);
        return Refused(Ambiguous);
      }
      r := Got(TheOnly(numbers.value));
    }

    method HasNoAssociation(head: Sha) returns (r: Attempt<bool>)
      requires Valid()
      modifies api
      ensures Valid() && Posts(api.trace) == Posts(old(api.trace)) && old(api.trace) <= api.trace
      ensures r.Refused? ==> r.why in {Failure, BudgetExhausted}
      ensures r == Refused(BudgetExhausted) ==> api.remaining == Some(0)
      ensures r.Got? ==> PullPages(api.trace, |old(api.trace)|, |api.trace|, head)
                         && (r.value <==> NoPulls(api.trace, |old(api.trace)|, |api.trace|))
      ensures Calm(api.world) && r != Refused(BudgetExhausted) ==> (r == Got(true) <==> NoneOf(api.world, head))
    {
      var numbers := api.CommitAssociation(head, false);
      if Calm(api.world) {
        if numbers.Got? { WalkedCalmly(api.world, api.trace, |old(api.trace)|, head); }
        if NoneOf(api.world, head) { NoneHasOnePage(api.world, head, false); }
      }
      if numbers.Refused? { return Refused(numbers.why); }
      return Got(numbers.value == {});
    }

    /** The tip of a branch of this repository; a missing branch has none. */
    method BranchTip(branch: string) returns (r: Attempt<Option<Sha>>)
      requires Valid()
      modifies api
      ensures Valid() && OnlyReads(1)
      ensures r.Refused? ==> r.why in {Failure, BudgetExhausted}
      ensures r == Refused(BudgetExhausted) ==> api.remaining == Some(0)
      ensures r.Got? ==> api.trace == old(api.trace) + [Exchange(GetBranch(branch), BranchHead(r.value))]
      ensures r.Got? ==> api.world(|old(api.trace)|, GetBranch(branch)) == BranchHead(r.value)
      ensures r == Refused(Failure) ==> !api.world(|old(api.trace)|, GetBranch(branch)).BranchHead?
    {
      var reply := api.Read(GetBranch(branch));
      match reply
      case Refused(why) => return Refused(why);
      case Got(BranchHead(tip)) => return Got(tip);
      case Got(_) => return Refused(Failure);
    }

    // ---- The effect boundary ------------------------------------------------------------------

    /** Re-reads a run that was recovered without PR reference. */
    method RebindRun(id: nat, head: Sha, branch: Option<string>) returns (r: Attempt<()>)
      requires Valid()
      modifies api
      ensures Valid() && OnlyReads(1)
      ensures r.Refused? ==> r.why in {Failure, BudgetExhausted, AuthorityChanged}
      ensures r == Refused(BudgetExhausted) ==> api.remaining == Some(0)
      ensures r.Got? ==> Rebound(workflow, old(api.trace), api.trace, id, head, branch)
      ensures r != Refused(BudgetExhausted) ==>
                (r.Got? <==> StillThere(api.world(|old(api.trace)|, GetRun(id)), workflow, id, head, branch))
      ensures r == Refused(Failure) ==> api.world(|old(api.trace)|, GetRun(id)).Fault?
    {
      var reply := api.Read(GetRun(id));
      match reply
      case Refused(why) => return Refused(why);
      case Got(RunReply(d)) =>
        if !SameRun(d, workflow, id) || d.head != head || d.pulls != Some([])
           || (branch.Some? && d.branch != branch)
        { return Refused(AuthorityChanged); }
        return Got(());
      case Got(_) => return Refused(AuthorityChanged);
    }

    method RevalidateOrphan(id: nat, head: Sha, branch: string) returns (r: Attempt<()>)
      requires Valid()
      modifies api
      ensures Valid() && Posts(api.trace) == Posts(old(api.trace)) && old(api.trace) <= api.trace
      ensures r.Refused? ==> r.why in {Failure, BudgetExhausted, AuthorityChanged}
      ensures r == Refused(BudgetExhausted) ==> api.remaining == Some(0)
      ensures r.Got? ==> Ready(Some(workflow), api.trace, id)
      ensures Calm(api.world) && r != Refused(BudgetExhausted) ==>
                (r.Got? <==> StillThere(api.world(0, GetRun(id)), workflow, id, head, Some(branch))
                             && OrphanStale(api.world, head, branch))
      ensures Calm(api.world) && Healthy(api.world) && OrphanStale(api.world, head, branch) ==> r != Refused(Failure)
    {
      ghost var start := api.trace;
      r := RebindRun(id, head, Some(branch));
      if r.Refused? { return; }
      ghost var bound := api.trace;
      var none := HasNoAssociation(head);
      if none.Refused? { return Refused(none.why); }
      ghost var paged := api.trace;
      var tip := BranchTip(branch);
      if tip.Refused? { return Refused(tip.why); }
      if !none.value || tip.value == Some(head) { return Refused(AuthorityChanged); }
      OrphanHolds(workflow, start, bound, paged, api.trace, id, head, branch);
      return Got(());
    }

    method RevalidateRecovered(id: nat, pr: nat, head: Sha) returns (r: Attempt<()>)
      requires Valid()
      modifies api
      ensures Valid() && Posts(api.trace) == Posts(old(api.trace)) && old(api.trace) <= api.trace
      ensures r.Refused? ==> r.why in {Failure, BudgetExhausted, AuthorityChanged}
      ensures r == Refused(BudgetExhausted) ==> api.remaining == Some(0)
      ensures r.Got? ==> Ready(Some(workflow), api.trace, id)
      ensures Calm(api.world) && r != Refused(BudgetExhausted) ==>
                (r.Got? <==> StillThere(api.world(0, GetRun(id)), workflow, id, head, None)
                             && PullStale(api.world, head, pr))
      ensures Calm(api.world) && Healthy(api.world) && PullStale(api.world, head, pr) ==> r != Refused(Failure)
    {
      ghost var start := api.trace;
      r := RebindRun(id, head, None);
      if r.Refused? { return; }
      ghost var bound := api.trace;
      r := ConfirmPull(pr, head);
      if r.Got? { RecoveredHolds(workflow, start, bound, api.trace, id, pr, head); }
    }

    /** The commit still has this one PR, and it does not protect the head. */
    method ConfirmPull(pr: nat, head: Sha) returns (r: Attempt<()>)
      requires Valid()
      modifies api
      ensures Valid() && Posts(api.trace) == Posts(old(api.trace)) && old(api.trace) <= api.trace
      ensures r.Refused? ==> r.why in {Failure, BudgetExhausted, AuthorityChanged}
      ensures r == Refused(BudgetExhausted) ==> api.remaining == Some(0)
      ensures r.Got? ==>
                && |old(api.trace)| < |api.trace| && PullPages(api.trace, |old(api.trace)|, |api.trace| - 1, head)
                && OnlyPull(api.trace, |old(api.trace)|, |api.trace| - 1, pr) && QualifiedAgainst(api.trace, pr, head)
      ensures Calm(api.world) && r != Refused(BudgetExhausted) ==> (r.Got? <==> PullStale(api.world, head, pr))
    {
      ghost var start := |api.trace|;
      var associated := HistoricalAssociation(head);
      if associated.Refused? {
        return Refused(if associated.why in {Absent, Ambiguous} then AuthorityChanged else associated.why);
      }
      if associated.value != pr { return Refused(AuthorityChanged); }
      ghost var paged := api.trace;
      if Calm(api.world) { assert api.world(|paged|, GetPull(pr)) == api.world(0, GetPull(pr)); }
      var live := api.LiveQualification(pr);
      if live.Refused? { return Refused(live.why); }
      if live.value.head == head && live.value.capable { return Refused(AuthorityChanged); }
      PagesKept(paged, api.trace, start, |paged|, head);
      return Got(());
    }

    /** The recovered identity of the run rests on what the environment shows about its commit. */
    ghost predicate Founded(id: nat)
      reads this
    {
      && (id in zeroAssociation ==> OrphanStale(api.world, zeroAssociation[id].0, zeroAssociation[id].1))
      && (id in recovered ==> PullStale(api.world, recovered[id].1, recovered[id].0))
    }

    /** In an environment that stands still: the recovered identity of the run would be revalidated. */
    ghost predicate Standing(id: nat)
      reads this
    {
      && (id in zeroAssociation ==>
            && StillThere(api.world(0, GetRun(id)), workflow, id, zeroAssociation[id].0, Some(zeroAssociation[id].1))
            && OrphanStale(api.world, zeroAssociation[id].0, zeroAssociation[id].1))
      && (id in recovered ==>
            && StillThere(api.world(0, GetRun(id)), workflow, id, recovered[id].1, None)
            && PullStale(api.world, recovered[id].1, recovered[id].0))
    }

    /**
     * Cancels one run. A recovered identity is revalidated here; otherwise the caller has just proved
     * the explicit identity. At most one cancel request is sent, and only when it is justified.
     */
    method Cancel(id: nat) returns (r: Attempt<()>)
      requires Valid()
      requires id in recovered ==> id !in zeroAssociation
      requires id !in recovered && id !in zeroAssociation ==> Ready(Some(workflow), api.trace, id)
      modifies api
      ensures Valid() && old(api.trace) <= api.trace
      ensures Posts(api.trace) == Posts(old(api.trace)) || Posts(api.trace) == Posts(old(api.trace)) + [id]
      ensures r.Got? ==> Posts(api.trace) == Posts(old(api.trace)) + [id] && TookEffect(api.trace, id)
      ensures r.Refused? ==> r.why in {Failure, StillActive, BudgetExhausted, AuthorityChanged}
      ensures r == Refused(BudgetExhausted) ==> api.remaining == Some(0)
      ensures r == Refused(StillActive) ==> WasDeferred(api.trace, id)
      ensures PostsNext(id)
      ensures Calm(api.world) && (id in recovered || id in zeroAssociation)
              && (r.Got? || r.why in {AuthorityChanged, StillActive}) ==>
                (r.Got? <==> Standing(id) && api.world(0, PostCancel(id)).Accepted?)
      ensures id !in recovered && id !in zeroAssociation ==> Direct(api.world, |old(api.trace)|, id, r)
      ensures Calm(api.world) && Healthy(api.world) && Founded(id) ==> r != Refused(Failure)
    {
      if id in zeroAssociation {
        var identity := zeroAssociation[id];
        r := RevalidateOrphan(id, identity.0, identity.1);
        if r.Refused? { return; }
      }
      if id in recovered {
        var identity := recovered[id];
        r := RevalidateRecovered(id, identity.0, identity.1);
        if r.Refused? { return; }
      }
      r := api.PostCancelRun(id);
    }

    /** The effect: a run that another actor is already cancelling is deferred, not failed. */
    method CancelOrDefer(id: nat) returns (r: Attempt<bool>)
      requires Valid()
      requires id in recovered ==> id !in zeroAssociation
      requires id !in recovered && id !in zeroAssociation ==> Ready(Some(workflow), api.trace, id)
      modifies api
      ensures Valid() && old(api.trace) <= api.trace
      ensures Posts(api.trace) == Posts(old(api.trace)) || Posts(api.trace) == Posts(old(api.trace)) + [id]
      ensures r == Got(true) ==> Posts(api.trace) == Posts(old(api.trace)) + [id] && TookEffect(api.trace, id)
      ensures r == Got(false) ==> WasDeferred(api.trace, id)
      ensures r.Refused? ==> r.why in {Failure, BudgetExhausted, AuthorityChanged}
      ensures r == Refused(BudgetExhausted) ==> api.remaining == Some(0)
      ensures PostsNext(id)
      ensures Calm(api.world) && (id in recovered || id in zeroAssociation)
              && (r.Got? || r.why == AuthorityChanged) ==>
                (r == Got(true) <==> Standing(id) && api.world(0, PostCancel(id)).Accepted?)
      ensures id !in recovered && id !in zeroAssociation ==>
                Direct(api.world, |old(api.trace)|, id,
                       if r == Got(true) then Got(()) else Refused(if r.Got? then StillActive else r.why))
      ensures Calm(api.world) && Healthy(api.world) && Founded(id) ==> r != Refused(Failure)
    {
      var done := Cancel(id);
      match done
      case Got(_) => return Got(true);
      case Refused(StillActive) => return Got(false);
      case Refused(why) => return Refused(why);
    }
  }

  /** What a cancel request sent as exchange `at` led to: an accepted one succeeds, and only a failing one fails. */
  predicate Direct(world: (nat, Request) -> Reply, at: nat, id: nat, r: Attempt<()>) {
    && r != Refused(AuthorityChanged)
    && (r.Got? ==> world(at, PostCancel(id)).Accepted? || Completed(world(at + 1, GetRun(id))))
    && (r.Refused? && r.why != BudgetExhausted ==> !world(at, PostCancel(id)).Accepted?)
  }

  /** No read of a run fails, and every cancel request is accepted. */
  ghost predicate Healthy(world: (nat, Request) -> Reply) {
    forall id: nat :: !world(0, GetRun(id)).Fault? && world(0, PostCancel(id)).Accepted?
  }

  predicate Completed(reply: Reply) { reply.RunReply? && reply.run.status == CompletedStatus }

  /** The result of the page walk, said of an environment that stands still. */
  lemma AssociationCalm(
    world: (nat, Request) -> Reply, before: Trace, after: Trace, head: Sha, numbers: Attempt<set<nat>>)
    requires Calm(world) && Answered(world, after) && before <= after
    requires numbers.Got? ==> Associates(after, |before|, head, numbers.value)
    requires numbers.Got? ==> GoodPages(world, head, |after| - |before|, true)
    requires numbers == Refused(Failure) ==> Malformed(world, head, true)
    ensures numbers.Got? ==> (numbers.value == {} <==> NoneOf(world, head))
    ensures numbers.Got? ==> forall pr: nat :: numbers.value == {pr} <==> OneOf(world, head, pr)
    ensures numbers == Refused(Failure) ==> !NoneOf(world, head) && forall pr: nat :: !OneOf(world, head, pr)
  {
    if numbers.Got? {
      WalkedCalmly(world, after, |before|, head);
      forall pr: nat | OneOf(world, head, pr) ensures numbers.value == {pr} {
        var n: nat :| GoodPages(world, head, n, true) && PagesName(world, head, n, pr);
        OnePageCount(world, head, n, |after| - |before|, true, true);
      }
    } else if numbers == Refused(Failure) {
      if NoneOf(world, head) { NoneHasOnePage(world, head, true); }
    }
  }

  /** The reply shows the active run of the workflow on this head, without PR reference. */
  predicate StillThere(reply: Reply, workflow: nat, id: nat, head: Sha, branch: Option<string>) {
    && reply.RunReply? && SameRun(reply.run, workflow, id) && reply.run.head == head && reply.run.pulls == Some([])
    && (branch.Some? ==> reply.run.branch == branch)
  }

  /** No PR has the commit, and its branch is elsewhere. */
  predicate OrphanStale(world: (nat, Request) -> Reply, head: Sha, branch: string) {
    && NoneOf(world, head)
    && world(0, GetBranch(branch)).BranchHead? && world(0, GetBranch(branch)).tip != Some(head)
  }

  predicate Releases(reply: Reply, head: Sha) { reply.Pull? && !(reply.head == head && reply.capable) }

  /** One PR has the commit, and does not protect it. */
  ghost predicate PullStale(world: (nat, Request) -> Reply, head: Sha, pr: nat) {
    OneOf(world, head, pr) && Releases(world(0, GetPull(pr)), head)
  }

  /** The last exchange re-read an active run of the workflow without PR reference. */
  predicate Rebound(workflow: nat, before: Trace, after: Trace, id: nat, head: Sha, branch: Option<string>) {
    && |after| == |before| + 1 && before <= after && ReadRun(after, |before|, workflow, id)
    && var d := after[|before|].reply.run;
       d.head == head && d.pulls == Some([]) && (branch.Some? ==> d.branch == branch)
  }

  lemma RecoveredHolds(
    workflow: nat, start: Trace, bound: Trace, final: Trace, id: nat, pr: nat, head: Sha)
    requires Rebound(workflow, start, bound, id, head, None) && bound <= final && |bound| < |final|
    requires PullPages(final, |bound|, |final| - 1, head) && OnlyPull(final, |bound|, |final| - 1, pr)
    requires QualifiedAgainst(final, pr, head)
    ensures Ready(Some(workflow), final, id)
  {
    assert final[|start|] == bound[|start|];
    assert RecoveredReady(workflow, final, id, |start|, pr);
  }

  lemma OrphanHolds(
    workflow: nat, start: Trace, bound: Trace, paged: Trace, final: Trace, id: nat, head: Sha, branch: string)
    requires Rebound(workflow, start, bound, id, head, Some(branch))
    requires bound <= paged && PullPages(paged, |bound|, |paged|, head) && NoPulls(paged, |bound|, |paged|)
    requires paged <= final && |final| == |paged| + 1 && final[|paged|].request == GetBranch(branch)
    requires final[|paged|].reply.BranchHead? && final[|paged|].reply.tip != Some(head)
    ensures Ready(Some(workflow), final, id)
  {
    PagesKept(paged, final, |bound|, |paged|, head);
    assert final[|start|] == paged[|start|] == bound[|start|];
    assert OrphanReady(workflow, final, id, |start|);
  }
}
