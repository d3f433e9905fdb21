/** The repository-wide controller: a complete bounded scan and one PR's superseded runs. */
module RepositoryController {
  import opened Common
  import opened RunObservations
  import opened GitHubApi
  import opened ScopedController
  import opened CancellationRun

  // ---- The scan -----------------------------------------------------------------------------------

  /** The observations of the exchanges from `start` on, in order. */
  function ShownFrom(t: Trace, start: nat): seq<Observation> {
    if |t| <= start then [] else ShownFrom(t[..|t| - 1], start) + Listed(t[|t| - 1])
  }

  function Listed(x: Exchange): seq<Observation> { if x.reply.RunsPage? then Somes(x.reply.rows) else [] }

  function Somes(rows: seq<Option<Observation>>): (r: seq<Observation>)
    ensures forall o :: o in r ==> Some(o) in rows
  {
    if rows == [] then []
    else
      var n := |rows| - 1;
      assert rows == rows[..n] + [rows[n]];
      Somes(rows[..n]) + if rows[n].Some? then [rows[n].value] else []
  }

  lemma {:induction false} SomesOfRows(s: seq<Observation>)
    ensures Somes(Rows(s)) == s
  {
    if s != [] {
      var n := |s| - 1;
      SomesOfRows(s[..n]);
      assert Rows(s)[..n] == Rows(s[..n]);
    }
  }

  /** Every observation that a scan returns was shown by some page of the trace. */
  lemma {:induction false} ShownSomewhere(t: Trace, start: nat, o: Observation) returns (k: nat)
    requires o in ShownFrom(t, start)
    ensures ShownIn(t, k, o)
    decreases |t|
  {
    var n := |t| - 1;
    if o in Listed(t[n]) {
      k := n;
    } else {
      k := ShownSomewhere(t[..n], start, o);
    }
  }

  method ParsePage(rows: seq<Option<Observation>>) returns (ok: bool, runs: seq<Observation>)
    ensures ok <==> None !in rows
    ensures ok ==> Rows(runs) == rows
  {
    runs := [];
    for i := 0 to |rows|
      invariant |runs| == i && forall k :: 0 <= k < i ==> rows[k] == Some(runs[k])
    {
      if rows[i].None? { return false, runs; }
      runs := runs + [rows[i].value];
    }
    return true, runs;
  }

  lemma ShownSnoc(before: Trace, x: Exchange, start: nat, shown: seq<Observation>)
    requires start <= |before| && x.reply.RunsPage? && x.reply.rows == Rows(shown)
    ensures ShownFrom(before + [x], start) == ShownFrom(before, start) + shown
  {
    SomesOfRows(shown);
    assert (before + [x])[..|before|] == before;
  }

  /** Reads one page; what it returns is what the page showed. */
  method ScanPage(api: Api, status: nat, page: nat, ghost start: nat, ghost still: Option<seq<Observation>>)
    returns (r: Attempt<(int, seq<Observation>)>)
    requires api.Valid() && page >= 1 && start <= |api.trace|
    requires still.Some? ==> Static(api.world, status, still.value)
    modifies api
    ensures api.Valid() && Posts(api.trace) == Posts(old(api.trace)) && old(api.trace) <= api.trace
    ensures |api.trace| <= |old(api.trace)| + 1
    ensures r.Got? ==> |api.trace| == |old(api.trace)| + 1
                       && api.trace[|old(api.trace)|].reply == RunsPage(r.value.0, Rows(r.value.1))
    ensures r.Got? ==> ShownFrom(api.trace, start) == ShownFrom(old(api.trace), start) + r.value.1
    ensures r.Refused? ==> r.why in {Failure, BudgetExhausted}
    ensures old(api.remaining).None? ==> api.remaining.None? && r != Refused(BudgetExhausted)
    ensures still.Some? ==> r == Refused(BudgetExhausted) || r == Got((|still.value|, PageOf(still.value, page)))
  {
    if still.Some? {
      assert api.world(|api.trace|, ListRuns(status, page)) == RunsPage(|still.value|, Rows(PageOf(still.value, page)));
    }
    var next := api.ListPage(status, page);
    if next.Refused? { return Refused(next.why); }
    var ok, shown := ParsePage(next.value.1);
    if !ok { return Refused(Failure); }
    ShownSnoc(old(api.trace), api.trace[|old(api.trace)|], start, shown);
    if still.Some? { SameRows(shown, PageOf(still.value, page)); }
    return Got((next.value.0, shown));
  }

  lemma SameRows(a: seq<Observation>, b: seq<Observation>)
    ensures Rows(a) == Rows(b) ==> a == b
  {
    if Rows(a) == Rows(b) {
      assert forall i :: 0 <= i < |a| ==> Rows(a)[i] == Some(a[i]) && Rows(b)[i] == Some(b[i]);
    }
  }

  /** Where the scan of a fixed collection stands before a page. */
  predicate WholeSoFar(c: seq<Observation>, runs: seq<Observation>, seen: set<nat>, page: nat) {
    && page >= 1 && runs == ReadSoFar(c, page - 1) && seen == Ids(runs)
    && (page > 1 ==> |c| > RUNS_PER_PAGE * (page - 1))
  }

  predicate Stops(rows: nat, known: nat, seen: nat, total: int, page: nat, limit: nat) {
    rows < RUNS_PER_PAGE || seen == known || seen >= total || page >= limit
  }

  lemma MorePages(n: int, page: nat)
    requires n > RUNS_PER_PAGE * page
    ensures page < PagesFor(n) + 1
  {
  }

  lemma WholeCounts(c: seq<Observation>, page: nat)
    requires DistinctIds(c) && page >= 1 && (page > 1 ==> |c| > RUNS_PER_PAGE * (page - 1))
    ensures var runs, shown := ReadSoFar(c, page - 1), PageOf(c, page);
            && runs + shown == ReadSoFar(c, page) && Ids(runs + shown) == Ids(runs) + Ids(shown)
            && |Ids(runs)| == |runs| && |Ids(runs + shown)| == |runs + shown|
  {
    StaticStep(c, page - 1);
    RenamedAppend(ReadSoFar(c, page - 1), PageOf(c, page), "");
    DistinctCount(ReadSoFar(c, page - 1));
    DistinctCount(ReadSoFar(c, page));
  }

  lemma WholeStep(c: seq<Observation>, runs: seq<Observation>, seen: set<nat>, page: nat)
    requires DistinctIds(c) && WholeSoFar(c, runs, seen, page)
    ensures var next, shown := runs + PageOf(c, page), PageOf(c, page);
            var ids := seen + Ids(shown);
            if Stops(|shown|, |seen|, |ids|, |c|, page, PagesFor(|c|) + 1)
            then next == c else WholeSoFar(c, next, ids, page + 1)
  {
    WholeCounts(c, page);
    if |c| > RUNS_PER_PAGE * page {
      MorePages(|c|, page);
      assert |PageOf(c, page)| == RUNS_PER_PAGE;
    } else {
      assert runs + PageOf(c, page) == c;
    }
  }

  /** The first page of the scan gave this count. */
  predicate FirstCount(t: Trace, start: nat, count: int) {
    start < |t| && t[start].reply.RunsPage? && t[start].reply.total == count
  }

  /** The loop state of a scan before page `page`; `limit` is zero until the first count is known. */
  datatype Scan = Scan(runs: seq<Observation>, seen: set<nat>, page: nat, limit: nat)

  /** What holds before each page of the scan that started at `start`. */
  ghost predicate Scanning(t: Trace, start: nat, s: Scan, count: int, still: Option<seq<Observation>>) {
    && s.page >= 1 && |t| == start + s.page - 1 && s.runs == ShownFrom(t, start)
    && (s.page == 1 <==> s.limit == 0)
    && (s.page > 1 ==> s.page <= s.limit && s.limit == PagesFor(count) + 1 && FirstCount(t, start, count))
    && (still.Some? ==> WholeSoFar(still.value, s.runs, s.seen, s.page) && (s.page > 1 ==> count == |still.value|))
  }

  lemma FirstCountAfter(
    before: Trace, after: Trace, start: nat, s: Scan, first: int, still: Option<seq<Observation>>, total: int,
    count: int)
    requires Scanning(before, start, s, first, still) && before <= after && |after| == |before| + 1
    requires after[|before|].reply.RunsPage? && after[|before|].reply.total == total
    requires if s.limit == 0 then count == total else count == first
    ensures FirstCount(after, start, count)
  {
    if s.page > 1 { assert after[start] == before[start]; }
  }

  /** The limit is known after the first page and is then kept. */
  lemma LimitHolds(
    before: Trace, start: nat, s: Scan, first: int, still: Option<seq<Observation>>, total: int, count: int, limit: nat)
    requires Scanning(before, start, s, first, still)
    requires if s.limit == 0 then count == total && limit == PagesFor(total) + 1 else count == first && limit == s.limit
    requires still.Some? ==> total == |still.value|
    ensures limit == PagesFor(count) + 1 && s.page <= limit && limit > 1
    ensures still.Some? ==> count == |still.value| && limit == PagesFor(|still.value|) + 1
  {
  }

  lemma NextScanning(after: Trace, start: nat, next: Scan, count: int, still: Option<seq<Observation>>)
    requires next.page > 1 && |after| == start + next.page - 1 && next.runs == ShownFrom(after, start)
    requires FirstCount(after, start, count) && next.page <= next.limit && next.limit == PagesFor(count) + 1
    requires still.Some? ==> WholeSoFar(still.value, next.runs, next.seen, next.page) && count == |still.value|
    ensures Scanning(after, start, next, count, still)
  {
  }

  /** One page of a collection that stands still. */
  lemma StepStill(c: seq<Observation>, s: Scan, shown: seq<Observation>, limit: nat)
    requires DistinctIds(c) && WholeSoFar(c, s.runs, s.seen, s.page) && shown == PageOf(c, s.page)
    requires limit == PagesFor(|c|) + 1
    ensures var seen := s.seen + Ids(shown);
            if Stops(|shown|, |s.seen|, |seen|, |c|, s.page, limit) then s.runs + shown == c
            else WholeSoFar(c, s.runs + shown, seen, s.page + 1)
  {
    WholeStep(c, s.runs, s.seen, s.page);
  }

  /** The step, whatever decides that it is the last. */
  lemma StepOrStop(
    before: Trace, after: Trace, start: nat, s: Scan, first: int, still: Option<seq<Observation>>, total: int,
    next: Scan, count: int, stop: bool)
    requires Scanning(before, start, s, first, still) && before <= after && |after| == |before| + 1
    requires after[|before|].reply.RunsPage? && after[|before|].reply.total == total
    requires next.runs == ShownFrom(after, start) && next.page == s.page + 1 && (stop || s.page < next.limit)
    requires if s.limit == 0 then count == total && next.limit == PagesFor(total) + 1
             else count == first && next.limit == s.limit
    requires still.Some? ==> total == |still.value|
    requires still.Some? && !stop ==> WholeSoFar(still.value, next.runs, next.seen, next.page)
    ensures FirstCount(after, start, count) && next.limit == PagesFor(count) + 1 && s.page <= next.limit
    ensures !stop ==> Scanning(after, start, next, count, still)
  {
    FirstCountAfter(before, after, start, s, first, still, total, count);
    LimitHolds(before, start, s, first, still, total, count, next.limit);
    if !stop { NextScanning(after, start, next, count, still); }
  }

  lemma StepHolds(
    before: Trace, after: Trace, start: nat, s: Scan, first: int, still: Option<seq<Observation>>, total: int,
    shown: seq<Observation>, count: int, limit: nat)
    requires Scanning(before, start, s, first, still) && before <= after && |after| == |before| + 1
    requires after[|before|].reply.RunsPage? && after[|before|].reply.total == total
    requires ShownFrom(after, start) == s.runs + shown
    requires if s.limit == 0 then count == total && limit == PagesFor(total) + 1 else count == first && limit == s.limit
    requires still.Some? ==> DistinctIds(still.value) && total == |still.value| && shown == PageOf(still.value, s.page)
    ensures FirstCount(after, start, count) && limit == PagesFor(count) + 1 && s.page <= limit
    ensures var next := Scan(s.runs + shown, s.seen + Ids(shown), s.page + 1, limit);
            if Stops(|shown|, |s.seen|, |next.seen|, total, s.page, limit) then still.Some? ==> next.runs == still.value
            else Scanning(after, start, next, count, still)
  {
    var next := Scan(s.runs + shown, s.seen + Ids(shown), s.page + 1, limit);
    var stop := Stops(|shown|, |s.seen|, |next.seen|, total, s.page, limit);
    LimitHolds(before, start, s, first, still, total, count, limit);
    if still.Some? { StepStill(still.value, s, shown, limit); }
    StepOrStop(before, after, start, s, first, still, total, next, count, stop);
  }

  /** One page: the next loop state, or the end of the scan. */
  method ScanStep(
    api: Api, status: nat, s: Scan, ghost start: nat, ghost first: int, ghost still: Option<seq<Observation>>)
    returns (r: Attempt<(Scan, bool)>, ghost count: int)
    requires api.Valid() && Scanning(api.trace, start, s, first, still)
    requires still.Some? ==> Static(api.world, status, still.value)
    modifies api
    ensures api.Valid() && Posts(api.trace) == Posts(old(api.trace)) && old(api.trace) <= api.trace
    ensures |api.trace| <= |old(api.trace)| + 1
    ensures s.page > 1 ==> count == first
    ensures r.Refused? ==> r.why in {Failure, BudgetExhausted} && (still.Some? ==> r.why == BudgetExhausted)
    ensures old(api.remaining).None? ==> api.remaining.None? && r != Refused(BudgetExhausted)
    ensures r.Got? ==>
              var (next, done) := r.value;
              && |api.trace| == |old(api.trace)| + 1 && next.limit == PagesFor(count) + 1
              && s.page <= next.limit && (s.limit > 0 ==> next.limit == s.limit)
              && FirstCount(api.trace, start, count)
              && if done then next.runs == ShownFrom(api.trace, start) && (still.Some? ==> next.runs == still.value)
                 else next.page == s.page + 1 && Scanning(api.trace, start, next, count, still)
  {
    count := first;
    var next := ScanPage(api, status, s.page, start, still);
    if next.Refused? { return Refused(next.why), count; }
    var total, shown := next.value.0, next.value.1;
    var limit := s.limit;
    if limit == 0 { limit, count := PagesFor(total) + 1, total; }
    StepHolds(old(api.trace), api.trace, start, s, first, still, total, shown, count, limit);
    var runs, seen := s.runs + shown, s.seen + Ids(shown);
    var done := Stops(|shown|, |s.seen|, |seen|, total, s.page, limit);
    return Got((Scan(runs, seen, s.page + 1, limit), done)), count;
  }

  /**
   * The scan of one status: for any replies it ends within one page more than the first count needs, and
   * it returns every run of a collection that stands still.
   */
  method ActiveRunsForStatus(api: Api, status: nat, ghost still: Option<seq<Observation>>)
    returns (r: Attempt<seq<Observation>>, ghost count: int)
    requires api.Valid()
    requires still.Some? ==> Static(api.world, status, still.value)
    modifies api
    ensures api.Valid() && Posts(api.trace) == Posts(old(api.trace)) && old(api.trace) <= api.trace
    ensures |api.trace| > |old(api.trace)| + 1 ==>
              FirstCount(api.trace, |old(api.trace)|, count) && |api.trace| <= |old(api.trace)| + PagesFor(count) + 1
    ensures r.Got? ==> r.value == ShownFrom(api.trace, |old(api.trace)|)
    ensures r.Refused? ==> r.why in {Failure, BudgetExhausted}
    ensures old(api.remaining).None? ==> api.remaining.None? && r != Refused(BudgetExhausted)
    ensures still.Some? ==> r == Refused(BudgetExhausted) || r == Got(still.value)
  {
    var scan := Scan([], {}, 1, 0);
    count := 0;
    while true
      invariant api.Valid() && old(api.trace) <= api.trace && Posts(api.trace) == Posts(old(api.trace))
      invariant Scanning(api.trace, |old(api.trace)|, scan, count, still)
      invariant old(api.remaining).None? ==> api.remaining.None?
      decreases scan.limit == 0, scan.limit - scan.page
    {
      var next: Attempt<(Scan, bool)>;
      next, count := ScanStep(api, status, scan, |old(api.trace)|, count, still);
      if next.Refused? { return Refused(next.why), count; }
      scan := next.value.0;
      if next.value.1 { break; }
    }
    return Got(scan.runs), count;
  }

  // ---- Superseded runs of one PR --------------------------------------------------------------------

  /** Observation `i` is the first of its run and no other observation disagrees with it. */
  predicate AgreedAt(obs: seq<Observation>, i: nat)
    requires i < |obs|
  {
    && (forall j :: 0 <= j < i ==> obs[j].id != obs[i].id)
    && (forall j :: 0 <= j < |obs| && obs[j].id == obs[i].id ==>
          obs[j].head == obs[i].head && obs[j].name == obs[i].name && obs[j].prs == obs[i].prs)
  }

  function Agreed(obs: seq<Observation>, i: nat): (r: seq<Observation>)
    requires i <= |obs|
    ensures forall o :: o in r <==> exists k :: i <= k < |obs| && obs[k] == o && AgreedAt(obs, k)
    decreases |obs| - i
  {
    if i == |obs| then []
    else if AgreedAt(obs, i) then [obs[i]] + Agreed(obs, i + 1)
    else Agreed(obs, i + 1)
  }

  /** All observations of the run agree with this one. */
  predicate AgreedOn(obs: seq<Observation>, o: Observation) {
    o in obs && forall p :: p in obs && p.id == o.id ==> p.head == o.head && p.name == o.name && p.prs == o.prs
  }

  /** A record of the run on which all observations agree. */
  ghost predicate SupersededIn(obs: seq<Observation>, id: nat, pr: nat, name: string, current: nat, live: Reply) {
    live.Pull? && exists o ::
      AgreedOn(obs, o) && o.id == id && Superseded(o, pr, live.head, name, current, live.capable)
  }

  /** The agreed records superseded by the live state are one for each such run. */
  lemma AgreedExactly(obs: seq<Observation>, id: nat, pr: nat, name: string, current: nat, live: Sha, capable: bool)
    ensures (exists o :: o in Agreed(obs, 0) && o.id == id && Superseded(o, pr, live, name, current, capable)) <==>
            SupersededIn(obs, id, pr, name, current, Pull(live, capable))
  {
    forall o | o in Agreed(obs, 0) ensures AgreedOn(obs, o) {
      var k: nat :| k < |obs| && obs[k] == o && AgreedAt(obs, k);
    }
    if o: Observation :| AgreedOn(obs, o) && o.id == id && Superseded(o, pr, live, name, current, capable) {
      var i := FirstOf(obs, o);
      assert obs[i] in obs && AgreedAt(obs, i);
      assert obs[i] in Agreed(obs, 0);
    }
  }

  /** The collections one after the other. */
  function Joined(still: seq<seq<Observation>>): seq<Observation> {
    if still == [] then [] else Joined(still[..|still| - 1]) + still[|still| - 1]
  }

  method ActiveRuns(api: Api, ghost still: Option<seq<seq<Observation>>>) returns (r: Attempt<seq<Observation>>)
    requires api.Valid()
    requires still.Some? ==> StandsStill(api.world, still.value)
    modifies api
    ensures api.Valid() && Posts(api.trace) == Posts(old(api.trace)) && old(api.trace) <= api.trace
    ensures r.Got? ==> r.value == ShownFrom(api.trace, |old(api.trace)|)
    ensures r.Refused? ==> r.why in {Failure, BudgetExhausted}
    ensures old(api.remaining).None? ==> r != Refused(BudgetExhausted)
    ensures still.Some? ==> r == Refused(BudgetExhausted) || r == Got(Joined(still.value))
  {
    var runs: seq<Observation> := [];
    for status := 0 to STATUS_COUNT
      invariant api.Valid() && old(api.trace) <= api.trace && Posts(api.trace) == Posts(old(api.trace))
      invariant runs == ShownFrom(api.trace, |old(api.trace)|)
      invariant still.Some? ==> runs == Joined(still.value[..status])
    {
      ghost var middle := api.trace;
      ghost var count: int;
      var next: Attempt<seq<Observation>>;
      next, count := ActiveRunsForStatus(api, status, if still.None? then None else Some(still.value[status]));
      if next.Refused? { return Refused(next.why); }
      ShownJoin(api.trace, |old(api.trace)|, middle);
      if still.Some? { assert still.value[..status + 1][..status] == still.value[..status]; }
      runs := runs + next.value;
    }
    if still.Some? { assert still.value[..STATUS_COUNT] == still.value; }
    return Got(runs);
  }

  lemma {:induction false} ShownJoin(t: Trace, start: nat, middle: Trace)
    requires middle <= t && start <= |middle|
    ensures ShownFrom(t, start) == ShownFrom(middle, start) + ShownFrom(t, |middle|)
    decreases |t|
  {
    if |t| > |middle| {
      assert middle <= t[..|t| - 1];
      ShownJoin(t[..|t| - 1], start, middle);
    } else {
      assert t == middle;
    }
  }

  /** A fresh qualification, then the effect; `false` when the qualification changed. */
  method ConfirmAndCancel(api: Api, pr: nat, id: nat, q: Qualification, ghost o: Observation, ghost k: nat)
    returns (r: Attempt<bool>)
    requires api.Valid() && api.scope.None?
    requires ShownIn(api.trace, k, o) && o.id == id && o.prs == [pr] && !(q.head == o.head && q.capable)
    modifies api
    ensures api.Valid() && old(api.trace) <= api.trace
    ensures Posts(api.trace) == Posts(old(api.trace)) || Posts(api.trace) == Posts(old(api.trace)) + [id]
    ensures Posts(api.trace) != Posts(old(api.trace)) ==>
              && |api.trace| >= |old(api.trace)| + 2
              && api.trace[|old(api.trace)|] == Exchange(GetPull(pr), Pull(q.head, q.capable))
              && api.trace[|old(api.trace)| + 1].request == PostCancel(id)
    ensures r == Got(true) ==> Posts(api.trace) == Posts(old(api.trace)) + [id] && TookEffect(api.trace, id)
    ensures r == Got(false) ==>
              && Posts(api.trace) == Posts(old(api.trace)) && |api.trace| == |old(api.trace)| + 1
              && api.trace[|old(api.trace)|].request == GetPull(pr) && api.trace[|old(api.trace)|].reply.Pull?
              && api.trace[|old(api.trace)|].reply != Pull(q.head, q.capable)
    ensures r.Refused? ==> r.why in {Failure, StillActive, BudgetExhausted}
    ensures Calm(api.world) && api.world(0, GetPull(pr)) == Pull(q.head, q.capable) ==>
              r != Got(false) && (Healthy(api.world) ==> r == Got(true) || r == Refused(BudgetExhausted))
    ensures old(api.remaining).None? ==> r != Refused(BudgetExhausted)
  {
    ghost var start := |api.trace|;
    if Calm(api.world) {
      assert api.world(start, GetPull(pr)) == api.world(0, GetPull(pr));
      assert api.world(start + 1, PostCancel(id)) == api.world(0, PostCancel(id));
    }
    var confirmation := api.LiveQualification(pr);
    if confirmation.Refused? { return Refused(confirmation.why); }
    if confirmation.value != q { return Got(false); }
    assert api.trace[k] == old(api.trace)[k];
    assert ListedReady(api.trace, id, o, k);
    var done := api.PostCancelRun(id);
    if done.Refused? { return Refused(done.why); }
    return Got(true);
  }

  datatype CancellationResult = CancellationResult(currentHead: bool, cancelled: seq<nat>)

  lemma SelectedExactly(
    runs: seq<Observation>, pr: nat, q: Qualification, name: string, current: nat, ids: seq<nat>)
    requires forall id :: id in ids <==> id in SelectSuperseded(runs, pr, q.head, name, current, !q.capable)
    ensures forall id: nat :: id in ids <==>
              exists o :: o in runs && o.id == id && Superseded(o, pr, q.head, name, current, q.capable)
  {
    forall id: nat
      ensures id in ids <==>
              exists o :: o in runs && o.id == id && Superseded(o, pr, q.head, name, current, q.capable)
    {
      SelectsExactly(runs, pr, q.head, name, current, q.capable, id);
    }
  }

  /** The effect for one selected run, which a page before `scanned` showed. */
  method CancelChosen(api: Api, pr: nat, name: string, current: nat, q: Qualification, runs: seq<Observation>,
                      id: nat, ghost scanned: Trace, ghost start: nat)
    returns (r: Attempt<bool>)
    requires api.Valid() && api.scope.None? && scanned <= api.trace
    requires id in SelectSuperseded(runs, pr, q.head, name, current, !q.capable)
    requires forall o :: o in runs ==> o in ShownFrom(scanned, start)
    modifies api
    ensures api.Valid() && old(api.trace) <= api.trace
    ensures Posts(api.trace) == Posts(old(api.trace)) || Posts(api.trace) == Posts(old(api.trace)) + [id]
    ensures r == Got(true) ==> Posts(api.trace) == Posts(old(api.trace)) + [id]
    ensures Calm(api.world) && api.world(0, GetPull(pr)) == Pull(q.head, q.capable) ==>
              r != Got(false) && (Healthy(api.world) ==> r == Got(true) || r == Refused(BudgetExhausted))
    ensures old(api.remaining).None? ==> r != Refused(BudgetExhausted)
  {
    ghost var o, k := ChosenShown(scanned, start, runs, pr, q, name, current, id);
    assert api.trace[k] == scanned[k];
    r := ConfirmAndCancel(api, pr, id, q, o, k);
  }

  /** The effect loop over the selected runs: it ends early only when the qualification changed. */
  method CancelSelected(api: Api, pr: nat, name: string, current: nat, q: Qualification, runs: seq<Observation>,
                        ghost start: nat)
    returns (r: Attempt<CancellationResult>)
    requires api.Valid() && api.scope.None?
    requires start <= |api.trace| && forall o :: o in runs ==> o in ShownFrom(api.trace, start)
    modifies api
    ensures api.Valid() && old(api.trace) <= api.trace
    ensures Adds(Posts(old(api.trace)), Posts(api.trace), SelectSuperseded(runs, pr, q.head, name, current, !q.capable))
    ensures r.Got? ==> forall id :: id in r.value.cancelled ==> id in Posts(api.trace)
    ensures r.Got? && r.value.currentHead ==>
              forall id: nat :: id in r.value.cancelled <==>
                exists o :: o in runs && o.id == id && Superseded(o, pr, q.head, name, current, q.capable)
    ensures Calm(api.world) && api.world(0, GetPull(pr)) == Pull(q.head, q.capable) ==>
              (r.Got? ==> r.value.currentHead) && (Healthy(api.world) ==> r.Got? || r == Refused(BudgetExhausted))
    ensures old(api.remaining).None? ==> r != Refused(BudgetExhausted)
  {
    var chosen := SelectSuperseded(runs, pr, q.head, name, current, !q.capable);
    var selected := Ascending(chosen);
    var cancelled: seq<nat> := [];
    ghost var tried: set<nat> := {};
    AddsNothing(Posts(api.trace), {});
    for i := 0 to |selected|
      invariant api.Valid() && old(api.trace) <= api.trace
      invariant CancelledSoFar(Posts(old(api.trace)), Posts(api.trace), chosen, selected, tried, cancelled, i)
    {
      var id := selected[i];
      assert id in chosen;
      ghost var before := Posts(api.trace);
      var done := CancelChosen(api, pr, name, current, q, runs, id, old(api.trace), start);
      CancelledNext(Posts(old(api.trace)), before, Posts(api.trace), chosen, selected, tried, cancelled, i);
      tried := tried + {id};
      if done.Refused? { return Refused(done.why); }
      if !done.value {
        PostedStays(before, Posts(api.trace), cancelled);
        return Got(CancellationResult(false, cancelled));
      }
      cancelled := cancelled + [id];
    }
    AddsMore(Posts(old(api.trace)), Posts(api.trace), tried, chosen);
    assert cancelled == selected;
    SelectedExactly(runs, pr, q, name, current, cancelled);
    return Got(CancellationResult(true, cancelled));
  }

  /** The first `i` selected runs were cancelled, one post each, and no other was tried. */
  predicate CancelledSoFar(
    before: seq<nat>, now: seq<nat>, chosen: set<nat>, selected: seq<nat>, tried: set<nat>, cancelled: seq<nat>, i: nat)
  {
    && i <= |selected| && Adds(before, now, tried) && tried <= chosen
    && (forall k :: i <= k < |selected| ==> selected[k] !in tried)
    && |cancelled| == i && (forall k :: 0 <= k < i ==> cancelled[k] == selected[k] && cancelled[k] in now)
  }

  lemma PostedStays(now: seq<nat>, next: seq<nat>, ids: seq<nat>)
    requires now <= next && forall k :: 0 <= k < |ids| ==> ids[k] in now
    ensures forall id :: id in ids ==> id in next
  {
  }

  lemma CancelledNext(
    before: seq<nat>, now: seq<nat>, next: seq<nat>, chosen: set<nat>, selected: seq<nat>, tried: set<nat>,
    cancelled: seq<nat>, i: nat)
    requires CancelledSoFar(before, now, chosen, selected, tried, cancelled, i) && i < |selected|
    requires selected[i] in chosen && NoRepeats(selected) && (next == now || next == now + [selected[i]])
    ensures Adds(before, next, chosen) && now <= next
    ensures next == now + [selected[i]] ==>
              CancelledSoFar(before, next, chosen, selected, tried + {selected[i]}, cancelled + [selected[i]], i + 1)
  {
    var id := selected[i];
    AddsOne(before, now, tried, next, id);
    AddsMore(before, next, tried + {id}, chosen);
    if next == now + [id] {
      assert next[|now|] == id;
      forall k | 0 <= k < i ensures cancelled[k] in next {}
    }
  }

  lemma ChosenShown(t: Trace, start: nat, runs: seq<Observation>, pr: nat, q: Qualification, name: string, current: nat,
                    id: nat)
    returns (o: Observation, k: nat)
    requires id in SelectSuperseded(runs, pr, q.head, name, current, !q.capable)
    requires forall o :: o in runs ==> o in ShownFrom(t, start)
    ensures ShownIn(t, k, o) && o.id == id && o.prs == [pr] && !(q.head == o.head && q.capable)
  {
    o :| o in runs && o.id == id && o.prs == [pr] && (!q.capable || o.head != q.head);
    k := ShownSomewhere(t, start, o);
  }

  /** The list holds exactly the runs of the observations that the live state of the PR supersedes. */
  ghost predicate CancelsExactly(
    obs: seq<Observation>, pr: nat, name: string, current: nat, live: Reply, cancelled: seq<nat>)
  {
    forall id: nat :: id in cancelled <==> SupersededIn(obs, id, pr, name, current, live)
  }

  lemma CancelsAgreed(
    obs: seq<Observation>, pr: nat, name: string, current: nat, q: Qualification, cancelled: seq<nat>)
    requires forall id: nat :: id in cancelled <==>
               exists o :: o in Agreed(obs, 0) && o.id == id && Superseded(o, pr, q.head, name, current, q.capable)
    ensures CancelsExactly(obs, pr, name, current, Pull(q.head, q.capable), cancelled)
  {
    forall id: nat ensures id in cancelled <==> SupersededIn(obs, id, pr, name, current, Pull(q.head, q.capable)) {
      AgreedExactly(obs, id, pr, name, current, q.head, q.capable);
    }
  }

  /** The request about the PR that the reply answers is as the caller expects it to be. */
  predicate AsExpected(reply: Reply, eventHead: Sha, sameHead: Option<bool>) {
    reply.Pull? && (reply.head == eventHead && sameHead.Some? ==> sameHead.value == !reply.capable)
  }

  /** The effects after the qualification was confirmed. */
  method CancelConfirmed(api: Api, pr: nat, name: string, current: nat, q: Qualification, scan: seq<Observation>,
                         ghost start: nat)
    returns (r: Attempt<CancellationResult>)
    requires api.Valid() && api.scope.None? && Posts(api.trace) == []
    requires start <= |api.trace| && forall o :: o in scan ==> o in ShownFrom(api.trace, start)
    modifies api
    ensures api.Valid() && old(api.trace) <= api.trace
    ensures NoRepeats(Posts(api.trace)) && current !in Posts(api.trace)
    ensures r.Got? ==> forall id :: id in r.value.cancelled ==> id in Posts(api.trace)
    ensures r.Got? && r.value.currentHead ==>
              CancelsExactly(scan, pr, name, current, Pull(q.head, q.capable), r.value.cancelled)
    ensures Calm(api.world) && api.world(0, GetPull(pr)) == Pull(q.head, q.capable) ==>
              (r.Got? ==> r.value.currentHead) && (Healthy(api.world) ==> r.Got? || r == Refused(BudgetExhausted))
    ensures old(api.remaining).None? ==> r != Refused(BudgetExhausted)
  {
    var stable := Agreed(scan, 0);
    assert forall o :: o in stable ==> o in scan;
    r := CancelSelected(api, pr, name, current, q, stable, start);
    assert Posts(api.trace)[0..] == Posts(api.trace);
    if r.Got? && r.value.currentHead { CancelsAgreed(scan, pr, name, current, q, r.value.cancelled); }
  }

  /**
   * Cancels the superseded runs of one PR, provided the event head is still the live one. No run is
   * posted twice, the current run is never posted, and each post follows a fresh equal qualification. A
   * call that finds the event head live to the end has cancelled exactly the superseded runs it was shown.
   */
  method CancelSuperseded(api: Api, pr: nat, eventHead: Sha, name: string, current: nat, sameHead: Option<bool>,
                          ghost still: Option<seq<seq<Observation>>>)
    returns (r: Attempt<CancellationResult>, ghost seen: seq<Observation>)
    requires api.Valid() && api.scope.None? && api.trace == []
    requires still.Some? ==> StandsStill(api.world, still.value)
    modifies api
    ensures api.Valid() && AllJustified(None, api.trace)
    ensures NoRepeats(Posts(api.trace)) && current !in Posts(api.trace)
    ensures r.Got? ==> forall id :: id in r.value.cancelled ==> id in Posts(api.trace)
    ensures r.Got? && r.value.currentHead ==>
              var live := api.world(0, GetPull(pr));
              && live.Pull? && live.head == eventHead
              && CancelsExactly(seen, pr, name, current, live, r.value.cancelled)
              && (still.Some? ==> seen == Joined(still.value)) && AllShown(api.trace, seen)
    ensures Calm(api.world) && r.Got? ==>
              var live := api.world(0, GetPull(pr));
              live.Pull? && (r.value.currentHead <==> live.head == eventHead)
    ensures Calm(api.world) && Healthy(api.world) && still.Some? && api.limit.None? ==>
              AsExpected(api.world(0, GetPull(pr)), eventHead, sameHead) ==> r.Got?
  {
    seen := [];
    ghost var world := api.world;
    var live := api.LiveQualification(pr);
    if live.Refused? { return Refused(live.why), seen; }
    var q := live.value;
    AnsweredAt(world, api.trace, 0);
    if eventHead != q.head { return Got(CancellationResult(false, [])), seen; }
    if sameHead.Some? && sameHead.value != !q.capable { return Refused(Failure), seen; }
    ghost var start := |api.trace|;
    var scan := ActiveRuns(api, still);
    if scan.Refused? { return Refused(scan.why), seen; }
    seen := scan.value;
    ghost var scanned := api.trace;
    if Calm(world) { assert world(|scanned|, GetPull(pr)) == world(0, GetPull(pr)); }
    var confirmation := api.LiveQualification(pr);
    if confirmation.Refused? { return Refused(confirmation.why), seen; }
    if confirmation.value != q { return Got(CancellationResult(false, [])), seen; }
    ShownJoin(api.trace, start, scanned);
    r := CancelConfirmed(api, pr, name, current, q, scan.value, start);
    SeenShown(scanned, api.trace, start);
  }

  /** Every observation was shown by some page. */
  ghost predicate AllShown(t: Trace, seen: seq<Observation>) {
    forall o :: o in seen ==> exists k: nat :: ShownIn(t, k, o)
  }

  lemma SeenShown(before: Trace, after: Trace, start: nat)
    requires before <= after
    ensures AllShown(after, ShownFrom(before, start))
  {
    forall o | o in ShownFrom(before, start) ensures exists k: nat :: ShownIn(after, k, o) {
      var k := ShownSomewhere(before, start, o);
      assert ShownIn(after, k, o);
    }
  }
}
