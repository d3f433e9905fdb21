/**
 * The GitHub client of the cancellation controllers, against an arbitrary environment. Every request
 * costs one unit of a bounded budget; the exchanges so far are kept, and a cancel request may be sent
 * only when the exchanges before it justify it.
 */
module GitHubApi {
  import opened Common
  import opened RunObservations

  // ---- The wire -------------------------------------------------------------------------------

  datatype Request =
    | ListRuns(status: nat, page: nat)
    | GetRun(id: nat)
    | GetPull(pr: nat)
    | CommitPulls(head: Sha, page: nat)
    | GetBranch(branch: string)
    | PostCancel(id: nat)

  datatype RunStatus = ActiveStatus | CompletedStatus | UnknownStatus

  /** One re-read run; `pulls` is absent when it is not a list of numbers. */
  datatype RunDetail = RunDetail(
    id: nat, workflow: nat, fromPullRequest: bool, named: bool, head: Sha, status: RunStatus,
    pulls: Option<seq<nat>>, branch: Option<string>)

  datatype PullRow = PullRow(number: Option<nat>, headSound: bool)

  /** `Fault` is a transport error; a reply of the wrong kind is an invalid response. */
  datatype Reply =
    | Fault
    | RunsPage(total: int, rows: seq<Option<Observation>>)
    | RunReply(run: RunDetail)
    | Pull(head: Sha, capable: bool)
    | PullList(pulls: seq<PullRow>)
    | BranchHead(tip: Option<Sha>)
    | Accepted
    | Conflict

  datatype Exchange = Exchange(request: Request, reply: Reply)

  type Trace = seq<Exchange>

  datatype Refusal = Failure | AuthorityChanged | StillActive | Absent | Ambiguous | BudgetExhausted

  datatype Attempt<+T> = Got(value: T) | Refused(why: Refusal)

  datatype Qualification = Qualification(head: Sha, capable: bool)

  const PULLS_PER_PAGE := 100
  const RUNS_PER_PAGE := 100
  const STATUS_COUNT := 5

  // ---- What justifies a cancel request -----------------------------------------------------------

  predicate IsPost(x: Exchange) { x.request.PostCancel? }

  /** The run ids that were posted, in order. */
  function Posts(t: Trace): seq<nat> {
    if t == [] then []
    else Posts(t[..|t| - 1]) + if IsPost(t[|t| - 1]) then [t[|t| - 1].request.id] else []
  }

  /** The re-read run is still the same pull-request run of this workflow, and active. */
  predicate SameRun(d: RunDetail, workflow: nat, id: nat) {
    d.id == id && d.workflow == workflow && d.fromPullRequest && d.status.ActiveStatus?
  }

  /** Exchange `j` re-read run `id`. */
  predicate ReadRun(t: Trace, j: nat, workflow: nat, id: nat) {
    j < |t| && t[j].request == GetRun(id) && t[j].reply.RunReply? && SameRun(t[j].reply.run, workflow, id)
  }

  /** The last exchange is a live qualification of `pr` that does not protect a run of this head. */
  predicate QualifiedAgainst(t: Trace, pr: nat, head: Sha) {
    && |t| > 0
    && var x := t[|t| - 1];
       x.request == GetPull(pr) && x.reply.Pull? && !(x.reply.head == head && x.reply.capable)
  }

  function PullsOf(x: Exchange): seq<PullRow> { if x.reply.PullList? then x.reply.pulls else [] }

  /** Exchanges `i` to `j` are every page of the pulls of one commit. */
  predicate PullPages(t: Trace, i: nat, j: nat, head: Sha) {
    && i < j <= |t|
    && (forall k :: i <= k < j ==> t[k].request == CommitPulls(head, k - i + 1) && t[k].reply.PullList?)
    && (forall k :: i <= k < j ==> (|PullsOf(t[k])| < PULLS_PER_PAGE <==> k == j - 1))
  }

  predicate OnlyPull(t: Trace, i: nat, j: nat, pr: nat) {
    && j <= |t|
    && (forall k, r :: i <= k < j && r in PullsOf(t[k]) ==> r.number == Some(pr))
    && (exists k :: i <= k < j && PullsOf(t[k]) != [])
  }

  predicate NoPulls(t: Trace, i: nat, j: nat) { j <= |t| && forall k :: i <= k < j ==> PullsOf(t[k]) == [] }

  /** Identity re-read with exactly one PR, then the qualification of that PR. */
  predicate ExplicitReady(w: nat, t: Trace, id: nat) {
    && |t| >= 2 && ReadRun(t, |t| - 2, w, id)
    && var d := t[|t| - 2].reply.run;
       d.pulls.Some? && |d.pulls.value| == 1 && QualifiedAgainst(t, d.pulls.value[0], d.head)
  }

  /** Identity re-read without PR, unique commit association, then the qualification of that PR. */
  predicate RecoveredReady(w: nat, t: Trace, id: nat, j: nat, pr: nat) {
    && j + 1 < |t| && ReadRun(t, j, w, id)
    && var d := t[j].reply.run;
       && d.pulls == Some([])
       && PullPages(t, j + 1, |t| - 1, d.head) && OnlyPull(t, j + 1, |t| - 1, pr)
       && QualifiedAgainst(t, pr, d.head)
  }

  /** Identity re-read without PR, no commit association at all, then a branch that left the head. */
  predicate OrphanReady(w: nat, t: Trace, id: nat, j: nat) {
    && j + 1 < |t| && ReadRun(t, j, w, id)
    && var d := t[j].reply.run;
       && d.pulls == Some([]) && d.branch.Some?
       && PullPages(t, j + 1, |t| - 1, d.head) && NoPulls(t, j + 1, |t| - 1)
       && t[|t| - 1].request == GetBranch(d.branch.value)
       && t[|t| - 1].reply.BranchHead? && t[|t| - 1].reply.tip != Some(d.head)
  }

  /** Some page of the trace showed this observation. */
  predicate ShownIn(t: Trace, k: nat, o: Observation) {
    k < |t| && t[k].reply.RunsPage? && Some(o) in t[k].reply.rows
  }

  /** The repository-wide controller: a qualification that does not protect the run as it was listed. */
  predicate ListedReady(t: Trace, id: nat, o: Observation, k: nat) {
    ShownIn(t, k, o) && o.id == id && |o.prs| == 1 && QualifiedAgainst(t, o.prs[0], o.head)
  }

  /** The exchanges so far justify cancelling `id`: each case ends with the external read that decides. */
  ghost predicate Ready(scope: Option<nat>, t: Trace, id: nat) {
    match scope
    case None => exists o: Observation, k: nat :: ListedReady(t, id, o, k)
    case Some(w) =>
      || ExplicitReady(w, t, id)
      || (exists j: nat, pr: nat :: RecoveredReady(w, t, id, j, pr))
      || (exists j: nat :: OrphanReady(w, t, id, j))
  }

  /** Every cancel request of the trace was justified when it was sent. */
  ghost predicate AllJustified(scope: Option<nat>, t: Trace) {
    t == [] || (&& AllJustified(scope, t[..|t| - 1])
                && (IsPost(t[|t| - 1]) ==> Ready(scope, t[..|t| - 1], t[|t| - 1].request.id)))
  }

  /** Every reply is the environment's answer at that position. */
  ghost predicate Answered(world: (nat, Request) -> Reply, t: Trace) {
    t == [] || (Answered(world, t[..|t| - 1]) && t[|t| - 1].reply == world(|t| - 1, t[|t| - 1].request))
  }

  lemma {:induction false} JustifiedAt(scope: Option<nat>, t: Trace, k: nat)
    requires AllJustified(scope, t) && k < |t| && IsPost(t[k])
    ensures Ready(scope, t[..k], t[k].request.id)
    decreases |t|
  {
    if k < |t| - 1 {
      JustifiedAt(scope, t[..|t| - 1], k);
      assert t[..|t| - 1][..k] == t[..k];
    }
  }

  /** A page walk stays what it was when the trace grows. */
  lemma PagesKept(before: Trace, after: Trace, i: nat, j: nat, head: Sha)
    requires before <= after && j <= |before| && i <= j
    ensures PullPages(before, i, j, head) ==> PullPages(after, i, j, head)
    ensures NoPulls(before, i, j) ==> NoPulls(after, i, j)
    ensures forall pr :: OnlyPull(before, i, j, pr) ==> OnlyPull(after, i, j, pr)
  {
    assert forall k :: 0 <= k < |before| ==> after[k] == before[k];
  }

  /** `pr` is the run's one PR: named by re-read `j` itself, or by all pages of its commit's pulls after it. */
  predicate PrOfRun(h: Trace, j: nat, d: RunDetail, pr: nat) {
    || (d.pulls == Some([pr]) && j + 2 == |h|)
    || (&& d.pulls == Some([]) && j + 1 < |h|
        && PullPages(h, j + 1, |h| - 1, d.head) && OnlyPull(h, j + 1, |h| - 1, pr))
  }

  /** The last read is of the run's one PR, which does not protect the head that was re-read. */
  predicate PullDecides(h: Trace, j: nat, d: RunDetail) {
    && h != []
    && var last := h[|h| - 1];
       last.request.GetPull? && PrOfRun(h, j, d, last.request.pr) && QualifiedAgainst(h, last.request.pr, d.head)
  }

  /** No PR has the commit that was re-read, and the last read shows its branch elsewhere. */
  predicate BranchDecides(h: Trace, j: nat, d: RunDetail) {
    && j + 1 < |h| && d.pulls == Some([]) && PullPages(h, j + 1, |h| - 1, d.head) && NoPulls(h, j + 1, |h| - 1)
    && var last := h[|h| - 1];
       && last.request.GetBranch? && d.branch == Some(last.request.branch)
       && last.reply.BranchHead? && last.reply.tip != Some(d.head)
  }

  lemma ExplicitDecides(w: nat, h: Trace, id: nat)
    requires ExplicitReady(w, h, id)
    ensures ReadRun(h, |h| - 2, w, id) && PullDecides(h, |h| - 2, h[|h| - 2].reply.run)
  {
    var d := h[|h| - 2].reply.run;
    assert d.pulls.value == [d.pulls.value[0]];
  }

  /**
   * The external read just before a cancel request decides it: after an identity re-read of that run,
   * either its one PR no longer protects its head, or no PR has its commit and its branch has left it.
   */
  lemma DecidingRead(w: nat, t: Trace, k: nat) returns (j: nat)
    requires AllJustified(Some(w), t) && k < |t| && IsPost(t[k])
    ensures j + 1 < k && ReadRun(t[..k], j, w, t[k].request.id)
    ensures t[j].request == GetRun(t[k].request.id) && t[j].reply.RunReply?
    ensures var d := t[j].reply.run;
            d.id == t[k].request.id && d.workflow == w && d.fromPullRequest && d.status == ActiveStatus
    ensures PullDecides(t[..k], j, t[j].reply.run) || BranchDecides(t[..k], j, t[j].reply.run)
  {
    var id, h := t[k].request.id, t[..k];
    JustifiedAt(Some(w), t, k);
    j := ReadyDecides(w, h, id);
    assert h[j] == t[j];
  }

  lemma ReadyDecides(w: nat, h: Trace, id: nat) returns (j: nat)
    requires Ready(Some(w), h, id)
    ensures j + 1 < |h| && ReadRun(h, j, w, id)
    ensures PullDecides(h, j, h[j].reply.run) || BranchDecides(h, j, h[j].reply.run)
  {
    if ExplicitReady(w, h, id) {
      ExplicitDecides(w, h, id);
      j := |h| - 2;
    } else if exists i: nat, pr: nat :: RecoveredReady(w, h, id, i, pr) {
      var i: nat, pr: nat :| RecoveredReady(w, h, id, i, pr);
      j := i;
    } else {
      var i: nat :| OrphanReady(w, h, id, i);
      j := i;
    }
  }

  /** The same for the repository-wide controller, about a run as some page listed it. */
  lemma ListedDecidingRead(t: Trace, k: nat) returns (j: nat, o: Observation)
    requires AllJustified(None, t) && k < |t| && IsPost(t[k])
    ensures 0 < k && j < k && ShownIn(t, j, o) && o.id == t[k].request.id && |o.prs| == 1
    ensures var last := t[k - 1];
            last.request == GetPull(o.prs[0]) && last.reply.Pull? && !(last.reply.head == o.head && last.reply.capable)
  {
    JustifiedAt(None, t, k);
    o, j :| ListedReady(t[..k], t[k].request.id, o, j);
  }

  lemma JustifiedSnoc(scope: Option<nat>, world: (nat, Request) -> Reply, t: Trace, x: Exchange)
    requires AllJustified(scope, t) && (IsPost(x) ==> Ready(scope, t, x.request.id))
    requires Answered(world, t) && x.reply == world(|t|, x.request)
    ensures AllJustified(scope, t + [x]) && Answered(world, t + [x])
    ensures Posts(t + [x]) == Posts(t) + if IsPost(x) then [x.request.id] else []
  {
    assert (t + [x])[..|t|] == t;
  }

  predicate ShowsCompleted(x: Exchange, id: nat) {
    x.request == GetRun(id) && x.reply.RunReply? && x.reply.run.status == CompletedStatus
  }

  /** The trace ends with an effective cancel: accepted, or refused and then shown completed. */
  predicate TookEffect(t: Trace, id: nat) {
    || (|t| >= 1 && t[|t| - 1] == Exchange(PostCancel(id), Accepted))
    || (|t| >= 2 && t[|t| - 2] == Exchange(PostCancel(id), Conflict) && ShowsCompleted(t[|t| - 1], id))
  }

  /** The trace ends with a cancel that GitHub refused while the run was still shown active. */
  predicate WasDeferred(t: Trace, id: nat) {
    && |t| >= 2 && t[|t| - 2] == Exchange(PostCancel(id), Conflict)
    && t[|t| - 1].request == GetRun(id) && t[|t| - 1].reply.RunReply? && t[|t| - 1].reply.run.status == ActiveStatus
  }

  predicate PageNames(x: Exchange, n: nat) { exists r :: r in PullsOf(x) && r.number == Some(n) }

  /** Some page from exchange `i` on names this PR. */
  predicate Named(t: Trace, i: nat, n: nat) { exists k :: i <= k < |t| && PageNames(t[k], n) }

  /** The exchanges from `start` on are all pages of the commit's pulls, and these are the numbers they name. */
  ghost predicate Associates(t: Trace, start: nat, head: Sha, numbers: set<nat>) {
    && PullPages(t, start, |t|, head)
    && (forall n :: n in numbers <==> Named(t, start, n))
    && (numbers == {} <==> NoPulls(t, start, |t|))
    && forall pr: nat :: numbers == {pr} <==> OnlyPull(t, start, |t|, pr)
  }

  // ---- An environment that stands still --------------------------------------------------------------

  /** Every request gets the same reply whenever it is sent. */
  ghost predicate Calm(world: (nat, Request) -> Reply) {
    forall k: nat, q: Request :: world(k, q) == world(0, q)
  }

  function PageShown(world: (nat, Request) -> Reply, head: Sha, page: nat): Reply { world(0, CommitPulls(head, page)) }

  function RowsShown(world: (nat, Request) -> Reply, head: Sha, page: nat): seq<PullRow> {
    if PageShown(world, head, page).PullList? then PageShown(world, head, page).pulls else []
  }

  predicate GoodPage(x: Reply, headsMatter: bool) {
    x.PullList? && forall i :: 0 <= i < |x.pulls| ==> RowSound(x.pulls[i], headsMatter)
  }

  /** A commit's pulls fill `n` pages, all well formed. */
  predicate GoodPages(world: (nat, Request) -> Reply, head: Sha, n: nat, headsMatter: bool) {
    && n >= 1
    && (forall p :: 1 <= p <= n ==> GoodPage(PageShown(world, head, p), headsMatter))
    && (forall p :: 1 <= p <= n ==> (|RowsShown(world, head, p)| < PULLS_PER_PAGE <==> p == n))
  }

  /** No number of pages of the commit's pulls is well formed. */
  ghost predicate Malformed(world: (nat, Request) -> Reply, head: Sha, headsMatter: bool) {
    forall n: nat :: !GoodPages(world, head, n, headsMatter)
  }

  /** No PR has the commit. */
  predicate NoneOf(world: (nat, Request) -> Reply, head: Sha) { PageShown(world, head, 1) == PullList([]) }

  predicate PagesName(world: (nat, Request) -> Reply, head: Sha, n: nat, pr: nat) {
    && (forall p :: 1 <= p <= n ==> RowsName(RowsShown(world, head, p), pr))
    && (exists p :: 1 <= p <= n && RowsShown(world, head, p) != [])
  }

  predicate RowsName(rows: seq<PullRow>, pr: nat) { forall r :: r in rows ==> r.number == Some(pr) }

  /** Exactly one PR has the commit. */
  ghost predicate OneOf(world: (nat, Request) -> Reply, head: Sha, pr: nat) {
    exists n: nat :: GoodPages(world, head, n, true) && PagesName(world, head, n, pr)
  }

  lemma {:induction false} AnsweredAt(world: (nat, Request) -> Reply, t: Trace, k: nat)
    requires Answered(world, t) && k < |t|
    ensures t[k].reply == world(k, t[k].request)
    decreases |t|
  {
    if k < |t| - 1 { AnsweredAt(world, t[..|t| - 1], k); }
  }

  lemma OnePageCount(world: (nat, Request) -> Reply, head: Sha, m: nat, n: nat, a: bool, b: bool)
    requires GoodPages(world, head, m, a) && GoodPages(world, head, n, b)
    ensures m == n
  {
    assert |RowsShown(world, head, m)| < PULLS_PER_PAGE && |RowsShown(world, head, n)| < PULLS_PER_PAGE;
  }

  lemma NoneHasOnePage(world: (nat, Request) -> Reply, head: Sha, headsMatter: bool)
    requires NoneOf(world, head)
    ensures GoodPages(world, head, 1, headsMatter)
  {
  }

  /** A commit cannot have no PR and one, or two different ones. */
  lemma OneOfExcludes(world: (nat, Request) -> Reply, head: Sha, pr: nat, other: nat)
    requires OneOf(world, head, pr)
    ensures !NoneOf(world, head) && (OneOf(world, head, other) ==> other == pr)
  {
    var n: nat :| GoodPages(world, head, n, true) && PagesName(world, head, n, pr);
    var p :| 1 <= p <= n && RowsShown(world, head, p) != [];
    if NoneOf(world, head) {
      NoneHasOnePage(world, head, true);
      OnePageCount(world, head, 1, n, true, true);
    }
    if OneOf(world, head, other) {
      var m: nat :| GoodPages(world, head, m, true) && PagesName(world, head, m, other);
      OnePageCount(world, head, m, n, true, true);
      var row := RowsShown(world, head, p)[0];
      assert row in RowsShown(world, head, p) && RowsName(RowsShown(world, head, p), other);
      assert RowsName(RowsShown(world, head, p), pr);
    }
  }

  lemma GoodPagesReach(world: (nat, Request) -> Reply, head: Sha, n: nat, page: nat, headsMatter: bool)
    requires GoodPages(world, head, n, headsMatter) && page >= 1
    requires forall p :: 1 <= p < page ==> |RowsShown(world, head, p)| >= PULLS_PER_PAGE
    ensures GoodPage(PageShown(world, head, page), headsMatter)
  {
    assert |RowsShown(world, head, n)| < PULLS_PER_PAGE;
  }

  /** After full pages, a malformed one: no number of pages is well formed. */
  lemma NoGoodPages(world: (nat, Request) -> Reply, head: Sha, page: nat, headsMatter: bool)
    requires page >= 1 && !GoodPage(PageShown(world, head, page), headsMatter)
    requires forall p :: 1 <= p < page ==> |RowsShown(world, head, p)| >= PULLS_PER_PAGE
    ensures Malformed(world, head, headsMatter)
  {
    forall n: nat ensures !GoodPages(world, head, n, headsMatter) {
      if GoodPages(world, head, n, headsMatter) { GoodPagesReach(world, head, n, page, headsMatter); }
    }
  }

  /** Walked page `p` is what the environment shows for it. */
  lemma WalkedPage(world: (nat, Request) -> Reply, t: Trace, start: nat, head: Sha, k: nat)
    requires Calm(world) && Answered(world, t) && PullPages(t, start, |t|, head) && start <= k < |t|
    ensures PullsOf(t[k]) == RowsShown(world, head, k - start + 1)
  {
    AnsweredAt(world, t, k);
  }

  lemma NoneCalmly(world: (nat, Request) -> Reply, t: Trace, start: nat, head: Sha)
    requires Calm(world) && Answered(world, t) && PullPages(t, start, |t|, head)
    ensures NoPulls(t, start, |t|) <==> NoneOf(world, head)
  {
    AnsweredAt(world, t, start);
    assert t[start].reply == PageShown(world, head, 1);
  }

  lemma OnlyNames(t: Trace, start: nat, pr: nat, k: nat)
    requires OnlyPull(t, start, |t|, pr) && start <= k < |t|
    ensures RowsName(PullsOf(t[k]), pr)
  {
  }

  lemma OnlyCalmly(world: (nat, Request) -> Reply, t: Trace, start: nat, head: Sha, pr: nat)
    requires Calm(world) && Answered(world, t) && PullPages(t, start, |t|, head) && OnlyPull(t, start, |t|, pr)
    ensures PagesName(world, head, |t| - start, pr)
  {
    assert exists p :: 1 <= p <= |t| - start && RowsShown(world, head, p) != [] by {
      var k :| start <= k < |t| && PullsOf(t[k]) != [];
      WalkedPage(world, t, start, head, k);
      assert RowsShown(world, head, k - start + 1) != [];
    }
    forall p | 1 <= p <= |t| - start ensures RowsName(RowsShown(world, head, p), pr) {
      WalkedPage(world, t, start, head, start + p - 1);
      OnlyNames(t, start, pr, start + p - 1);
    }
  }

  lemma NamedCalmly(world: (nat, Request) -> Reply, t: Trace, start: nat, head: Sha, pr: nat)
    requires Calm(world) && Answered(world, t) && PullPages(t, start, |t|, head)
    requires PagesName(world, head, |t| - start, pr)
    ensures OnlyPull(t, start, |t|, pr)
  {
    var p :| 1 <= p <= |t| - start && RowsShown(world, head, p) != [];
    WalkedPage(world, t, start, head, start + p - 1);
    forall k, r | start <= k < |t| && r in PullsOf(t[k]) ensures r.number == Some(pr) {
      WalkedPage(world, t, start, head, k);
      assert RowsName(RowsShown(world, head, k - start + 1), pr);
    }
  }

  /** What a walk of all pages found, said of the environment. */
  lemma WalkedCalmly(world: (nat, Request) -> Reply, t: Trace, start: nat, head: Sha)
    requires Calm(world) && Answered(world, t) && PullPages(t, start, |t|, head)
    ensures NoPulls(t, start, |t|) <==> NoneOf(world, head)
    ensures forall pr: nat :: OnlyPull(t, start, |t|, pr) <==> PagesName(world, head, |t| - start, pr)
  {
    NoneCalmly(world, t, start, head);
    forall pr: nat ensures OnlyPull(t, start, |t|, pr) <==> PagesName(world, head, |t| - start, pr) {
      if OnlyPull(t, start, |t|, pr) { OnlyCalmly(world, t, start, head, pr); }
      if PagesName(world, head, |t| - start, pr) { NamedCalmly(world, t, start, head, pr); }
    }
  }

  // ---- The client --------------------------------------------------------------------------------

  class Api {
    /** The replies of the environment, by position: any function at all. */
    const world: (nat, Request) -> Reply
    /** The source workflow that the scoped controller is narrowed to. */
    const scope: Option<nat>
    const limit: Option<nat>
    var remaining: Option<nat>
    var sent: nat
    ghost var trace: Trace

    constructor (world: (nat, Request) -> Reply, scope: Option<nat>, limit: Option<nat>)
      ensures Valid() && trace == [] && this.world == world && this.scope == scope && this.limit == limit
    {
      this.world, this.scope, this.limit := world, scope, limit;
      remaining, sent := limit, 0;
      trace := [];
    }

    ghost predicate Valid()
      reads this
    {
      && sent == |trace|
      && (limit.None? <==> remaining.None?)
      && (limit.Some? ==> |trace| + remaining.value == limit.value)
      && Answered(world, trace)
      && AllJustified(scope, trace)
    }

    /** Nothing is sent any more once the budget is used up. */
    method Send(q: Request) returns (r: Option<Reply>)
      requires Valid() && (q.PostCancel? ==> Ready(scope, trace, q.id))
      modifies this
      ensures Valid()
      ensures r.None? <==> old(remaining) == Some(0)
      ensures r.None? ==> trace == old(trace) && remaining == old(remaining)
      ensures r.Some? ==> r.value == world(|old(trace)|, q)
                          && trace == old(trace) + [Exchange(q, r.value)]
                          && Posts(trace) == Posts(old(trace)) + (if q.PostCancel? then [q.id] else [])
                          && (old(remaining).Some? ==> remaining == Some(old(remaining).value - 1))
    {
      if remaining == Some(0) { return None; }
      if remaining.Some? { remaining := Some(remaining.value - 1); }
      var reply := world(sent, q);
      JustifiedSnoc(scope, world, trace, Exchange(q, reply));
      trace := trace + [Exchange(q, reply)];
      sent := sent + 1;
      return Some(reply);
    }

    /** A read: it posts nothing. */
    method Read(q: Request) returns (r: Attempt<Reply>)
      requires Valid() && !q.PostCancel?
      modifies this
      ensures Valid() && Posts(trace) == Posts(old(trace)) && old(trace) <= trace
      ensures r.Got? ==> trace == old(trace) + [Exchange(q, r.value)] && !r.value.Fault?
      ensures r.Got? ==> r.value == world(|old(trace)|, q)
      ensures |trace| <= |old(trace)| + 1
      ensures r.Refused? ==> r.why in {Failure, BudgetExhausted}
      ensures old(remaining).Some? && r != Refused(BudgetExhausted) ==>
                remaining.Some? && remaining.value < old(remaining).value
      ensures old(remaining).None? ==> remaining.None? && r != Refused(BudgetExhausted)
      ensures r == Refused(BudgetExhausted) <==> old(remaining) == Some(0)
      ensures r == Refused(BudgetExhausted) ==> remaining == Some(0)
      ensures r == Refused(Failure) ==> world(|old(trace)|, q).Fault?
    {
      var reply := Send(q);
      if reply.None? { return Refused(BudgetExhausted); }
      if reply.value.Fault? { return Refused(Failure); }
      return Got(reply.value);
    }

    /** The live head of a PR and whether it could be integrated. */
    method LiveQualification(pr: nat) returns (r: Attempt<Qualification>)
      requires Valid()
      modifies this
      ensures Valid() && Posts(trace) == Posts(old(trace)) && old(trace) <= trace
      ensures r.Got? ==> trace == old(trace) + [Exchange(GetPull(pr), Pull(r.value.head, r.value.capable))]
      ensures r.Got? <==> old(remaining) != Some(0) && world(|old(trace)|, GetPull(pr)).Pull?
      ensures r.Refused? ==> r.why in {Failure, BudgetExhausted}
      ensures r == Refused(BudgetExhausted) <==> old(remaining) == Some(0)
      ensures r == Refused(BudgetExhausted) ==> remaining == Some(0)
    {
      var reply := Read(GetPull(pr));
      match reply
      case Refused(why) => return Refused(why);
      case Got(Pull(head, capable)) => return Got(Qualification(head, capable));
      case Got(_) => return Refused(Failure);
    }

    /** One page of active runs: its count and its rows. */
    method ListPage(status: nat, page: nat) returns (r: Attempt<(int, seq<Option<Observation>>)>)
      requires Valid()
      modifies this
      ensures Valid() && Posts(trace) == Posts(old(trace)) && old(trace) <= trace && |trace| <= |old(trace)| + 1
      ensures r.Refused? ==> r.why in {Failure, BudgetExhausted}
      ensures r == Refused(BudgetExhausted) <==> old(remaining) == Some(0)
      ensures r == Refused(BudgetExhausted) ==> remaining == Some(0)
      ensures r.Got? ==> trace == old(trace) + [Exchange(ListRuns(status, page), RunsPage(r.value.0, r.value.1))]
                         && |r.value.1| <= RUNS_PER_PAGE && |r.value.1| <= r.value.0
      ensures var reply := world(|old(trace)|, ListRuns(status, page));
              reply.RunsPage? && |reply.rows| <= RUNS_PER_PAGE && |reply.rows| <= reply.total ==>
                r == Got((reply.total, reply.rows)) || r == Refused(BudgetExhausted)
    {
      var reply := Read(ListRuns(status, page));
      match reply
      case Refused(why) => return Refused(why);
      case Got(RunsPage(total, rows)) =>
        if total < 0 || |rows| > RUNS_PER_PAGE || total < |rows| { return Refused(Failure); }
        return Got((total, rows));
      case Got(_) => return Refused(Failure);
    }

    /** The base effect: 202 accepts; after 409 a completed run counts, an active one is deferred. */
    method PostCancelRun(id: nat) returns (r: Attempt<()>)
      requires Valid() && Ready(scope, trace, id)
      modifies this
      ensures Valid() && old(trace) <= trace
      ensures Posts(trace) == Posts(old(trace)) || Posts(trace) == Posts(old(trace)) + [id]
      ensures r.Got? ==> Posts(trace) == Posts(old(trace)) + [id]
      ensures Posts(trace) != Posts(old(trace)) ==>
              |trace| > |old(trace)| && trace[|old(trace)|].request == PostCancel(id)
      ensures r.Refused? ==> r.why in {Failure, StillActive, BudgetExhausted}
      ensures r.Got? ==> TookEffect(trace, id)
      ensures r == Refused(StillActive) ==> WasDeferred(trace, id)
      ensures r.Got? ==> world(|old(trace)|, PostCancel(id)).Accepted?
                         || (var status := world(|old(trace)| + 1, GetRun(id));
                             status.RunReply? && status.run.status == CompletedStatus)
      ensures r == Refused(StillActive) ==> world(|old(trace)|, PostCancel(id)).Conflict?
      ensures r == Refused(Failure) ==> !world(|old(trace)|, PostCancel(id)).Accepted?
      ensures r == Refused(BudgetExhausted) ==> remaining == Some(0)
    {
      var reply := Send(PostCancel(id));
      if reply.None? { return Refused(BudgetExhausted); }
      if reply.value.Accepted? { return Got(()); }
      if !reply.value.Conflict? { return Refused(Failure); }
      r := StatusAfterConflict(id);
    }

    method StatusAfterConflict(id: nat) returns (r: Attempt<()>)
      requires Valid()
      modifies this
      ensures Valid() && Posts(trace) == Posts(old(trace)) && old(trace) <= trace
      ensures r.Refused? ==> r.why in {Failure, StillActive, BudgetExhausted}
      ensures r.Got? ==> |trace| == |old(trace)| + 1 && ShowsCompleted(trace[|old(trace)|], id)
      ensures r.Got? ==> trace[|old(trace)|].reply == world(|old(trace)|, GetRun(id))
      ensures r == Refused(StillActive) ==>
                && |trace| == |old(trace)| + 1 && trace[|old(trace)|].request == GetRun(id)
                && trace[|old(trace)|].reply.RunReply? && trace[|old(trace)|].reply.run.status == ActiveStatus
      ensures r == Refused(BudgetExhausted) ==> remaining == Some(0)
    {
      var status := Read(GetRun(id));
      match status
      case Refused(why) => return Refused(why);
      case Got(RunReply(d)) =>
        if d.status.CompletedStatus? { return Got(()); }
        return Refused(if d.status.ActiveStatus? then StillActive else Failure);
      case Got(_) => return Refused(Failure);
    }

    /** One page of a commit's pulls: its numbers, and whether it is the last. */
    method PullPage(head: Sha, page: nat, headsMatter: bool) returns (r: Attempt<(set<nat>, bool)>)
      requires Valid() && remaining.Some?
      modifies this
      ensures Valid() && Posts(trace) == Posts(old(trace)) && old(trace) <= trace && remaining.Some?
      ensures r.Refused? ==> r.why in {Failure, BudgetExhausted}
      ensures r.Got? ==> remaining.value < old(remaining).value && |trace| == |old(trace)| + 1
      ensures r.Got? ==> PageExchange(trace[|old(trace)|], head, page, r.value.0, r.value.1)
      ensures r.Got? ==> GoodPage(trace[|old(trace)|].reply, headsMatter)
      ensures r == Refused(Failure) ==> !GoodPage(world(|old(trace)|, CommitPulls(head, page)), headsMatter)
      ensures r == Refused(BudgetExhausted) ==> remaining == Some(0)
    {
      var reply := Read(CommitPulls(head, page));
      if reply.Refused? { return Refused(reply.why); }
      if !reply.value.PullList? { return Refused(Failure); }
      var rows := reply.value.pulls;
      var numbers := NumbersOf(rows, headsMatter);
      if numbers.None? { return Refused(Failure); }
      return Got((numbers.value, |rows| < PULLS_PER_PAGE));
    }

    /** One page of the walk: the numbers so far, and whether it was the last page. */
    method WalkPage(head: Sha, page: nat, headsMatter: bool, associated: set<nat>, ghost start: nat)
      returns (r: Attempt<(set<nat>, bool)>)
      requires Valid() && remaining.Some? && page == |trace| - start + 1
      requires Walking(trace, start, head, associated, headsMatter, false)
      modifies this
      ensures Valid() && Posts(trace) == Posts(old(trace)) && old(trace) <= trace && remaining.Some?
      ensures r.Refused? ==> r.why in {Failure, BudgetExhausted}
      ensures r.Got? ==> remaining.value < old(remaining).value && |trace| == |old(trace)| + 1
                         && Walking(trace, start, head, r.value.0, headsMatter, r.value.1)
      ensures Calm(world) && r == Refused(Failure) ==> Malformed(world, head, headsMatter)
      ensures r == Refused(BudgetExhausted) ==> remaining == Some(0)
    {
      ghost var before := trace;
      var next := PullPage(head, page, headsMatter);
      if next.Refused? {
        if Calm(world) && next.why == Failure {
          PagesFull(before, start, head, associated);
          BrokenCalmly(world, before, start, head, headsMatter);
        }
        return Refused(next.why);
      }
      PagesSnoc(before, trace, start, head, associated, next.value.0, next.value.1);
      return Got((associated + next.value.0, next.value.1));
    }

    /** Walks every page of a commit's pulls and collects their numbers. */
    method CommitAssociation(head: Sha, headsMatter: bool) returns (r: Attempt<set<nat>>)
      requires Valid() && remaining.Some?
      modifies this
      ensures Valid() && Posts(trace) == Posts(old(trace)) && old(trace) <= trace && remaining.Some?
      ensures r.Refused? ==> r.why in {Failure, BudgetExhausted}
      ensures r.Got? ==> Associates(trace, |old(trace)|, head, r.value)
      ensures Calm(world) && r.Got? ==> GoodPages(world, head, |trace| - |old(trace)|, headsMatter)
      ensures Calm(world) && r == Refused(Failure) ==> Malformed(world, head, headsMatter)
      ensures r == Refused(BudgetExhausted) ==> remaining == Some(0)
    {
      var associated: set<nat> := {};
      var page := 1;
      var last := false;
      while !last
        invariant Valid() && remaining.Some? && old(trace) <= trace && Posts(trace) == Posts(old(trace))
        invariant |trace| == |old(trace)| + page - 1
        invariant Walking(trace, |old(trace)|, head, associated, headsMatter, last)
        decreases !last, remaining.value
      {
        var next := WalkPage(head, page, headsMatter, associated, |old(trace)|);
        if next.Refused? { return Refused(next.why); }
        associated, last := next.value.0, next.value.1;
        page := page + 1;
      }
      WalkDone(world, trace, |old(trace)|, head, associated, headsMatter);
      return Got(associated);
    }
  }

  /** All pages from `start` on are well formed. */
  predicate GoodSoFar(t: Trace, start: nat, headsMatter: bool) {
    forall k :: start <= k < |t| ==> GoodPage(t[k].reply, headsMatter)
  }

  predicate Walking(t: Trace, start: nat, head: Sha, numbers: set<nat>, headsMatter: bool, last: bool) {
    PagesSoFar(t, start, head, numbers, last) && GoodSoFar(t, start, headsMatter)
  }

  lemma WalkDone(
    world: (nat, Request) -> Reply, t: Trace, start: nat, head: Sha, numbers: set<nat>, headsMatter: bool)
    requires Answered(world, t) && Walking(t, start, head, numbers, headsMatter, true)
    ensures Associates(t, start, head, numbers)
    ensures Calm(world) ==> GoodPages(world, head, |t| - start, headsMatter)
  {
    PagesComplete(t, start, head, numbers);
    if Calm(world) { GoodCalmly(world, t, start, head, headsMatter); }
  }

  predicate FullSoFar(t: Trace, start: nat, head: Sha) {
    forall k :: start <= k < |t| ==>
      t[k].request == CommitPulls(head, k - start + 1) && |PullsOf(t[k])| >= PULLS_PER_PAGE
  }

  lemma PagesFull(t: Trace, start: nat, head: Sha, numbers: set<nat>)
    requires PagesSoFar(t, start, head, numbers, false)
    ensures FullSoFar(t, start, head)
  {
    forall k | start <= k < |t|
      ensures t[k].request == CommitPulls(head, k - start + 1) && |PullsOf(t[k])| >= PULLS_PER_PAGE
    {
      assert ShowsPage(t, start, k, head, numbers);
    }
  }

  /** A complete walk over well formed pages, said of an environment that stands still. */
  lemma GoodCalmly(world: (nat, Request) -> Reply, t: Trace, start: nat, head: Sha, headsMatter: bool)
    requires Calm(world) && Answered(world, t) && PullPages(t, start, |t|, head) && GoodSoFar(t, start, headsMatter)
    ensures GoodPages(world, head, |t| - start, headsMatter)
  {
    var n := |t| - start;
    forall p | 1 <= p <= n
      ensures GoodPage(PageShown(world, head, p), headsMatter)
              && (|RowsShown(world, head, p)| < PULLS_PER_PAGE <==> p == n)
    {
      AnsweredAt(world, t, start + p - 1);
    }
  }

  /** A walk that breaks off at a malformed page, said of an environment that stands still. */
  lemma BrokenCalmly(world: (nat, Request) -> Reply, t: Trace, start: nat, head: Sha, headsMatter: bool)
    requires Calm(world) && Answered(world, t) && start <= |t| && FullSoFar(t, start, head)
    requires !GoodPage(world(|t|, CommitPulls(head, |t| - start + 1)), headsMatter)
    ensures Malformed(world, head, headsMatter)
  {
    var page := |t| - start + 1;
    forall p | 1 <= p < page ensures |RowsShown(world, head, p)| >= PULLS_PER_PAGE {
      AnsweredAt(world, t, start + p - 1);
    }
    NoGoodPages(world, head, page, headsMatter);
  }

  predicate PageExchange(x: Exchange, head: Sha, page: nat, numbers: set<nat>, last: bool) {
    && x.request == CommitPulls(head, page) && x.reply.PullList?
    && Covers(x.reply.pulls, numbers) && (numbers == {} <==> x.reply.pulls == [])
    && (forall n :: n in numbers ==> PageNames(x, n))
    && (last <==> |x.reply.pulls| < PULLS_PER_PAGE)
  }

  /** Exchange `k` shows page `k - start + 1`, whose numbers are all in the set. */
  predicate ShowsPage(t: Trace, start: nat, k: nat, head: Sha, numbers: set<nat>)
    requires start <= k < |t|
  {
    t[k].request == CommitPulls(head, k - start + 1) && t[k].reply.PullList? && Covers(PullsOf(t[k]), numbers)
  }

  /** Pages from `start` on; all but a last one are full, and the set is exactly what they show. */
  predicate PagesSoFar(t: Trace, start: nat, head: Sha, numbers: set<nat>, last: bool) {
    && start <= |t| && (last ==> start < |t|)
    && (forall k :: start <= k < |t| ==> ShowsPage(t, start, k, head, numbers))
    && (forall k :: start <= k < |t| ==> (|PullsOf(t[k])| < PULLS_PER_PAGE <==> last && k == |t| - 1))
    && (forall n :: n in numbers ==> Named(t, start, n))
  }

  lemma PagesSnoc(
    before: Trace, after: Trace, start: nat, head: Sha, numbers: set<nat>, more: set<nat>, last: bool)
    requires PagesSoFar(before, start, head, numbers, false)
    requires before <= after && |after| == |before| + 1
    requires PageExchange(after[|before|], head, |before| - start + 1, more, last)
    ensures PagesSoFar(after, start, head, numbers + more, last)
  {
    var n := |before|;
    assert forall k :: 0 <= k < n ==> after[k] == before[k];
    forall k | start <= k < |after| ensures ShowsPage(after, start, k, head, numbers + more) {
      if k < n { assert ShowsPage(before, start, k, head, numbers); }
    }
    forall x | x in numbers + more ensures Named(after, start, x) {
      if x in numbers {
        var k :| start <= k < n && PageNames(before[k], x);
        assert PageNames(after[k], x);
      } else {
        assert PageNames(after[n], x);
      }
    }
  }

  lemma RowsGiveNumbers(rows: seq<PullRow>, numbers: set<nat>)
    requires Covers(rows, numbers)
    ensures rows != [] ==> numbers != {}
  {
    if rows != [] { assert rows[0].number.value in numbers; }
  }

  /** A complete walk: the set is exactly what the pages name, so its size says what they associate. */
  lemma PagesComplete(t: Trace, start: nat, head: Sha, numbers: set<nat>)
    requires PagesSoFar(t, start, head, numbers, true)
    ensures Associates(t, start, head, numbers)
  {
    forall k | start <= k < |t| ensures t[k].request == CommitPulls(head, k - start + 1) && t[k].reply.PullList? {
      assert ShowsPage(t, start, k, head, numbers);
    }
    forall k, r | start <= k < |t| && r in PullsOf(t[k]) ensures r.number.Some? && r.number.value in numbers {
      assert ShowsPage(t, start, k, head, numbers);
    }
    if numbers == {} {
      forall k | start <= k < |t| ensures PullsOf(t[k]) == [] {
        assert ShowsPage(t, start, k, head, numbers);
        RowsGiveNumbers(PullsOf(t[k]), numbers);
      }
    }
    forall pr: nat ensures numbers == {pr} <==> OnlyPull(t, start, |t|, pr) {
      if numbers == {pr} {
        var k :| start <= k < |t| && PageNames(t[k], pr);
      }
      if OnlyPull(t, start, |t|, pr) {
        var k :| start <= k < |t| && PullsOf(t[k]) != [];
        assert PullsOf(t[k])[0] in PullsOf(t[k]);
      }
    }
  }

  /** Every row has a number, and it is in the set. */
  predicate Covers(rows: seq<PullRow>, numbers: set<nat>) {
    forall i :: 0 <= i < |rows| ==> rows[i].number.Some? && rows[i].number.value in numbers
  }

  /** The numbers of one page, or nothing when a row is malformed. */
  method NumbersOf(rows: seq<PullRow>, headsMatter: bool) returns (r: Option<set<nat>>)
    ensures r.Some? <==> forall i :: 0 <= i < |rows| ==> RowSound(rows[i], headsMatter)
    ensures r.Some? ==> Covers(rows, r.value) && (r.value == {} <==> rows == [])
    ensures r.Some? ==> forall n :: n in r.value ==> exists row :: row in rows && row.number == Some(n)
  {
    var numbers: set<nat> := {};
    for i := 0 to |rows|
      invariant forall k :: 0 <= k < i ==> RowSound(rows[k], headsMatter)
      invariant Covers(rows[..i], numbers) && (numbers == {} <==> i == 0)
      invariant forall n :: n in numbers ==> exists row :: row in rows && row.number == Some(n)
    {
      if !RowSound(rows[i], headsMatter) { return None; }
      numbers := numbers + {rows[i].number.value};
      assert rows[..i + 1] == rows[..i] + [rows[i]];
    }
    assert rows[..|rows|] == rows;
    return Some(numbers);
  }

  predicate RowSound(row: PullRow, headsMatter: bool) {
    row.number.Some? && row.number.value > 0 && (headsMatter ==> row.headSound)
  }
}
