/** One invocation of the scoped cancellation controller: sweep, orphan cleanup, triggering run. */
module CancellationRun {
  import opened Common
  import opened RunObservations
  import opened GitHubApi
  import opened ScopedController

  // ---- What a stage may post --------------------------------------------------------------------

  predicate NoRepeats(s: seq<nat>) { forall i, j :: 0 <= i < j < |s| ==> s[i] != s[j] }

  /** The posts grew by distinct members of `allowed`. */
  predicate Adds(before: seq<nat>, after: seq<nat>, allowed: set<nat>) {
    && before <= after && NoRepeats(after[|before|..])
    && forall i :: |before| <= i < |after| ==> after[i] in allowed
  }

  lemma AddsNothing(s: seq<nat>, allowed: set<nat>)
    ensures Adds(s, s, allowed)
  {
  }

  lemma AddsOne(before: seq<nat>, after: seq<nat>, allowed: set<nat>, next: seq<nat>, id: nat)
    requires Adds(before, after, allowed) && id !in allowed && (next == after || next == after + [id])
    ensures Adds(before, next, allowed + {id})
  {
    if next != after {
      var tail := next[|before|..];
      assert tail == after[|before|..] + [id];
      forall i | 0 <= i < |tail| - 1 ensures tail[i] != id { assert tail[i] == after[|before| + i]; }
    }
  }

  lemma AddsMore(before: seq<nat>, after: seq<nat>, allowed: set<nat>, wider: set<nat>)
    requires Adds(before, after, allowed) && allowed <= wider
    ensures Adds(before, after, wider)
  {
  }

  lemma AddsJoin(a: seq<nat>, b: seq<nat>, c: seq<nat>, first: set<nat>, second: set<nat>)
    requires Adds(a, b, first) && Adds(b, c, second) && first !! second
    ensures Adds(a, c, first + second)
  {
    var tail := c[|a|..];
    forall i, j | 0 <= i < j < |tail| ensures tail[i] != tail[j] {
      assert tail[i] == c[|a| + i] && tail[j] == c[|a| + j];
      if |a| + j < |b| {
        assert b[|a|..][i] == c[|a| + i] && b[|a|..][j] == c[|a| + j];
      } else if |a| + i < |b| {
        assert b[|a| + i] in first && c[|a| + j] in second;
      } else {
        assert c[|b|..][|a| + i - |b|] == tail[i] && c[|b|..][|a| + j - |b|] == tail[j];
      }
    }
  }

  function Ascending(s: set<nat>): (r: seq<nat>)
    ensures forall x :: x in r <==> x in s
    ensures forall i, j :: 0 <= i < j < |r| ==> r[i] < r[j]
    decreases |s|
  {
    if s == {} then []
    else
      var m := Least(s);
      [m] + Ascending(s - {m})
  }

  // ---- Identity and qualification -----------------------------------------------------------------

  /** The reply shows the active, named run of the workflow on this head with exactly this PR. */
  predicate ShowsIdentity(reply: Reply, workflow: nat, id: nat, head: Sha, pr: nat) {
    && reply.RunReply? && SameRun(reply.run, workflow, id)
    && reply.run.head == head && reply.run.named && reply.run.pulls == Some([pr])
  }

  /** Re-reads one run and requires its explicit identity to be exact; any other failure is a no. */
  method ExplicitIdentityIsCurrent(c: ScopedClient, id: nat, head: Sha, pr: nat) returns (r: Attempt<bool>)
    requires c.Valid()
    modifies c.api
    ensures c.Valid() && old(c.api.trace) <= c.api.trace && Posts(c.api.trace) == Posts(old(c.api.trace))
    ensures r.Refused? ==> r.why == BudgetExhausted
    ensures r == Refused(BudgetExhausted) ==> c.api.remaining == Some(0)
    ensures r.Refused? <==> old(c.api.remaining) == Some(0)
    ensures r.Got? ==>
              (r.value <==> ShowsIdentity(c.api.world(|old(c.api.trace)|, GetRun(id)), c.workflow, id, head, pr))
    ensures r == Got(true) ==> Identified(c.workflow, old(c.api.trace), c.api.trace, id, head, pr)
  {
    var reply := c.api.Read(GetRun(id));
    match reply
    case Refused(BudgetExhausted) => return Refused(BudgetExhausted);
    case Got(RunReply(d)) =>
      return Got(SameRun(d, c.workflow, id) && d.head == head && d.named && d.pulls == Some([pr]));
    case _ => return Got(false);
  }

  predicate Identified(workflow: nat, before: Trace, after: Trace, id: nat, head: Sha, pr: nat) {
    && before <= after && |after| == |before| + 1 && ReadRun(after, |before|, workflow, id)
    && after[|before|].reply.run.head == head && after[|before|].reply.run.pulls == Some([pr])
    && after[|before|].reply.run.named
  }

  lemma IdentifiedThenQualified(workflow: nat, start: Trace, bound: Trace, final: Trace, id: nat, head: Sha, pr: nat)
    requires Identified(workflow, start, bound, id, head, pr)
    requires bound <= final && |final| == |bound| + 1 && QualifiedAgainst(final, pr, head)
    ensures Ready(Some(workflow), final, id)
  {
    assert final[|start|] == bound[|start|];
    assert ExplicitReady(workflow, final, id);
  }

  /** Identity re-read, the same qualification read again, and then at once the cancel request. */
  predicate Reconfirmed(
    workflow: nat, before: Trace, after: Trace, id: nat, head: Sha, pr: nat, expected: Qualification)
  {
    && |after| >= |before| + 3 && ReadRun(after, |before|, workflow, id)
    && after[|before|].reply.run.head == head && after[|before|].reply.run.pulls == Some([pr])
    && after[|before|].reply.run.named
    && after[|before| + 1] == Exchange(GetPull(pr), Pull(expected.head, expected.capable))
    && after[|before| + 2].request == PostCancel(id)
  }

  lemma ReconfirmedNow(
    workflow: nat, start: Trace, bound: Trace, qualified: Trace, final: Trace, id: nat, head: Sha, pr: nat,
    expected: Qualification)
    requires Identified(workflow, start, bound, id, head, pr)
    requires qualified == bound + [Exchange(GetPull(pr), Pull(expected.head, expected.capable))]
    requires qualified <= final && |final| > |qualified| && final[|qualified|].request == PostCancel(id)
    ensures Reconfirmed(workflow, start, final, id, head, pr, expected)
  {
    assert final[|start|] == qualified[|start|] == bound[|start|];
    assert final[|start| + 1] == qualified[|start| + 1];
  }

  /** The run shows its identity with this PR, and GitHub accepts its cancellation. */
  predicate Dismissed(world: (nat, Request) -> Reply, workflow: nat, id: nat, head: Sha, pr: nat) {
    ShowsIdentity(world(0, GetRun(id)), workflow, id, head, pr) && world(0, PostCancel(id)).Accepted?
  }

  /** After the identity: an unchanged qualification, then the effect. */
  method CancelIdentified(
    c: ScopedClient, id: nat, head: Sha, pr: nat, expected: Qualification, ghost start: Trace)
    returns (r: Attempt<Option<bool>>)
    requires c.Valid() && c.NoRecovery() && !(expected.head == head && expected.capable)
    requires Identified(c.workflow, start, c.api.trace, id, head, pr)
    modifies c.api
    ensures c.Valid() && old(c.api.trace) <= c.api.trace
    ensures Posts(c.api.trace) == Posts(old(c.api.trace)) || Posts(c.api.trace) == Posts(old(c.api.trace)) + [id]
    ensures Posts(c.api.trace) != Posts(old(c.api.trace)) ==>
              Reconfirmed(c.workflow, start, c.api.trace, id, head, pr, expected)
    ensures r == Got(Some(true)) ==> Posts(c.api.trace) == Posts(old(c.api.trace)) + [id] && TookEffect(c.api.trace, id)
    ensures r == Got(None) ==>
              && Posts(c.api.trace) == Posts(old(c.api.trace))
              && c.api.world(|old(c.api.trace)|, GetPull(pr)) != Pull(expected.head, expected.capable)
    ensures r.Refused? ==> r.why in {Failure, BudgetExhausted}
    ensures r == Refused(BudgetExhausted) ==> c.api.remaining == Some(0)
    ensures r == Got(None) || r == Refused(BudgetExhausted)
            || Direct(c.api.world, |old(c.api.trace)| + 1, id, CancelResult(r))
  {
    ghost var bound := c.api.trace;
    var live := c.api.LiveQualification(pr);
    if live == Refused(BudgetExhausted) { return Refused(BudgetExhausted); }
    if live.Refused? || live.value != expected { return Got(None); }
    IdentifiedThenQualified(c.workflow, start, bound, c.api.trace, id, head, pr);
    ghost var qualified := c.api.trace;
    var done := c.CancelOrDefer(id);
    if Posts(c.api.trace) != Posts(bound) {
      ReconfirmedNow(c.workflow, start, bound, qualified, c.api.trace, id, head, pr, expected);
    }
    if done.Refused? { return Refused(done.why); }
    return Got(Some(done.value));
  }

  /** The result of the cancel request itself. */
  function CancelResult(r: Attempt<Option<bool>>): Attempt<()> {
    if r == Got(Some(true)) then Got(()) else Refused(if r.Got? then StillActive else r.why)
  }

  /** Identity, then an unchanged qualification, then the effect. `None` revokes the whole PR group. */
  method CancelExplicit(c: ScopedClient, id: nat, head: Sha, pr: nat, expected: Qualification)
    returns (r: Attempt<Option<bool>>)
    requires c.Valid() && c.NoRecovery() && !(expected.head == head && expected.capable)
    modifies c.api
    ensures c.Valid() && old(c.api.trace) <= c.api.trace
    ensures Posts(c.api.trace) == Posts(old(c.api.trace)) || Posts(c.api.trace) == Posts(old(c.api.trace)) + [id]
    ensures Posts(c.api.trace) != Posts(old(c.api.trace)) ==>
              Reconfirmed(c.workflow, old(c.api.trace), c.api.trace, id, head, pr, expected)
    ensures r == Got(Some(true)) ==> Posts(c.api.trace) == Posts(old(c.api.trace)) + [id] && TookEffect(c.api.trace, id)
    ensures r == Got(None) ==>
              && Posts(c.api.trace) == Posts(old(c.api.trace))
              && c.api.world(|old(c.api.trace)| + 1, GetPull(pr)) != Pull(expected.head, expected.capable)
    ensures r.Refused? ==> r.why in {Failure, BudgetExhausted}
    ensures r == Refused(BudgetExhausted) ==> c.api.remaining == Some(0)
    ensures Calm(c.api.world) && c.api.world(0, GetPull(pr)) == Pull(expected.head, expected.capable) && r.Got? ==>
              r == Got(Some(Dismissed(c.api.world, c.workflow, id, head, pr)))
    ensures Calm(c.api.world) && Healthy(c.api.world) ==> r != Refused(Failure)
  {
    ghost var start := c.api.trace;
    var current := ExplicitIdentityIsCurrent(c, id, head, pr);
    if current.Refused? { return Refused(current.why); }
    if Calm(c.api.world) { assert c.api.world(|start|, GetRun(id)) == c.api.world(0, GetRun(id)); }
    if !current.value { return Got(Some(false)); }
    r := CancelIdentified(c, id, head, pr, expected, start);
    if Calm(c.api.world) { DismissedCalmly(c.api.world, c.workflow, |start|, id, head, pr, expected, r); }
  }

  /** The run was shown active, so in an environment that stands still only acceptance cancels it. */
  lemma DismissedCalmly(
    world: (nat, Request) -> Reply, workflow: nat, at: nat, id: nat, head: Sha, pr: nat, expected: Qualification,
    r: Attempt<Option<bool>>)
    requires Calm(world) && ShowsIdentity(world(at, GetRun(id)), workflow, id, head, pr)
    requires r == Got(None) ==> world(at + 1, GetPull(pr)) != Pull(expected.head, expected.capable)
    requires r == Got(None) || r == Refused(BudgetExhausted) || Direct(world, at + 2, id, CancelResult(r))
    ensures r.Got? && world(0, GetPull(pr)) == Pull(expected.head, expected.capable) ==>
              r == Got(Some(Dismissed(world, workflow, id, head, pr)))
    ensures r.Refused? && Healthy(world) ==> r.why in {BudgetExhausted, StillActive, Absent, Ambiguous}
  {
    assert world(at, GetRun(id)) == world(0, GetRun(id)) == world(at + 3, GetRun(id));
    assert world(at + 2, PostCancel(id)) == world(0, PostCancel(id));
    assert world(at + 1, GetPull(pr)) == world(0, GetPull(pr));
    if r.Got? && r != Got(None) {
      var done := r.value.value;
      assert done ==> CancelResult(r) == Got(());
      assert done <==> world(0, PostCancel(id)).Accepted?;
      assert r == Got(Some(done));
    }
  }

  // ---- Orphan cleanup --------------------------------------------------------------------------------

  /** From exchange `i` on: no PR has the commit, and then the branch shows another tip. */
  predicate BranchLeft(t: Trace, i: nat, head: Sha, branch: string) {
    && i < |t| && PullPages(t, i, |t| - 1, head) && NoPulls(t, i, |t| - 1)
    && t[|t| - 1].request == GetBranch(branch) && t[|t| - 1].reply.BranchHead? && t[|t| - 1].reply.tip != Some(head)
  }

  /** From exchange `i` on: the commit has this one PR, and it does not protect the head. */
  predicate PullReleases(t: Trace, i: nat, head: Sha, pr: nat) {
    && i < |t| && PullPages(t, i, |t| - 1, head) && OnlyPull(t, i, |t| - 1, pr) && QualifiedAgainst(t, pr, head)
  }

  lemma BranchHasLeft(paged: Trace, final: Trace, i: nat, head: Sha, branch: string)
    requires i <= |paged| && PullPages(paged, i, |paged|, head) && NoPulls(paged, i, |paged|)
    requires paged <= final && |final| == |paged| + 1 && final[|paged|].request == GetBranch(branch)
    requires final[|paged|].reply.BranchHead? && final[|paged|].reply.tip != Some(head)
    ensures BranchLeft(final, i, head, branch)
  {
    PagesKept(paged, final, i, |paged|, head);
  }

  /** A commit without any PR may be cancelled when its branch has left it. */
  method RecoverFromBranch(c: ScopedClient, id: nat, head: Sha, branch: string) returns (r: Attempt<bool>)
    requires c.Valid()
    modifies c`zeroAssociation, c.api
    ensures c.Valid() && old(c.api.trace) <= c.api.trace && Posts(c.api.trace) == Posts(old(c.api.trace))
    ensures r.Refused? ==> r.why == BudgetExhausted
    ensures r == Refused(BudgetExhausted) ==> c.api.remaining == Some(0)
    ensures r != Got(true) ==> c.zeroAssociation == old(c.zeroAssociation)
    ensures r == Got(true) ==> c.zeroAssociation == map[id := (head, branch)]
                               && BranchLeft(c.api.trace, |old(c.api.trace)|, head, branch)
    ensures Calm(c.api.world) && r.Got? ==> (r.value <==> OrphanStale(c.api.world, head, branch))
  {
    var none := c.HasNoAssociation(head);
    if none == Refused(BudgetExhausted) { return Refused(BudgetExhausted); }
    if none != Got(true) { return Got(false); }
    ghost var paged := c.api.trace;
    var tip := c.BranchTip(branch);
    if tip == Refused(BudgetExhausted) { return Refused(BudgetExhausted); }
    if Calm(c.api.world) {
      assert c.api.world(|paged|, GetBranch(branch)) == c.api.world(0, GetBranch(branch));
    }
    if tip.Refused? || tip.value == Some(head) { return Got(false); }
    BranchHasLeft(paged, c.api.trace, |old(c.api.trace)|, head, branch);
    c.zeroAssociation := map[id := (head, branch)];
    return Got(true);
  }

  lemma PullHasReleased(walked: Trace, final: Trace, start: nat, head: Sha, pr: nat)
    requires start <= |walked| && PullPages(walked, start, |walked|, head) && OnlyPull(walked, start, |walked|, pr)
    requires walked <= final && |final| == |walked| + 1 && QualifiedAgainst(final, pr, head)
    ensures PullReleases(final, start, head, pr)
  {
    PagesKept(walked, final, start, |walked|, head);
  }

  /** A commit of one PR, as just read, may be cancelled unless that PR still needs this very head. */
  method RecoverFromPull(c: ScopedClient, id: nat, head: Sha, pr: nat, ghost start: nat) returns (r: Attempt<bool>)
    requires c.Valid() && start <= |c.api.trace|
    requires PullPages(c.api.trace, start, |c.api.trace|, head) && OnlyPull(c.api.trace, start, |c.api.trace|, pr)
    modifies c`recovered, c.api
    ensures c.Valid() && old(c.api.trace) <= c.api.trace && Posts(c.api.trace) == Posts(old(c.api.trace))
    ensures r.Refused? ==> r.why == BudgetExhausted
    ensures r == Refused(BudgetExhausted) ==> c.api.remaining == Some(0)
    ensures r != Got(true) ==> c.recovered == old(c.recovered)
    ensures r == Got(true) ==> c.recovered == map[id := (pr, head)] && PullReleases(c.api.trace, start, head, pr)
    ensures Calm(c.api.world) && r.Got? ==> (r.value <==> Releases(c.api.world(0, GetPull(pr)), head))
  {
    ghost var walked := c.api.trace;
    var live := c.api.LiveQualification(pr);
    if live == Refused(BudgetExhausted) { return Refused(BudgetExhausted); }
    if live.Refused? || (live.value.head == head && live.value.capable) { return Got(false); }
    PullHasReleased(walked, c.api.trace, start, head, pr);
    c.recovered := map[id := (pr, head)];
    return Got(true);
  }

  /** The run is remembered with its branch: no PR has its commit, and the branch has left it. */
  predicate OrphanIdentity(
    recovered: map<nat, (nat, Sha)>, zeroAssociation: map<nat, (Sha, string)>, t: Trace, start: nat, id: nat,
    candidate: Candidate)
  {
    && recovered == map[] && candidate.branch.Some?
    && zeroAssociation == map[id := (candidate.head, candidate.branch.value)]
    && exists i :: start <= i < |t| && BranchLeft(t, i, candidate.head, candidate.branch.value)
  }

  /** The run is remembered with the one PR of its commit, which does not protect it. */
  predicate PullIdentity(
    recovered: map<nat, (nat, Sha)>, zeroAssociation: map<nat, (Sha, string)>, t: Trace, start: nat, id: nat,
    candidate: Candidate)
  {
    && zeroAssociation == map[] && id in recovered && recovered == map[id := (recovered[id].0, candidate.head)]
    && PullReleases(t, start, candidate.head, recovered[id].0)
  }

  /** In an environment that stands still: some identity can be recovered for the candidate. */
  ghost predicate Recoverable(world: (nat, Request) -> Reply, candidate: Candidate) {
    || (candidate.branch.Some? && OrphanStale(world, candidate.head, candidate.branch.value))
    || exists pr: nat :: PullStale(world, candidate.head, pr)
  }

  lemma OnlyStale(world: (nat, Request) -> Reply, candidate: Candidate, pr: nat)
    requires OneOf(world, candidate.head, pr)
    ensures Recoverable(world, candidate) <==> Releases(world(0, GetPull(pr)), candidate.head)
  {
    OneOfExcludes(world, candidate.head, pr, pr);
    if Releases(world(0, GetPull(pr)), candidate.head) { assert PullStale(world, candidate.head, pr); }
    if Recoverable(world, candidate) && !NoneOf(world, candidate.head) {
      var other: nat :| PullStale(world, candidate.head, other);
      OneOfExcludes(world, candidate.head, pr, other);
    }
  }

  /** The unbound run is stale: its commit has no PR and its branch left it, or its one PR does not protect it. */
  ghost predicate StaleUnbound(world: (nat, Request) -> Reply, workflow: nat, id: nat, candidate: Candidate) {
    || (&& candidate.branch.Some? && OrphanStale(world, candidate.head, candidate.branch.value)
        && StillThere(world(0, GetRun(id)), workflow, id, candidate.head, candidate.branch))
    || (&& StillThere(world(0, GetRun(id)), workflow, id, candidate.head, None)
        && exists pr: nat :: PullStale(world, candidate.head, pr))
  }

  /** In an environment that stands still, cleaning up cancels this run. */
  ghost predicate CleanedUp(world: (nat, Request) -> Reply, workflow: nat, id: nat, candidate: Candidate) {
    StaleUnbound(world, workflow, id, candidate) && world(0, PostCancel(id)).Accepted?
  }

  lemma OrphanStanding(world: (nat, Request) -> Reply, workflow: nat, id: nat, candidate: Candidate)
    requires candidate.branch.Some? && OrphanStale(world, candidate.head, candidate.branch.value)
    ensures StaleUnbound(world, workflow, id, candidate) <==>
            StillThere(world(0, GetRun(id)), workflow, id, candidate.head, candidate.branch)
  {
    forall pr: nat ensures !PullStale(world, candidate.head, pr) {
      if OneOf(world, candidate.head, pr) { OneOfExcludes(world, candidate.head, pr, pr); }
    }
  }

  lemma PullStanding(world: (nat, Request) -> Reply, workflow: nat, id: nat, candidate: Candidate, pr: nat)
    requires PullStale(world, candidate.head, pr)
    ensures StaleUnbound(world, workflow, id, candidate) <==>
            StillThere(world(0, GetRun(id)), workflow, id, candidate.head, None)
  {
    OneOfExcludes(world, candidate.head, pr, pr);
  }

  /** Recovers an identity for one unbound run, or leaves it alone. */
  method RecoverIdentity(c: ScopedClient, id: nat, candidate: Candidate) returns (r: Attempt<bool>)
    requires c.Valid() && c.NoRecovery()
    modifies c`recovered, c`zeroAssociation, c.api
    ensures c.Valid() && old(c.api.trace) <= c.api.trace && Posts(c.api.trace) == Posts(old(c.api.trace))
    ensures r.Refused? ==> r.why == BudgetExhausted
    ensures r == Refused(BudgetExhausted) ==> c.api.remaining == Some(0)
    ensures r != Got(true) ==> c.NoRecovery()
    ensures r == Got(true) ==>
              || OrphanIdentity(c.recovered, c.zeroAssociation, c.api.trace, |old(c.api.trace)|, id, candidate)
              || PullIdentity(c.recovered, c.zeroAssociation, c.api.trace, |old(c.api.trace)|, id, candidate)
    ensures Calm(c.api.world) && r.Got? ==> (r.value <==> Recoverable(c.api.world, candidate))
    ensures Calm(c.api.world) && r == Got(true) ==>
              (if c.recovered == map[] then OrphanStale(c.api.world, candidate.head, candidate.branch.value)
               else PullStale(c.api.world, candidate.head, c.recovered[id].0))
  {
    var association := c.HistoricalAssociation(candidate.head);
    if association == Refused(BudgetExhausted) { return Refused(BudgetExhausted); }
    if association == Refused(Absent) {
      if candidate.branch.None? { return Got(false); }
      r := RecoverFromBranch(c, id, candidate.head, candidate.branch.value);
    } else if association.Refused? {
      return Got(false);
    } else {
      if Calm(c.api.world) { OnlyStale(c.api.world, candidate, association.value); }
      r := RecoverFromPull(c, id, candidate.head, association.value, |old(c.api.trace)|);
    }
  }

  /** One unbound run: recover an identity and cancel, or leave it. */
  method CancelOrphan(c: ScopedClient, id: nat, candidate: Candidate) returns (r: Attempt<bool>)
    requires c.Valid() && c.NoRecovery()
    modifies c`recovered, c`zeroAssociation, c.api
    ensures c.Valid() && old(c.api.trace) <= c.api.trace
    ensures Posts(c.api.trace) == Posts(old(c.api.trace)) || Posts(c.api.trace) == Posts(old(c.api.trace)) + [id]
    ensures r.Got? ==> c.NoRecovery()
    ensures r == Got(true) ==> Posts(c.api.trace) == Posts(old(c.api.trace)) + [id]
    ensures r.Refused? ==> r.why in {Failure, BudgetExhausted}
    ensures r == Refused(BudgetExhausted) ==> c.api.remaining == Some(0)
    ensures Calm(c.api.world) && r.Got? ==> (r.value <==> CleanedUp(c.api.world, c.workflow, id, candidate))
    ensures Calm(c.api.world) && Healthy(c.api.world) ==> r != Refused(Failure)
  {
    r := RecoverIdentity(c, id, candidate);
    if r != Got(true) { return; }
    if Calm(c.api.world) {
      if c.recovered == map[] {
        OrphanStanding(c.api.world, c.workflow, id, candidate);
      } else {
        PullStanding(c.api.world, c.workflow, id, candidate, c.recovered[id].0);
      }
      assert c.Standing(id) <==> StaleUnbound(c.api.world, c.workflow, id, candidate);
    }
    r := c.CancelOrDefer(id);
    if r.Refused? && r.why != AuthorityChanged { return; }
    c.recovered, c.zeroAssociation := c.recovered - {id}, c.zeroAssociation - {id};
    assert c.NoRecovery() by { assert c.recovered.Keys == {} && c.zeroAssociation.Keys == {}; }
    if r.Refused? { r := Got(false); }
  }

  /** Of the first `i` ids exactly those outside the exclusion that cleaning up cancels are in the list. */
  ghost predicate Sorted(
    world: (nat, Request) -> Reply, workflow: nat, unbound: map<nat, Candidate>, exclude: seq<nat>, ids: seq<nat>,
    i: nat, cancelled: seq<nat>)
    requires forall id :: id in ids ==> id in unbound
  {
    i <= |ids| && forall k :: 0 <= k < i ==>
      (ids[k] in cancelled <==> ids[k] !in exclude && CleanedUp(world, workflow, ids[k], unbound[ids[k]]))
  }

  lemma SortedNext(
    world: (nat, Request) -> Reply, workflow: nat, unbound: map<nat, Candidate>, exclude: seq<nat>, ids: seq<nat>,
    i: nat, cancelled: seq<nat>, next: seq<nat>)
    requires (forall id :: id in ids ==> id in unbound) && NoRepeats(ids) && i < |ids|
    requires Sorted(world, workflow, unbound, exclude, ids, i, cancelled) && ids[i] !in cancelled
    requires next == cancelled || next == cancelled + [ids[i]]
    requires ids[i] in next <==> ids[i] !in exclude && CleanedUp(world, workflow, ids[i], unbound[ids[i]])
    ensures Sorted(world, workflow, unbound, exclude, ids, i + 1, next)
  {
    forall k | 0 <= k < i ensures ids[k] in next <==> ids[k] in cancelled { assert ids[k] != ids[i]; }
  }

  /**
   * Cancels runs whose PR metadata disappeared, in ascending order of run id. In an environment that
   * stands still, a cleanup that ends without refusal cancels exactly the stale ones that GitHub accepts.
   */
  method CancelHistoricalUnboundRuns(c: ScopedClient, exclude: seq<nat>) returns (r: Attempt<seq<nat>>)
    requires c.Valid() && c.NoRecovery()
    modifies c`recovered, c`zeroAssociation, c.api
    ensures c.Valid() && (r.Got? ==> c.NoRecovery())
    ensures Adds(Posts(old(c.api.trace)), Posts(c.api.trace), c.unbound.Keys - (set x | x in exclude))
    ensures r.Got? ==> forall id :: id in r.value ==> id in Posts(c.api.trace)
    ensures r.Refused? ==> r.why in {Failure, BudgetExhausted}
    ensures r == Refused(BudgetExhausted) ==> c.api.remaining == Some(0)
    ensures Calm(c.api.world) && r.Got? ==>
              forall id :: id in r.value <==>
                id in c.unbound && id !in exclude && CleanedUp(c.api.world, c.workflow, id, c.unbound[id])
    ensures Calm(c.api.world) && Healthy(c.api.world) ==> r != Refused(Failure)
  {
    var cancelled: seq<nat> := [];
    var ids := Ascending(c.unbound.Keys);
    ghost var allowed := c.unbound.Keys - (set x | x in exclude);
    ghost var tried: set<nat> := {};
    for i := 0 to |ids|
      invariant c.Valid() && c.NoRecovery()
      invariant Adds(Posts(old(c.api.trace)), Posts(c.api.trace), tried)
      invariant tried <= allowed && forall k :: i <= k < |ids| ==> ids[k] !in tried
      invariant forall id :: id in cancelled ==> id in tried && id in Posts(c.api.trace)
      invariant Calm(c.api.world) ==> Sorted(c.api.world, c.workflow, c.unbound, exclude, ids, i, cancelled)
    {
      var id := ids[i];
      ghost var were := cancelled;
      if id !in exclude {
        ghost var before := Posts(c.api.trace);
        var done := CancelOrphan(c, id, c.unbound[id]);
        AddsOne(Posts(old(c.api.trace)), before, tried, Posts(c.api.trace), id);
        tried := tried + {id};
        if done.Refused? {
          AddsMore(Posts(old(c.api.trace)), Posts(c.api.trace), tried, allowed);
          return Refused(done.why);
        }
        if done.value { cancelled := cancelled + [id]; }
      }
      if Calm(c.api.world) {
        SortedNext(c.api.world, c.workflow, c.unbound, exclude, ids, i, were, cancelled);
      }
    }
    AddsMore(Posts(old(c.api.trace)), Posts(c.api.trace), tried, allowed);
    return Got(cancelled);
  }

  // ---- Sweep -----------------------------------------------------------------------------------------

  function HeadsOf(runs: seq<Observation>, pr: nat): set<Sha> { set o | o in runs && o.prs == [pr] :: o.head }

  function CountOf(runs: seq<Observation>, pr: nat): nat {
    if runs == [] then 0 else (if runs[0].prs == [pr] then 1 else 0) + CountOf(runs[1..], pr)
  }

  /** Scheduling order: more distinct heads, then more runs, then the smaller PR number. */
  predicate Before(runs: seq<Observation>, p: nat, q: nat) {
    var a, b := |HeadsOf(runs, p)|, |HeadsOf(runs, q)|;
    var m, n := CountOf(runs, p), CountOf(runs, q);
    a > b || (a == b && (m > n || (m == n && p <= q)))
  }

  predicate Scheduled(runs: seq<Observation>, s: seq<nat>) {
    forall i, j :: 0 <= i < j < |s| ==> Before(runs, s[i], s[j])
  }

  function Place(runs: seq<Observation>, p: nat, s: seq<nat>): (r: seq<nat>)
    ensures forall x :: x in r <==> x == p || x in s
  {
    if s == [] || Before(runs, p, s[0]) then [p] + s else [s[0]] + Place(runs, p, s[1..])
  }

  lemma {:induction false} PlaceKeepsDistinct(runs: seq<Observation>, p: nat, s: seq<nat>)
    requires NoRepeats(s) && p !in s
    ensures NoRepeats(Place(runs, p, s))
  {
    if s != [] && !Before(runs, p, s[0]) {
      PlaceKeepsDistinct(runs, p, s[1..]);
      var rest := Place(runs, p, s[1..]);
      assert forall i :: 0 <= i < |rest| ==> rest[i] in rest;
    }
  }

  lemma {:induction false} PlaceKeepsOrder(runs: seq<Observation>, p: nat, s: seq<nat>)
    requires Scheduled(runs, s)
    ensures Scheduled(runs, Place(runs, p, s))
  {
    if s == [] {
    } else if Before(runs, p, s[0]) {
      forall j | 0 <= j < |s| ensures Before(runs, p, s[j]) {}
    } else {
      PlaceKeepsOrder(runs, p, s[1..]);
      var rest := Place(runs, p, s[1..]);
      forall j | 0 <= j < |rest| ensures Before(runs, s[0], rest[j]) {
        assert rest[j] in rest;
        if rest[j] in s[1..] {
          var k :| 0 <= k < |s[1..]| && s[1..][k] == rest[j];
          assert s[k + 1] == rest[j];
        }
      }
    }
  }

  function Schedule(runs: seq<Observation>, prs: seq<nat>): (r: seq<nat>)
    requires NoRepeats(prs)
    ensures forall x :: x in r <==> x in prs
    ensures NoRepeats(r) && Scheduled(runs, r)
  {
    if prs == [] then []
    else
      var rest := Schedule(runs, prs[1..]);
      PlaceKeepsDistinct(runs, prs[0], rest);
      PlaceKeepsOrder(runs, prs[0], rest);
      Place(runs, prs[0], rest)
  }

  function CandidatePrs(runs: seq<Observation>, current: nat): set<nat> {
    set o | o in runs && o.id != current && |o.prs| == 1 :: o.prs[0]
  }

  function ExplicitIds(runs: seq<Observation>): set<nat> { set o | o in runs :: o.id }

  /** The ids of the stable runs of one PR. */
  function IdsOfPr(runs: seq<Observation>, pr: nat): set<nat> { set o | o in runs && o.prs == [pr] :: o.id }

  /** The stable record of a selected run. */
  function RecordOf(runs: seq<Observation>, id: nat, pr: nat): (o: Observation)
    requires exists o :: o in runs && o.id == id && o.prs == [pr]
    ensures o in runs && o.id == id && o.prs == [pr]
  {
    if runs[0].id == id && runs[0].prs == [pr] then runs[0] else RecordOf(runs[1..], id, pr)
  }

  /** In an environment that stands still, the sweep cancels this run of one PR. */
  predicate Sweepable(world: (nat, Request) -> Reply, workflow: nat, name: string, current: nat, o: Observation) {
    && |o.prs| == 1 && o.name == name && o.id != current
    && Releases(world(0, GetPull(o.prs[0])), o.head) && Dismissed(world, workflow, o.id, o.head, o.prs[0])
  }

  /** The sweep cancels a run with this id: its record among `runs` names the PR and is sweepable. */
  predicate SweptOf(
    world: (nat, Request) -> Reply, workflow: nat, name: string, current: nat, runs: seq<Observation>, pr: nat, id: nat)
  {
    exists o :: o in runs && o.id == id && o.prs == [pr] && Sweepable(world, workflow, name, current, o)
  }

  lemma SweptIsChosen(
    world: (nat, Request) -> Reply, workflow: nat, name: string, current: nat, runs: seq<Observation>, pr: nat,
    q: Qualification, id: nat)
    requires world(0, GetPull(pr)) == Pull(q.head, q.capable)
    requires SweptOf(world, workflow, name, current, runs, pr, id)
    ensures id in SelectSuperseded(runs, pr, q.head, name, current, !q.capable)
  {
    var o :| o in runs && o.id == id && o.prs == [pr] && Sweepable(world, workflow, name, current, o);
    SelectsExactly(runs, pr, q.head, name, current, q.capable, id);
  }

  lemma ChosenIsSwept(
    world: (nat, Request) -> Reply, workflow: nat, name: string, current: nat, obs: seq<Observation>, pr: nat,
    q: Qualification, id: nat)
    requires world(0, GetPull(pr)) == Pull(q.head, q.capable)
    requires id in SelectSuperseded(StableSingletons(obs), pr, q.head, name, current, !q.capable)
    ensures SweptOf(world, workflow, name, current, StableSingletons(obs), pr, id) <==>
            Dismissed(world, workflow, id, SelectedHead(obs, pr, q, name, current, id), pr)
  {
    var runs := StableSingletons(obs);
    var o := RecordOf(runs, id, pr);
    SelectsExactly(runs, pr, q.head, name, current, q.capable, id);
    var p :| p in runs && p.id == id && Superseded(p, pr, q.head, name, current, q.capable);
    OneStableRecord(obs, o, p);
    if SweptOf(world, workflow, name, current, runs, pr, id) {
      var x :| x in runs && x.id == id && x.prs == [pr] && Sweepable(world, workflow, name, current, x);
      OneStableRecord(obs, o, x);
    }
  }

  /** Of the first `i` ids exactly those that the sweep cancels are in the list, and nothing else is. */
  ghost predicate SweptSoFar(
    world: (nat, Request) -> Reply, workflow: nat, name: string, current: nat, runs: seq<Observation>, pr: nat,
    ids: seq<nat>, i: nat, cancelled: seq<nat>)
  {
    && i <= |ids| && (forall id :: id in cancelled ==> id in ids[..i])
    && forall k :: 0 <= k < i ==>
         (ids[k] in cancelled <==> SweptOf(world, workflow, name, current, runs, pr, ids[k]))
  }

  lemma SweptNext(
    world: (nat, Request) -> Reply, workflow: nat, name: string, current: nat, runs: seq<Observation>, pr: nat,
    ids: seq<nat>, i: nat, cancelled: seq<nat>, next: seq<nat>)
    requires NoRepeats(ids) && i < |ids|
    requires SweptSoFar(world, workflow, name, current, runs, pr, ids, i, cancelled)
    requires next == cancelled + if SweptOf(world, workflow, name, current, runs, pr, ids[i]) then [ids[i]] else []
    ensures SweptSoFar(world, workflow, name, current, runs, pr, ids, i + 1, next)
  {
    assert ids[..i + 1] == ids[..i] + [ids[i]];
    forall k | 0 <= k < i ensures ids[k] != ids[i] {}
    assert forall k :: 0 <= k < i ==> ids[..i][k] != ids[i];
  }

  lemma SweptAll(
    world: (nat, Request) -> Reply, workflow: nat, name: string, current: nat, runs: seq<Observation>, pr: nat,
    q: Qualification, ids: seq<nat>, cancelled: seq<nat>)
    requires world(0, GetPull(pr)) == Pull(q.head, q.capable)
    requires forall x :: x in ids <==> x in SelectSuperseded(runs, pr, q.head, name, current, !q.capable)
    requires SweptSoFar(world, workflow, name, current, runs, pr, ids, |ids|, cancelled)
    ensures SweepsExactly(world, workflow, name, current, runs, pr, cancelled)
  {
    forall id: nat ensures id in cancelled <==> SweptOf(world, workflow, name, current, runs, pr, id) {
      if SweptOf(world, workflow, name, current, runs, pr, id) {
        SweptIsChosen(world, workflow, name, current, runs, pr, q, id);
      }
      assert ids[..|ids|] == ids;
      if id in ids {
        var k :| 0 <= k < |ids| && ids[k] == id;
      }
    }
  }

  /** The list holds exactly the runs of the PR that the sweep cancels. */
  ghost predicate SweepsExactly(
    world: (nat, Request) -> Reply, workflow: nat, name: string, current: nat, runs: seq<Observation>, pr: nat,
    cancelled: seq<nat>)
  {
    forall id: nat :: id in cancelled <==> SweptOf(world, workflow, name, current, runs, pr, id)
  }

  /** The effect for one selected run. */
  method SweepRun(
    c: ScopedClient, obs: seq<Observation>, pr: nat, current: nat, q: Qualification, id: nat)
    returns (r: Attempt<Option<bool>>)
    requires c.Valid() && c.NoRecovery()
    requires id in SelectSuperseded(StableSingletons(obs), pr, q.head, c.workflowName, current, !q.capable)
    modifies c.api
    ensures c.Valid() && old(c.api.trace) <= c.api.trace
    ensures Posts(c.api.trace) == Posts(old(c.api.trace)) || Posts(c.api.trace) == Posts(old(c.api.trace)) + [id]
    ensures r == Got(Some(true)) ==> Posts(c.api.trace) == Posts(old(c.api.trace)) + [id]
    ensures r.Refused? ==> r.why in {Failure, BudgetExhausted}
    ensures r == Refused(BudgetExhausted) ==> c.api.remaining == Some(0)
    ensures Calm(c.api.world) && c.api.world(0, GetPull(pr)) == Pull(q.head, q.capable) && r.Got? ==>
              r == Got(Some(SweptOf(c.api.world, c.workflow, c.workflowName, current, StableSingletons(obs), pr, id)))
    ensures Calm(c.api.world) && Healthy(c.api.world) ==> r != Refused(Failure)
  {
    var head := SelectedHead(obs, pr, q, c.workflowName, current, id);
    r := CancelExplicit(c, id, head, pr, q);
    if c.api.world(0, GetPull(pr)) == Pull(q.head, q.capable) {
      ChosenIsSwept(c.api.world, c.workflow, c.workflowName, current, obs, pr, q, id);
    }
  }

  /** The effects for the selected runs of a qualified PR, in ascending order of run id. */
  method SweepSelected(c: ScopedClient, obs: seq<Observation>, pr: nat, current: nat, q: Qualification)
    returns (r: Attempt<seq<nat>>)
    requires c.Valid() && c.NoRecovery()
    modifies c.api
    ensures c.Valid() && old(c.api.trace) <= c.api.trace
    ensures Adds(Posts(old(c.api.trace)), Posts(c.api.trace), IdsOfPr(StableSingletons(obs), pr) - {current})
    ensures r.Got? ==> forall id :: id in r.value ==> id in Posts(c.api.trace)
    ensures r.Refused? ==> r.why in {Failure, BudgetExhausted}
    ensures r == Refused(BudgetExhausted) ==> c.api.remaining == Some(0)
    ensures Calm(c.api.world) && c.api.world(0, GetPull(pr)) == Pull(q.head, q.capable) && r.Got? ==>
              SweepsExactly(c.api.world, c.workflow, c.workflowName, current, StableSingletons(obs), pr, r.value)
    ensures Calm(c.api.world) && Healthy(c.api.world) ==> r != Refused(Failure)
  {
    var runs := StableSingletons(obs);
    var cancelled: seq<nat> := [];
    ghost var still := Calm(c.api.world) && c.api.world(0, GetPull(pr)) == Pull(q.head, q.capable);
    var chosen := SelectSuperseded(runs, pr, q.head, c.workflowName, current, !q.capable);
    var selected := Ascending(chosen);
    ghost var allowed := IdsOfPr(runs, pr) - {current};
    assert chosen <= allowed;
    ghost var tried: set<nat> := {};
    for j := 0 to |selected|
      invariant c.Valid() && old(c.api.trace) <= c.api.trace
      invariant Adds(Posts(old(c.api.trace)), Posts(c.api.trace), tried)
      invariant tried <= allowed && forall k :: j <= k < |selected| ==> selected[k] !in tried
      invariant forall id :: id in cancelled ==> id in Posts(c.api.trace)
      invariant still ==>
                  SweptSoFar(c.api.world, c.workflow, c.workflowName, current, runs, pr, selected, j, cancelled)
    {
      var id := selected[j];
      assert id in chosen;
      ghost var before := Posts(c.api.trace);
      var done := SweepRun(c, obs, pr, current, q, id);
      AddsOne(Posts(old(c.api.trace)), before, tried, Posts(c.api.trace), id);
      tried := tried + {id};
      AddsMore(Posts(old(c.api.trace)), Posts(c.api.trace), tried, allowed);
      if done.Refused? { return Refused(done.why); }
      if done.value.None? { return Got(cancelled); }
      ghost var were := cancelled;
      if done.value == Some(true) { cancelled := cancelled + [id]; }
      if still {
        SweptNext(c.api.world, c.workflow, c.workflowName, current, runs, pr, selected, j, were, cancelled);
      }
    }
    AddsMore(Posts(old(c.api.trace)), Posts(c.api.trace), tried, allowed);
    if still { SweptAll(c.api.world, c.workflow, c.workflowName, current, runs, pr, q, selected, cancelled); }
    return Got(cancelled);
  }

  /** One PR group: qualify once, then identity, fresh qualification and effect for each selected run. */
  method SweepGroup(c: ScopedClient, obs: seq<Observation>, pr: nat, current: nat) returns (r: Attempt<seq<nat>>)
    requires c.Valid() && c.NoRecovery()
    modifies c.api
    ensures c.Valid() && old(c.api.trace) <= c.api.trace
    ensures Adds(Posts(old(c.api.trace)), Posts(c.api.trace), IdsOfPr(StableSingletons(obs), pr) - {current})
    ensures r.Got? ==> forall id :: id in r.value ==> id in Posts(c.api.trace)
    ensures r.Refused? ==> r.why in {Failure, BudgetExhausted}
    ensures r == Refused(BudgetExhausted) ==> c.api.remaining == Some(0)
    ensures Calm(c.api.world) && r.Got? ==>
              SweepsExactly(c.api.world, c.workflow, c.workflowName, current, StableSingletons(obs), pr, r.value)
    ensures Calm(c.api.world) && Healthy(c.api.world) ==> r != Refused(Failure)
  {
    ghost var start := c.api.trace;
    AddsNothing(Posts(start), IdsOfPr(StableSingletons(obs), pr) - {current});
    var live := c.api.LiveQualification(pr);
    if live == Refused(BudgetExhausted) { return Refused(BudgetExhausted); }
    if live.Refused? {
      if Calm(c.api.world) { assert c.api.world(|start|, GetPull(pr)) == c.api.world(0, GetPull(pr)); }
      return Got([]);
    }
    QualifiedCalmly(c.api.world, start, c.api.trace, pr, live.value);
    r := SweepSelected(c, obs, pr, current, live.value);
  }

  lemma QualifiedCalmly(world: (nat, Request) -> Reply, before: Trace, after: Trace, pr: nat, q: Qualification)
    requires Answered(world, after) && after == before + [Exchange(GetPull(pr), Pull(q.head, q.capable))]
    ensures Calm(world) ==> world(0, GetPull(pr)) == Pull(q.head, q.capable)
  {
    if Calm(world) { AnsweredAt(world, after, |before|); }
  }

  /** A selected run's head is not the live head of an integration-capable PR. */
  function SelectedHead(obs: seq<Observation>, pr: nat, q: Qualification, name: string, current: nat, id: nat)
    : (head: Sha)
    requires id in SelectSuperseded(StableSingletons(obs), pr, q.head, name, current, !q.capable)
    ensures !(q.head == head && q.capable)
  {
    var runs := StableSingletons(obs);
    var o := RecordOf(runs, id, pr);
    assert !(q.head == o.head && q.capable) by {
      var p :| p in runs && p.id == id && p.prs == [pr] && (!q.capable || p.head != q.head);
      OneStableRecord(obs, o, p);
    }
    o.head
  }

  lemma GroupsDisjoint(obs: seq<Observation>, p: nat, q: nat)
    requires p != q
    ensures IdsOfPr(StableSingletons(obs), p) !! IdsOfPr(StableSingletons(obs), q)
  {
    var runs := StableSingletons(obs);
    forall a, b | a in runs && b in runs && a.prs == [p] && b.prs == [q] ensures a.id != b.id {
      if a.id == b.id { OneStableRecord(obs, a, b); }
    }
  }

  /** The sweep cancels a run with this id, whatever PR its record names. */
  predicate SweptAny(
    world: (nat, Request) -> Reply, workflow: nat, name: string, current: nat, runs: seq<Observation>, id: nat)
  {
    exists o :: o in runs && o.id == id && Sweepable(world, workflow, name, current, o)
  }

  /** The list holds exactly the runs that the sweep cancels. */
  ghost predicate SweepsAll(
    world: (nat, Request) -> Reply, workflow: nat, name: string, current: nat, runs: seq<Observation>,
    cancelled: seq<nat>)
  {
    forall id: nat :: id in cancelled <==> SweptAny(world, workflow, name, current, runs, id)
  }

  predicate SweptBefore(
    world: (nat, Request) -> Reply, workflow: nat, name: string, current: nat, runs: seq<Observation>, prs: seq<nat>,
    i: nat, id: nat)
    requires i <= |prs|
  {
    exists k :: 0 <= k < i && SweptOf(world, workflow, name, current, runs, prs[k], id)
  }

  /** The list holds exactly the runs that the sweep cancels in the first `i` groups. */
  ghost predicate GroupsSwept(
    world: (nat, Request) -> Reply, workflow: nat, name: string, current: nat, runs: seq<Observation>, prs: seq<nat>,
    i: nat, cancelled: seq<nat>)
  {
    i <= |prs| && forall id: nat :: id in cancelled <==> SweptBefore(world, workflow, name, current, runs, prs, i, id)
  }

  lemma GroupsNext(
    world: (nat, Request) -> Reply, workflow: nat, name: string, current: nat, runs: seq<Observation>, prs: seq<nat>,
    i: nat, cancelled: seq<nat>, more: seq<nat>)
    requires GroupsSwept(world, workflow, name, current, runs, prs, i, cancelled) && i < |prs|
    requires SweepsExactly(world, workflow, name, current, runs, prs[i], more)
    ensures GroupsSwept(world, workflow, name, current, runs, prs, i + 1, cancelled + more)
  {
    forall id: nat
      ensures id in cancelled + more <==> SweptBefore(world, workflow, name, current, runs, prs, i + 1, id)
    {
      assert id in cancelled + more <==> id in cancelled || id in more;
      if SweptBefore(world, workflow, name, current, runs, prs, i, id) {
        var k :| 0 <= k < i && SweptOf(world, workflow, name, current, runs, prs[k], id);
      }
    }
  }

  lemma GroupsAll(
    world: (nat, Request) -> Reply, workflow: nat, name: string, current: nat, runs: seq<Observation>, prs: seq<nat>,
    cancelled: seq<nat>)
    requires GroupsSwept(world, workflow, name, current, runs, prs, |prs|, cancelled)
    requires forall pr :: pr in CandidatePrs(runs, current) ==> pr in prs
    ensures SweepsAll(world, workflow, name, current, runs, cancelled)
  {
    forall id: nat
      ensures SweptBefore(world, workflow, name, current, runs, prs, |prs|, id) <==>
              SweptAny(world, workflow, name, current, runs, id)
    {
      if SweptAny(world, workflow, name, current, runs, id) {
        var o :| o in runs && o.id == id && Sweepable(world, workflow, name, current, o);
        assert o.prs == [o.prs[0]] && o.prs[0] in CandidatePrs(runs, current);
        var k :| 0 <= k < |prs| && prs[k] == o.prs[0];
        assert SweptOf(world, workflow, name, current, runs, prs[k], id);
      }
    }
  }

  /** Every explicit singleton PR group of the snapshot, in scheduling order. */
  method CancelSupersededExplicitPrRuns(c: ScopedClient, current: nat, given: Option<seq<Observation>>,
                                        ghost still: Option<seq<seq<Observation>>>)
    returns (r: Attempt<seq<nat>>, runs: seq<Observation>)
    requires c.Valid() && c.NoRecovery()
    requires given.Some? ==> c.BookNow() == Track(given.value)
    requires still.Some? ==> StandsStill(c.api.world, still.value)
    requires given.Some? && still.Some? ==> given.value == Snapshot(still.value, c.workflowName)
    modifies c, c.api
    ensures c.Valid() && c.NoRecovery()
    ensures r.Got? ==> c.BookNow() == Track(runs) && (given.Some? ==> runs == given.value)
    ensures r.Got? && still.Some? ==> runs == Snapshot(still.value, c.workflowName)
    ensures Adds(Posts(old(c.api.trace)), Posts(c.api.trace), ExplicitIds(StableSingletons(runs)) - {current})
    ensures r.Got? ==> forall id :: id in r.value ==> id in Posts(c.api.trace)
    ensures r.Refused? ==> r.why in {Failure, BudgetExhausted}
    ensures r == Refused(BudgetExhausted) ==> c.api.remaining == Some(0)
    ensures Calm(c.api.world) && r.Got? ==>
              SweepsAll(c.api.world, c.workflow, c.workflowName, current, StableSingletons(runs), r.value)
    ensures Calm(c.api.world) && Healthy(c.api.world) && (given.Some? || still.Some?) ==> r != Refused(Failure)
  {
    runs := [];
    if given.Some? {
      runs := given.value;
    } else {
      var scan := c.ActiveRuns(still);
      if scan.Refused? { return Refused(scan.why), []; }
      runs := scan.value;
    }
    var stable := StableSingletons(runs);
    var prs := Schedule(stable, Ascending(CandidatePrs(stable, current)));
    var cancelled: seq<nat> := [];
    ghost var allowed := ExplicitIds(stable) - {current};
    ghost var tried: set<nat> := {};
    for i := 0 to |prs|
      invariant c.Valid() && c.NoRecovery() && c.BookNow() == Track(runs)
      invariant Adds(Posts(old(c.api.trace)), Posts(c.api.trace), tried) && tried <= allowed
      invariant forall k :: i <= k < |prs| ==> tried !! IdsOfPr(stable, prs[k])
      invariant forall id :: id in cancelled ==> id in Posts(c.api.trace)
      invariant Calm(c.api.world) ==>
                  GroupsSwept(c.api.world, c.workflow, c.workflowName, current, stable, prs, i, cancelled)
    {
      ghost var before := Posts(c.api.trace);
      ghost var group := IdsOfPr(stable, prs[i]) - {current};
      var done := SweepGroup(c, runs, prs[i], current);
      AddsJoin(Posts(old(c.api.trace)), before, Posts(c.api.trace), tried, group);
      tried := tried + group;
      AddsMore(Posts(old(c.api.trace)), Posts(c.api.trace), tried, allowed);
      forall k | i < k < |prs| ensures tried !! IdsOfPr(stable, prs[k]) { GroupsDisjoint(runs, prs[i], prs[k]); }
      if done.Refused? { return Refused(done.why), runs; }
      if Calm(c.api.world) {
        GroupsNext(c.api.world, c.workflow, c.workflowName, current, stable, prs, i, cancelled, done.value);
      }
      cancelled := cancelled + done.value;
    }
    AddsMore(Posts(old(c.api.trace)), Posts(c.api.trace), tried, allowed);
    if Calm(c.api.world) { GroupsAll(c.api.world, c.workflow, c.workflowName, current, stable, prs, cancelled); }
    return Got(cancelled), runs;
  }

  /** The scheduling order is a total order. */
  lemma BeforeIsTotal(runs: seq<Observation>, p: nat, q: nat, r: nat)
    ensures Before(runs, p, q) || Before(runs, q, p)
    ensures Before(runs, p, q) && Before(runs, q, p) ==> p == q
    ensures Before(runs, p, q) && Before(runs, q, r) ==> Before(runs, p, r)
  {
  }

  lemma IdsOfPrSnoc(o: Observation, rest: seq<Observation>, pr: nat)
    ensures IdsOfPr([o] + rest, pr) == (if o.prs == [pr] then {o.id} else {}) + IdsOfPr(rest, pr)
  {
    var all := [o] + rest;
    assert all[0] == o && forall x :: x in all <==> x == o || x in rest;
  }

  /** The second criterion of the order is the number of different runs of the PR. */
  lemma {:induction false} CountExactly(runs: seq<Observation>, pr: nat)
    requires DistinctIds(runs)
    ensures CountOf(runs, pr) == |IdsOfPr(runs, pr)|
  {
    if runs != [] {
      CountExactly(runs[1..], pr);
      assert runs == [runs[0]] + runs[1..];
      IdsOfPrSnoc(runs[0], runs[1..], pr);
      forall o | o in runs[1..] ensures o.id != runs[0].id {
        var i :| 0 <= i < |runs[1..]| && runs[1..][i] == o;
        assert runs[i + 1] == o;
      }
    }
  }

  // ---- The triggering run ---------------------------------------------------------------------------------

  /** In an environment that stands still, the triggering run is cancelled. */
  predicate Triggered(world: (nat, Request) -> Reply, workflow: nat, pr: nat, eventHead: Sha, current: nat) {
    Releases(world(0, GetPull(pr)), eventHead) && Dismissed(world, workflow, current, eventHead, pr)
  }

  /** Cancels the triggering run when it is stale, or when its PR cannot be integrated. */
  method CancelTriggeringRun(c: ScopedClient, pr: nat, eventHead: Sha, current: nat, q: Qualification)
    returns (r: Attempt<bool>)
    requires c.Valid() && c.NoRecovery()
    modifies c.api
    ensures c.Valid()
    ensures Adds(Posts(old(c.api.trace)), Posts(c.api.trace), {current})
    ensures q.head == eventHead && q.capable ==> c.api.trace == old(c.api.trace)
    ensures Calm(c.api.world) && c.api.world(0, GetPull(pr)) == Pull(q.head, q.capable) && r.Got? ==>
              (r.value <==> Triggered(c.api.world, c.workflow, pr, eventHead, current))
    ensures Calm(c.api.world) && Healthy(c.api.world) ==> r != Refused(Failure)
    ensures r == Got(true) ==> Posts(c.api.trace) == Posts(old(c.api.trace)) + [current]
    ensures r.Refused? ==> r.why in {Failure, BudgetExhausted}
    ensures r == Refused(BudgetExhausted) ==> c.api.remaining == Some(0)
  {
    AddsNothing(Posts(c.api.trace), {});
    var stale := q.head != eventHead;
    var sameHeadNonqualifying := q.head == eventHead && !q.capable;
    if !stale && !sameHeadNonqualifying { return Got(false); }
    var done := CancelExplicit(c, current, eventHead, pr, q);
    AddsOne(Posts(old(c.api.trace)), Posts(old(c.api.trace)), {}, Posts(c.api.trace), current);
    assert {} + {current} == {current};
    if done.Refused? { return Refused(done.why); }
    return Got(done.value == Some(true));
  }

  // ---- The controller ---------------------------------------------------------------------------------------

  datatype EventMode = EmptyEvent | SingletonEvent | AmbiguousEvent

  /** `Deferred` is the exit 0 of an exhausted budget; `Failed` is exit 2. */
  datatype Exit = Finished(swept: seq<nat>, orphans: seq<nat>) | Deferred | Failed

  function EventIdentity(pr: int, mode: EventMode): Option<(Option<nat>, bool)> {
    if pr < 0 then None
    else if mode.SingletonEvent? then (if pr == 0 then None else Some((Some(pr), false)))
    else if pr != 0 then None
    else Some((None, mode.AmbiguousEvent?))
  }

  /** The one PR that every entry of the current run names, on the event's own head. */
  function SingletonForCurrent(runs: seq<Observation>, current: nat, eventHead: Sha): Option<nat> {
    var entries := set o | o in runs && o.id == current;
    var prs := set o | o in entries && |o.prs| == 1 :: o.prs[0];
    if entries == {} || (exists o :: o in entries && (o.head != eventHead || |o.prs| != 1)) || |prs| != 1 then None
    else Some(TheOnly(prs))
  }

  /** The snapshot settles an event exactly when every row of its run names that one PR on the event's head. */
  lemma SingletonExactly(runs: seq<Observation>, current: nat, eventHead: Sha, pr: nat)
    ensures SingletonForCurrent(runs, current, eventHead) == Some(pr) <==>
            && (exists o :: o in runs && o.id == current)
            && forall o :: o in runs && o.id == current ==> o.head == eventHead && o.prs == [pr]
  {
    var entries := set o | o in runs && o.id == current;
    var prs := set o | o in entries && |o.prs| == 1 :: o.prs[0];
    forall o | o in runs && o.id == current ensures o in entries {}
    if SingletonForCurrent(runs, current, eventHead) == Some(pr) {
      assert prs == {pr};
      var o := Member(entries);
      forall o | o in entries ensures o.prs == [pr] { assert o.prs[0] in prs; }
    }
    if (exists o :: o in runs && o.id == current)
       && forall o :: o in runs && o.id == current ==> o.head == eventHead && o.prs == [pr]
    {
      var o :| o in runs && o.id == current;
      assert o in entries && o.prs[0] in prs;
      assert prs == {pr};
    }
  }

  function ExitOf(why: Refusal): Exit { if why == BudgetExhausted then Deferred else Failed }

  lemma UnboundIsNotExplicit(runs: seq<Observation>)
    ensures ExplicitIds(StableSingletons(runs)) !! Track(runs).unbound.Keys
  {
    forall o | o in StableSingletons(runs) ensures o.id !in Track(runs).unbound {
      OneStableRecord(runs, o, o);
      ExplicitIsNotUnbound(runs, o);
    }
  }

  /** The listings show the pages of these collections, one for each active status, whenever they are read. */
  ghost predicate StandsStill(world: (nat, Request) -> Reply, still: seq<seq<Observation>>) {
    |still| == STATUS_COUNT && AllStatic(world, still)
  }

  /** An event without any PR reference may recover one from the snapshot. */
  method SnapshotIdentity(c: ScopedClient, needed: bool, current: nat, eventHead: Sha,
                          ghost still: Option<seq<seq<Observation>>>)
    returns (r: Attempt<(Option<seq<Observation>>, Option<nat>)>)
    requires c.Valid() && c.NoRecovery()
    requires still.Some? ==> StandsStill(c.api.world, still.value)
    modifies c, c.api
    ensures c.Valid() && c.NoRecovery()
    ensures Posts(c.api.trace) == Posts(old(c.api.trace))
    ensures r.Got? && r.value.0.Some? ==> c.BookNow() == Track(r.value.0.value)
    ensures r.Got? && r.value.0.Some? && still.Some? ==> r.value.0.value == Snapshot(still.value, c.workflowName)
    ensures r.Got? && !needed ==> r.value == (None, None)
    ensures r.Got? && needed ==>
              r.value.0.Some? && r.value.1 == SingletonForCurrent(r.value.0.value, current, eventHead)
    ensures r.Refused? ==> r.why in {Failure, BudgetExhausted} && (still.Some? ==> r.why == BudgetExhausted)
    ensures r == Refused(BudgetExhausted) ==> c.api.remaining == Some(0)
  {
    if !needed { return Got((None, None)); }
    var scan := c.ActiveRuns(still);
    if scan.Refused? { return Refused(scan.why); }
    return Got((Some(scan.value), SingletonForCurrent(scan.value, current, eventHead)));
  }

  method SettleTrigger(c: ScopedClient, pr: nat, eventHead: Sha, current: nat) returns (r: Attempt<bool>)
    requires c.Valid() && c.NoRecovery()
    modifies c.api
    ensures c.Valid()
    ensures Adds(Posts(old(c.api.trace)), Posts(c.api.trace), {current})
    ensures r == Got(true) ==> current in Posts(c.api.trace)
    ensures r.Refused? ==> r.why in {Failure, BudgetExhausted}
    ensures r == Refused(BudgetExhausted) ==> c.api.remaining == Some(0)
    ensures Calm(c.api.world) && r.Got? ==>
              (r.value <==> Triggered(c.api.world, c.workflow, pr, eventHead, current))
    ensures Calm(c.api.world) && Healthy(c.api.world) ==> r != Refused(Failure)
  {
    AddsNothing(Posts(c.api.trace), {current});
    ghost var start := c.api.trace;
    var live := c.api.LiveQualification(pr);
    if live == Refused(BudgetExhausted) { return Refused(BudgetExhausted); }
    if live.Refused? {
      if Calm(c.api.world) { assert c.api.world(|start|, GetPull(pr)) == c.api.world(0, GetPull(pr)); }
      return Got(false);
    }
    QualifiedCalmly(c.api.world, start, c.api.trace, pr, live.value);
    r := CancelTriggeringRun(c, pr, eventHead, current, live.value);
  }

  /** In an environment that stands still, the cleanup cancels exactly these runs. */
  ghost predicate CleansExactly(
    world: (nat, Request) -> Reply, workflow: nat, unbound: map<nat, Candidate>, kept: set<nat>, orphans: seq<nat>)
  {
    forall id :: id in orphans <==> id in unbound && id !in kept && CleanedUp(world, workflow, id, unbound[id])
  }

  /** In an environment that stands still: exactly these orphans are cancelled, and a stale triggering run is. */
  ghost predicate SettledRest(
    world: (nat, Request) -> Reply, workflow: nat, runs: seq<Observation>, trigger: Option<nat>, ambiguous: bool,
    eventHead: Sha, current: nat, orphans: seq<nat>, posts: seq<nat>)
  {
    && CleansExactly(world, workflow, Track(runs).unbound, Kept(trigger, ambiguous, current), orphans)
    && (trigger.Some? && Triggered(world, workflow, trigger.value, eventHead, current) ==> current in posts)
  }

  /** The stages after the sweep. */
  method FinishRun(c: ScopedClient, runs: seq<Observation>, swept: seq<nat>, trigger: Option<nat>, ambiguous: bool,
                   eventHead: Sha, current: nat)
    returns (exit: Exit)
    requires c.Valid() && c.NoRecovery() && c.BookNow() == Track(runs) && (ambiguous ==> trigger.None?)
    requires forall id :: id in swept ==> id in ExplicitIds(StableSingletons(runs))
    modifies c`recovered, c`zeroAssociation, c.api
    ensures c.Valid()
    ensures Adds(Posts(old(c.api.trace)), Posts(c.api.trace), c.unbound.Keys + {current})
    ensures ambiguous ==> Adds(Posts(old(c.api.trace)), Posts(c.api.trace), c.unbound.Keys - {current})
    ensures exit.Finished? ==> exit.swept == swept && forall id :: id in exit.orphans ==> id in Posts(c.api.trace)
    ensures exit.Deferred? ==> c.api.remaining == Some(0)
    ensures Calm(c.api.world) && exit.Finished? ==>
              SettledRest(c.api.world, c.workflow, runs, trigger, ambiguous, eventHead, current, exit.orphans,
                          Posts(c.api.trace))
    ensures Calm(c.api.world) && Healthy(c.api.world) ==> !exit.Failed?
  {
    var exclude := if trigger.Some? || ambiguous then [current] + swept else swept;
    ghost var start := Posts(c.api.trace);
    var orphans := CancelHistoricalUnboundRuns(c, exclude);
    ghost var middle := Posts(c.api.trace);
    ghost var excluded := set x | x in exclude;
    AddsMore(start, middle, c.unbound.Keys - excluded, c.unbound.Keys + {current});
    if ambiguous { AddsMore(start, middle, c.unbound.Keys - excluded, c.unbound.Keys - {current}); }
    if orphans.Refused? { return ExitOf(orphans.why); }
    if Calm(c.api.world) {
      CleansDespiteSwept(c.api.world, c.workflow, runs, swept, trigger, ambiguous, current, exclude, orphans.value);
    }
    if trigger.None? { return Finished(swept, orphans.value); }
    var settled := SettleTrigger(c, trigger.value, eventHead, current);
    AddsJoin(start, middle, Posts(c.api.trace), c.unbound.Keys - excluded, {current});
    AddsMore(start, Posts(c.api.trace), (c.unbound.Keys - excluded) + {current}, c.unbound.Keys + {current});
    if settled.Refused? { return ExitOf(settled.why); }
    return Finished(swept, orphans.value);
  }

  /** What the orphan cleanup leaves alone. */
  function Kept(trigger: Option<nat>, ambiguous: bool, current: nat): set<nat> {
    if trigger.Some? || ambiguous then {current} else {}
  }

  /** Swept runs are explicit, so excluding them changes nothing for the cleanup. */
  lemma CleansDespiteSwept(
    world: (nat, Request) -> Reply, workflow: nat, runs: seq<Observation>, swept: seq<nat>, trigger: Option<nat>,
    ambiguous: bool, current: nat, exclude: seq<nat>, orphans: seq<nat>)
    requires forall id :: id in swept ==> id in ExplicitIds(StableSingletons(runs))
    requires exclude == if trigger.Some? || ambiguous then [current] + swept else swept
    requires forall id :: id in orphans <==>
               id in Track(runs).unbound && id !in exclude && CleanedUp(world, workflow, id, Track(runs).unbound[id])
    ensures CleansExactly(world, workflow, Track(runs).unbound, Kept(trigger, ambiguous, current), orphans)
  {
    UnboundIsNotExplicit(runs);
    forall id | id in Track(runs).unbound ensures id in exclude <==> id in Kept(trigger, ambiguous, current) {
      assert id !in swept;
    }
  }

  /** The PR that settles the triggering run: the one given, or for an unambiguous event that of the snapshot. */
  function TriggerFrom(given: Option<nat>, ambiguous: bool, runs: seq<Observation>, current: nat, eventHead: Sha)
    : Option<nat>
  {
    if given.Some? || ambiguous then given else SingletonForCurrent(runs, current, eventHead)
  }

  /** The effects of all stages in an environment that stands still. */
  ghost predicate SettledAll(
    world: (nat, Request) -> Reply, workflow: nat, name: string, runs: seq<Observation>, trigger: Option<nat>,
    ambiguous: bool, eventHead: Sha, current: nat, swept: seq<nat>, orphans: seq<nat>, posts: seq<nat>)
  {
    && SweepsAll(world, workflow, name, current, StableSingletons(runs), swept)
    && SettledRest(world, workflow, runs, trigger, ambiguous, eventHead, current, orphans, posts)
  }

  /** Snapshot, sweep, orphan cleanup and triggering run, with a new client. */
  method RunStages(c: ScopedClient, given: Option<nat>, ambiguous: bool, eventHead: Sha, current: nat,
                   ghost still: Option<seq<seq<Observation>>>)
    returns (exit: Exit, ghost runs: seq<Observation>)
    requires c.Valid() && c.NoRecovery() && Posts(c.api.trace) == [] && (ambiguous ==> given.None?)
    requires still.Some? ==> StandsStill(c.api.world, still.value)
    modifies c, c.api
    ensures c.Valid() && NoRepeats(Posts(c.api.trace))
    ensures ambiguous ==> current !in Posts(c.api.trace)
    ensures exit.Finished? ==> forall id :: id in exit.swept + exit.orphans ==> id in Posts(c.api.trace)
    ensures exit.Finished? && still.Some? ==> runs == Snapshot(still.value, c.workflowName)
    ensures Calm(c.api.world) && exit.Finished? ==>
              SettledAll(c.api.world, c.workflow, c.workflowName, runs,
                         TriggerFrom(given, ambiguous, runs, current, eventHead), ambiguous, eventHead, current,
                         exit.swept, exit.orphans, Posts(c.api.trace))
    ensures exit.Deferred? ==> c.api.remaining == Some(0)
    ensures Calm(c.api.world) && Healthy(c.api.world) && still.Some? ==> !exit.Failed?
  {
    runs := [];
    var snapshot := SnapshotIdentity(c, given.None? && !ambiguous, current, eventHead, still);
    if snapshot.Refused? { return ExitOf(snapshot.why), runs; }
    var swept, scanned := CancelSupersededExplicitPrRuns(c, current, snapshot.value.0, still);
    runs := scanned;
    ghost var first := Posts(c.api.trace);
    ghost var explicit := ExplicitIds(StableSingletons(runs)) - {current};
    assert first[0..] == first;
    if swept.Refused? { return ExitOf(swept.why), runs; }
    var trigger := if given.None? then snapshot.value.1 else given;
    UnboundIsNotExplicit(runs);
    exit := FinishRun(c, scanned, swept.value, trigger, ambiguous, eventHead, current);
    AddsJoin([], first, Posts(c.api.trace), explicit, c.unbound.Keys + {current});
    if ambiguous { AddsJoin([], first, Posts(c.api.trace), explicit, c.unbound.Keys - {current}); }
    assert Posts(c.api.trace)[0..] == Posts(c.api.trace);
  }

  /** A singleton event names its PR, and no other event names one. */
  predicate EventSound(pr: int, mode: EventMode) { if mode.SingletonEvent? then pr > 0 else pr == 0 }

  /** The PR that a singleton event names. */
  function NamedPr(pr: int, mode: EventMode): Option<nat> {
    if mode.SingletonEvent? && pr > 0 then Some(pr) else None
  }

  /**
   * One invocation against any environment: every cancel request is justified by the external read just
   * before it (`Valid`), no run is posted twice, at most 24 requests are sent, and the triggering run of
   * an ambiguous event is never cancelled. It defers only when all 24 were sent. In an environment that
   * stands still, an invocation that finishes cancels exactly the superseded and the orphaned runs of its
   * snapshot that GitHub shows stale and accepts, and also the triggering run when that is stale.
   */
  method RunController(world: (nat, Request) -> Reply, workflow: nat, workflowName: string, pr: int, mode: EventMode,
                       eventHead: Sha, current: nat, ghost still: Option<seq<seq<Observation>>>)
    returns (exit: Exit, c: ScopedClient, ghost runs: seq<Observation>)
    requires still.Some? ==> StandsStill(world, still.value)
    ensures fresh(c) && c.Valid() && AllJustified(Some(workflow), c.api.trace) && c.api.world == world
    ensures |c.api.trace| <= REQUEST_BUDGET
    ensures NoRepeats(Posts(c.api.trace))
    ensures mode.AmbiguousEvent? ==> current !in Posts(c.api.trace)
    ensures exit.Finished? ==> forall id :: id in exit.swept + exit.orphans ==> id in Posts(c.api.trace)
    ensures exit.Finished? && still.Some? ==> runs == Snapshot(still.value, workflowName)
    ensures Calm(world) && exit.Finished? ==>
              var trigger := TriggerFrom(NamedPr(pr, mode), mode.AmbiguousEvent?, runs, current, eventHead);
              SettledAll(world, workflow, workflowName, runs, trigger, mode.AmbiguousEvent?, eventHead, current,
                         exit.swept, exit.orphans, Posts(c.api.trace))
    ensures exit.Deferred? ==> |c.api.trace| == REQUEST_BUDGET
    ensures !EventSound(pr, mode) ==> exit == Failed && c.api.trace == []
    ensures Calm(world) && Healthy(world) && still.Some? && EventSound(pr, mode) ==> !exit.Failed?
  {
    c := new ScopedClient(world, workflow, workflowName);
    runs := [];
    var identity := EventIdentity(pr, mode);
    if identity.None? { return Failed, c, runs; }
    exit, runs := RunStages(c, identity.value.0, identity.value.1, eventHead, current, still);
  }
}
