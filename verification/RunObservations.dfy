/**
 * Identity bookkeeping over one snapshot of active workflow runs. The collection moves while it is
 * scanned, so one run may be observed several times with different metadata.
 */
module RunObservations {
  import opened Common

  type Sha = string

  /** One row of a runs page; `branch` is the head branch when the head is in this repository. */
  datatype Observation = Observation(id: nat, head: Sha, name: string, prs: seq<nat>, branch: Option<string>)

  datatype Candidate = Candidate(head: Sha, branch: Option<string>)

  function CandidateOf(o: Observation): Candidate { Candidate(o.head, o.branch) }

  datatype Book = Book(unbound: map<nat, Candidate>, explicit: set<nat>, conflicted: set<nat>)

  const BLANK_BOOK := Book(map[], {}, {})

  /** The incremental update for one observed row. */
  function Note(b: Book, o: Observation): Book {
    if o.prs != [] then Book(b.unbound - {o.id}, b.explicit + {o.id}, b.conflicted)
    else if o.id in b.explicit || o.id in b.conflicted then b.(unbound := b.unbound - {o.id})
    else if o.id in b.unbound && b.unbound[o.id] != CandidateOf(o) then
      Book(b.unbound - {o.id}, b.explicit, b.conflicted + {o.id})
    else b.(unbound := b.unbound[o.id := CandidateOf(o)])
  }

  function TrackFrom(b: Book, obs: seq<Observation>): Book {
    if obs == [] then b else Note(TrackFrom(b, obs[..|obs| - 1]), obs[|obs| - 1])
  }

  function Track(obs: seq<Observation>): Book { TrackFrom(BLANK_BOOK, obs) }

  lemma {:induction false} TrackAppend(b: Book, x: seq<Observation>, y: seq<Observation>)
    ensures TrackFrom(b, x + y) == TrackFrom(TrackFrom(b, x), y)
    decreases |y|
  {
    if y == [] {
      assert x + y == x;
    } else {
      TrackAppend(b, x, y[..|y| - 1]);
      assert (x + y)[..|x + y| - 1] == x + y[..|y| - 1];
    }
  }

  // ---- One-shot meaning ---------------------------------------------------------------------

  predicate Seen(obs: seq<Observation>, id: nat) { exists o :: o in obs && o.id == id }

  /** Every observation of the run lacks PR references and names the same head and branch. */
  predicate StableOrphan(obs: seq<Observation>, id: nat, c: Candidate) {
    Seen(obs, id) && forall o :: o in obs && o.id == id ==> o.prs == [] && CandidateOf(o) == c
  }

  predicate ReferencedOnce(obs: seq<Observation>, id: nat) { exists o :: o in obs && o.id == id && o.prs != [] }

  predicate Disputed(obs: seq<Observation>, id: nat) {
    exists o, p :: o in obs && p in obs && o.id == id && p.id == id && CandidateOf(o) != CandidateOf(p)
  }

  /** What the book holds about one run. */
  predicate Faithful(b: Book, obs: seq<Observation>, id: nat) {
    && (id in b.explicit <==> ReferencedOnce(obs, id))
    && (id in b.unbound ==> StableOrphan(obs, id, b.unbound[id]))
    && (id in b.conflicted ==> Disputed(obs, id))
    && (Seen(obs, id) && id !in b.explicit && id !in b.conflicted ==> id in b.unbound)
  }

  lemma NoteFaithful(b: Book, obs: seq<Observation>, o: Observation, id: nat)
    requires Faithful(b, obs, id)
    ensures Faithful(Note(b, o), obs + [o], id)
  {
    var all := obs + [o];
    assert forall p :: p in all <==> p in obs || p == o;
    if id != o.id {
      assert Seen(all, id) <==> Seen(obs, id);
      assert ReferencedOnce(all, id) <==> ReferencedOnce(obs, id);
      if Disputed(obs, id) {
        var p, q :| p in obs && q in obs && p.id == id && q.id == id && CandidateOf(p) != CandidateOf(q);
        assert p in all && q in all;
      }
    } else {
      assert o in all && Seen(all, id);
      if ReferencedOnce(obs, id) {
        var p :| p in obs && p.id == id && p.prs != [];
        assert p in all;
      }
      if id in b.conflicted {
        var p, q :| p in obs && q in obs && p.id == id && q.id == id && CandidateOf(p) != CandidateOf(q);
        assert p in all && q in all;
      } else if id in b.unbound && b.unbound[id] != CandidateOf(o) {
        var p :| p in obs && p.id == id;
        assert p in all && CandidateOf(p) != CandidateOf(o);
      }
    }
  }

  lemma {:induction false} TrackFaithful(obs: seq<Observation>, id: nat)
    ensures Faithful(Track(obs), obs, id)
  {
    if obs != [] {
      var n := |obs| - 1;
      assert obs == obs[..n] + [obs[n]];
      TrackFaithful(obs[..n], id);
      NoteFaithful(Track(obs[..n]), obs[..n], obs[n], id);
    }
  }

  /** The incremental bookkeeping is the one-shot definition. */
  lemma TrackIsOneShot(obs: seq<Observation>, id: nat, c: Candidate)
    ensures (id in Track(obs).unbound && Track(obs).unbound[id] == c) <==> StableOrphan(obs, id, c)
    ensures id in Track(obs).explicit <==> ReferencedOnce(obs, id)
  {
    TrackFaithful(obs, id);
    if StableOrphan(obs, id, c) && id in Track(obs).unbound {
      var o :| o in obs && o.id == id;
      assert CandidateOf(o) == c;
    }
  }

  /** Neither the order nor the repetition of observations matters. */
  lemma OrderDoesNotMatter(a: seq<Observation>, b: seq<Observation>)
    requires forall o :: o in a <==> o in b
    ensures Track(a).unbound == Track(b).unbound && Track(a).explicit == Track(b).explicit
  {
    var ua, ub := Track(a).unbound, Track(b).unbound;
    forall id: nat, c ensures StableOrphan(a, id, c) <==> StableOrphan(b, id, c) {}
    forall id | id in ua ensures id in ub && ub[id] == ua[id] {
      TrackIsOneShot(a, id, ua[id]);
      TrackIsOneShot(b, id, ua[id]);
    }
    forall id | id in ub ensures id in ua {
      TrackIsOneShot(a, id, ub[id]);
      TrackIsOneShot(b, id, ub[id]);
    }
    forall id: nat ensures id in Track(a).explicit <==> id in Track(b).explicit {
      TrackIsOneShot(a, id, Candidate("", None));
      TrackIsOneShot(b, id, Candidate("", None));
      assert ReferencedOnce(a, id) <==> ReferencedOnce(b, id);
    }
  }

  lemma PermutationInvariant(a: seq<Observation>, b: seq<Observation>)
    requires multiset(a) == multiset(b)
    ensures Track(a).unbound == Track(b).unbound && Track(a).explicit == Track(b).explicit
  {
    forall o ensures o in a <==> o in b { assert o in multiset(a) <==> o in a; }
    OrderDoesNotMatter(a, b);
  }

  /** A run that anything references explicitly is never an orphan candidate. */
  lemma ExplicitIsNotUnbound(obs: seq<Observation>, o: Observation)
    requires o in obs && o.prs != []
    ensures o.id !in Track(obs).unbound
  {
    TrackFaithful(obs, o.id);
  }

  // ---- Stable singletons ------------------------------------------------------------------------

  /** Observation `i` is the first of its run, names one PR, and no other observation disagrees. */
  predicate StableAt(obs: seq<Observation>, i: nat)
    requires i < |obs|
  {
    && |obs[i].prs| == 1
    && (forall j :: 0 <= j < i ==> obs[j].id != obs[i].id)
    && (forall j :: 0 <= j < |obs| && obs[j].id == obs[i].id ==> obs[j].head == obs[i].head && obs[j].prs == obs[i].prs)
  }

  function StableFrom(obs: seq<Observation>, i: nat): (r: seq<Observation>)
    requires i <= |obs|
    ensures forall o :: o in r <==> exists k :: i <= k < |obs| && obs[k] == o && StableAt(obs, k)
    decreases |obs| - i
  {
    if i == |obs| then []
    else if StableAt(obs, i) then [obs[i]] + StableFrom(obs, i + 1)
    else StableFrom(obs, i + 1)
  }

  function StableSingletons(obs: seq<Observation>): seq<Observation> { StableFrom(obs, 0) }

  /** A stable run has one record, hence one PR. */
  lemma OneStableRecord(obs: seq<Observation>, o: Observation, p: Observation)
    requires o in StableSingletons(obs) && p in StableSingletons(obs) && o.id == p.id
    ensures o == p && |o.prs| == 1 && o in obs
  {
    var i: nat :| i < |obs| && obs[i] == o && StableAt(obs, i);
    var j: nat :| j < |obs| && obs[j] == p && StableAt(obs, j);
  }

  /** Which of these runs an effect for one PR may name. */
  function SelectSuperseded(runs: seq<Observation>, pr: nat, live: Sha, name: string, current: nat, same: bool)
    : set<nat>
  {
    set o | o in runs && o.id != current && o.name == name && o.prs == [pr] && (same || o.head != live) :: o.id
  }

  /** A run of the PR under this name, other than the current one, that the PR's live state does not protect. */
  predicate Superseded(o: Observation, pr: nat, live: Sha, name: string, current: nat, capable: bool) {
    o.prs == [pr] && o.name == name && o.id != current && !(capable && o.head == live)
  }

  lemma SelectsExactly(
    runs: seq<Observation>, pr: nat, live: Sha, name: string, current: nat, capable: bool, id: nat)
    ensures id in SelectSuperseded(runs, pr, live, name, current, !capable) <==>
            exists o :: o in runs && o.id == id && Superseded(o, pr, live, name, current, capable)
  {
  }

  /** Every observation of the run names the one PR and the same head. */
  predicate Steady(obs: seq<Observation>, o: Observation) {
    o in obs && |o.prs| == 1 && forall p :: p in obs && p.id == o.id ==> p.head == o.head && p.prs == o.prs
  }

  lemma FirstOf(obs: seq<Observation>, o: Observation) returns (i: nat)
    requires o in obs
    ensures i < |obs| && obs[i].id == o.id && forall j :: 0 <= j < i ==> obs[j].id != o.id
  {
    i := 0;
    while obs[i].id != o.id
      invariant i < |obs| && (forall j :: 0 <= j < i ==> obs[j].id != o.id) && exists k :: i <= k < |obs| && obs[k] == o
      decreases |obs| - i
    {
      i := i + 1;
    }
  }

  /** The stable singletons are one record of every run that all observations agree on. */
  lemma StableExactly(obs: seq<Observation>, id: nat, head: Sha, pr: nat)
    ensures (exists o :: o in StableSingletons(obs) && o.id == id && o.head == head && o.prs == [pr]) <==>
            exists o :: Steady(obs, o) && o.id == id && o.head == head && o.prs == [pr]
  {
    forall o | o in StableSingletons(obs) ensures Steady(obs, o) {
      var k: nat :| k < |obs| && obs[k] == o && StableAt(obs, k);
    }
    if o: Observation :| Steady(obs, o) && o.id == id && o.head == head && o.prs == [pr] {
      var i := FirstOf(obs, o);
      assert obs[i] in obs && StableAt(obs, i);
      assert obs[i] in StableSingletons(obs);
    }
  }
}
