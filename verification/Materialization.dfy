/** The tickets that an execution opens, written as the runtime writes them, are those that recovery finds. */
module Materialization {
  import opened Common
  import opened BookRecovery

  // ---- Where a marker can stand in a text ---------------------------------------------------------------

  predicate EqualsOnlyLast(s: string) {
    |s| >= 5 && s[|s| - 1] == '=' && forall k :: 0 <= k < |s| - 1 ==> s[k] != '='
  }

  /** Both texts end in `=` and nowhere else hold one, and the fifth characters from the end differ. */
  predicate Apart(s: string, marker: string) {
    EqualsOnlyLast(s) && EqualsOnlyLast(marker) && s[|s| - 5] != marker[|marker| - 5]
  }

  predicate Starts(text: string, part: string, i: nat) {
    i + |part| <= |text| && forall k :: i <= k < i + |part| ==> text[k] == part[k - i]
  }

  lemma PartStarts(text: string, part: string, i: nat)
    requires i + |part| <= |text|
    ensures PartAt(text, part, i) <==> Starts(text, part, i)
  {
    var here := text[i..i + |part|];
    assert forall k :: i <= k < i + |part| ==> text[k] == here[k - i];
    if Starts(text, part, i) {
      forall k | 0 <= k < |part| ensures here[k] == part[k] { assert text[i + k] == here[k]; }
    }
  }

  /** A head, a free piece, a label, a piece without `=`, and then a marker with its id. */
  function Joined(head: string, free: string, mid: string, rest: string, marker: string, id: string): string {
    head + free + mid + rest + marker + id
  }

  lemma JoinedPieces(head: string, free: string, mid: string, rest: string, marker: string, id: string)
    ensures var text := Joined(head, free, mid, rest, marker, id);
            && Starts(text, head, 0) && Starts(text, free, |head|) && Starts(text, mid, |head| + |free|)
            && Starts(text, rest, |head| + |free| + |mid|)
            && Starts(text, marker, |head| + |free| + |mid| + |rest|)
            && Starts(text, marker + id, |head| + |free| + |mid| + |rest|)
  {
  }

  lemma SignPlaces(text: string, head: string, free: string, mid: string, rest: string, marker: string, e: nat)
    requires EqualsOnlyLast(head) && EqualsOnlyLast(mid) && EqualsOnlyLast(marker) && '=' !in rest
    requires Starts(text, head, 0) && Starts(text, free, |head|) && Starts(text, mid, |head| + |free|)
    requires Starts(text, rest, |head| + |free| + |mid|)
    requires Starts(text, marker, |head| + |free| + |mid| + |rest|)
    requires e < |head| + |free| + |mid| + |rest| + |marker| - 1 && text[e] == '='
    ensures e == |head| - 1 || |head| <= e < |head| + |free| || e == |head| + |free| + |mid| - 1
  {
  }

  /** A second occurrence of the marker lies inside the free piece. */
  lemma MarkerInside(text: string, head: string, free: string, mid: string, rest: string, marker: string, i: nat)
    requires Apart(head, marker) && Apart(mid, marker) && '=' !in rest
    requires Starts(text, head, 0) && Starts(text, free, |head|) && Starts(text, mid, |head| + |free|)
    requires Starts(text, rest, |head| + |free| + |mid|)
    requires Starts(text, marker, |head| + |free| + |mid| + |rest|)
    requires i < |head| + |free| + |mid| + |rest| && Starts(text, marker, i)
    ensures |head| <= i && i + |marker| <= |head| + |free|
  {
    var n := |marker| - 1;
    assert text[i + n] == marker[n];
    assert text[i + n - 4] == marker[n - 4];
    SignPlaces(text, head, free, mid, rest, marker, i + n);
    assert text[|head| - 1] == '=' && text[|head| - 5] == head[|head| - 5];
    assert text[|head| + |free| + |mid| - 5] == mid[|mid| - 5];
  }

  // ---- The reason of a ticket ------------------------------------------------------------------------------

  const REASON_HEAD := "paper execution adoption; decision_id="
  const REASON_RUN := "; run_id="
  const REASON_END := "; "

  function ReasonFor(decision: string, run: string, a: Attempt): string {
    Joined(REASON_HEAD, decision, REASON_RUN, run + REASON_END, TICKET_MARKER, a.id)
  }

  /** Digest text, as run and attempt ids are, holds no punctuation of the reason. */
  predicate DigestText(s: string) { '=' !in s && ';' !in s }

  lemma LabelsApart()
    ensures Apart(REASON_HEAD, TICKET_MARKER) && Apart(REASON_RUN, TICKET_MARKER) && '=' !in REASON_END
    ensures REASON_RUN[0] == ';' && |REASON_RUN| > 0
  {
  }

  /** A ticket's reason carries its own attempt's marker, and another's only if the decision id does. */
  lemma MarkedExactly(decision: string, run: string, a: Attempt, b: Attempt)
    requires DigestText(run) && DigestText(b.id) && |a.id| == |b.id|
    ensures Contains(ReasonFor(decision, run, a), MarkerOf(b)) <==> a.id == b.id || Contains(decision, MarkerOf(b))
  {
    LabelsApart();
    assert '=' !in run + REASON_END;
    MarkedGenerally(REASON_HEAD, decision, REASON_RUN, run + REASON_END, TICKET_MARKER, a.id, b.id);
  }

  lemma MarkedGenerally(
    head: string, free: string, mid: string, rest: string, marker: string, own: string, other: string)
    requires Apart(head, marker) && Apart(mid, marker) && '=' !in rest && mid[0] == ';'
    requires ';' !in other && |own| == |other|
    ensures Contains(Joined(head, free, mid, rest, marker, own), marker + other) <==>
            own == other || Contains(free, marker + other)
  {
    var text, part := Joined(head, free, mid, rest, marker, own), marker + other;
    JoinedPieces(head, free, mid, rest, marker, own);
    assert |text| == |head| + |free| + |mid| + |rest| + |marker| + |own|;
    if own == other {
      PartStarts(text, part, |head| + |free| + |mid| + |rest|);
    }
    if Contains(free, part) {
      var i :| 0 <= i <= |free| - |part| && PartAt(free, part, i);
      FreeToText(text, free, part, |head|, i);
    }
    if Contains(text, part) {
      var i :| 0 <= i <= |text| - |part| && PartAt(text, part, i);
      PartStarts(text, part, i);
      TextToOwnOrFree(text, head, free, mid, rest, marker, own, other, i);
    }
  }

  lemma TextToOwnOrFree(
    text: string, head: string, free: string, mid: string, rest: string, marker: string, own: string, other: string,
    i: nat)
    requires Apart(head, marker) && Apart(mid, marker) && '=' !in rest && mid[0] == ';'
    requires ';' !in other && |own| == |other|
    requires Starts(text, head, 0) && Starts(text, free, |head|) && Starts(text, mid, |head| + |free|)
    requires Starts(text, rest, |head| + |free| + |mid|)
    requires Starts(text, marker, |head| + |free| + |mid| + |rest|)
    requires Starts(text, marker + own, |head| + |free| + |mid| + |rest|)
    requires Starts(text, marker + other, i) && i <= |head| + |free| + |mid| + |rest|
    ensures own == other || Contains(free, marker + other)
  {
    if i < |head| + |free| + |mid| + |rest| {
      StartsFront(text, marker, other, i);
      MarkerInside(text, head, free, mid, rest, marker, i);
      TextToFree(text, free, mid, marker, other, |head|, i);
    } else {
      SameTail(text, marker, own, other, i);
    }
  }

  lemma FreeToText(text: string, free: string, part: string, h: nat, i: nat)
    requires Starts(text, free, h) && i + |part| <= |free| && PartAt(free, part, i)
    ensures Contains(text, part)
  {
    PartStarts(free, part, i);
    forall k | h + i <= k < h + i + |part| ensures text[k] == part[k - h - i] { assert text[k] == free[k - h]; }
    PartStarts(text, part, h + i);
  }

  lemma StartsFront(text: string, a: string, b: string, i: nat)
    requires Starts(text, a + b, i)
    ensures Starts(text, a, i) && Starts(text, b, i + |a|)
  {
    forall k | i <= k < i + |a| ensures text[k] == a[k - i] { assert text[k] == (a + b)[k - i]; }
    forall k | i + |a| <= k < i + |a| + |b| ensures text[k] == b[k - i - |a|] { assert text[k] == (a + b)[k - i]; }
  }

  /** An id without `;` does not run over the `;` that ends the free piece. */
  lemma TextToFree(text: string, free: string, mid: string, marker: string, other: string, h: nat, i: nat)
    requires Starts(text, free, h) && Starts(text, mid, h + |free|) && mid != [] && mid[0] == ';'
    requires ';' !in other && Starts(text, marker + other, i) && h <= i && i + |marker| <= h + |free|
    ensures Contains(free, marker + other)
  {
    var part := marker + other;
    StartsFront(text, marker, other, i);
    assert text[h + |free|] == ';';
    assert i + |part| <= h + |free|;
    forall k | i - h <= k < i - h + |part| ensures free[k] == part[k - (i - h)] { assert text[h + k] == free[k]; }
    PartStarts(free, part, i - h);
  }

  lemma SameTail(text: string, marker: string, own: string, other: string, last: nat)
    requires Starts(text, marker + own, last) && Starts(text, marker + other, last) && |own| == |other|
    ensures own == other
  {
    StartsFront(text, marker, own, last);
    StartsFront(text, marker, other, last);
    var at := last + |marker|;
    forall k | 0 <= k < |own| ensures own[k] == other[k] { assert text[at + k] == own[k] && text[at + k] == other[k]; }
  }

  /** A decision id that quotes the marker of one attempt puts it on the ticket of any other attempt of the run. */
  lemma QuotingDecision(run: string, a: Attempt, b: Attempt) returns (decision: string)
    requires DigestText(run) && DigestText(b.id) && |a.id| == |b.id|
    ensures Contains(decision, MarkerOf(b)) && Contains(ReasonFor(decision, run, a), MarkerOf(b))
  {
    decision := MarkerOf(b);
    assert PartAt(decision, MarkerOf(b), 0);
    MarkedExactly(decision, run, a, b);
  }

  lemma OnlyOneFiled(book: Book, before: Book, b: Attempt, id: Id, t: TicketRecord)
    requires OnlyMatch(book, before, b, id) && Filed(book, before, t) && Marked(t, b)
    ensures t.id == id
  {
    assert t.id in Added(book, before);
  }

  lemma PairedTicket(book: Book, before: Book, p: Prepared, attempts: seq<Attempt>, b: Attempt) returns (id: Id)
    requires ExactDelta(book, before, p, attempts) && b in AcceptedOf(attempts)
    ensures OnlyMatch(book, before, b, id)
  {
    var ids := ExactIds(book, before, p, attempts);
    var k :| 0 <= k < |AcceptedOf(attempts)| && AcceptedOf(attempts)[k] == b;
    id := ids[k];
  }

  /** Two new tickets with the marker of one accepted attempt: recovery refuses the book. */
  lemma TwoMarkedRefused(
    book: Book, before: Book, p: Prepared, attempts: seq<Attempt>, b: Attempt, t: TicketRecord, u: TicketRecord)
    requires b in AcceptedOf(attempts) && Filed(book, before, t) && Filed(book, before, u) && t.id != u.id
    requires Marked(t, b) && Marked(u, b)
    ensures !Recoverable(book, before, p, true, Some(attempts))
  {
    assert !SameBook(book, before);
    if ExactDelta(book, before, p, attempts) {
      var id := PairedTicket(book, before, p, attempts, b);
      OnlyOneFiled(book, before, b, id, t);
      OnlyOneFiled(book, before, b, id, u);
    }
  }

  /** So a run of such a decision id, once it has opened two tickets, is never accepted by recovery. */
  lemma QuotedMarkerRefused(
    book: Book, before: Book, p: Prepared, decision: string, run: string, attempts: seq<Attempt>,
    a: Attempt, b: Attempt, t: TicketRecord, u: TicketRecord)
    requires DigestText(run) && DigestText(b.id) && |a.id| == |b.id| && Contains(decision, MarkerOf(b))
    requires b in AcceptedOf(attempts) && Filed(book, before, t) && Filed(book, before, u) && t.id != u.id
    requires t.reason == ReasonFor(decision, run, a) && u.reason == ReasonFor(decision, run, b)
    ensures !Recoverable(book, before, p, true, Some(attempts))
  {
    MarkedExactly(decision, run, a, b);
    MarkedExactly(decision, run, b, b);
    TwoMarkedRefused(book, before, p, attempts, b, t, u);
  }

  // ---- One execution -----------------------------------------------------------------------------------------

  predicate SameIdentity(a: Attempt, action: Action) {
    && a.side == action.side && a.action == action.id && a.bookmaker == action.bookmaker
    && a.account == action.account && a.event == action.event && a.market == action.market
    && a.selection == action.selection && a.quote == action.quote
    && a.decisionOdds == action.requestedOdds && a.requestedStake == action.requestedStake
  }

  function TicketFor(id: Id, decision: string, run: string, a: Attempt, b: Binding): TicketRecord
    requires a.executionOdds.Some? && a.executionStake.Some?
  {
    TicketRecord(
      id, a.executionStake.value, a.observedAt,
      [Leg(a.event, a.market, a.selection, a.executionOdds.value, b.sport, "back")],
      [a.bookmaker], [(a.bookmaker, a.account)], b.bankroll, b.currency, ReasonFor(decision, run, a), false)
  }

  function MatchesIn(book: Book, a: Attempt): set<Id> { set id | id in book.tickets && Marked(book.tickets[id], a) }

  /** Finds the ticket of an attempt, or opens it under a new id; `None` stands for every refusal. */
  function MaterializeAttempt(book: Book, p: Prepared, decision: string, run: string, a: Attempt, newId: Id)
    : Option<(Book, Id)>
  {
    var action, binding := ActionOf(p, a.action), LastBinding(p.bindings, a.action);
    if action.None? || binding.None? || action.value.side != "BACK" || !SameIdentity(a, action.value) then None
    else if a.executionOdds.None? || a.executionStake.None? then None
    else
      var matches := MatchesIn(book, a);
      if |matches| > 1 then None
      else if |matches| == 1 then
        var id := TheOnly(matches);
        assert id in matches;
        if TicketMatches(book.tickets[id], a, action.value, binding.value) then Some((book, id)) else None
      else
        match Open(book, TicketFor(newId, decision, run, a, binding.value))
        case None => None
        case Some(next) => Some((next, newId))
  }

  /** All accepted attempts in order; the k-th new ticket would be opened under the k-th generated id. */
  function MaterializeAll(
    book: Book, p: Prepared, decision: string, run: string, accepted: seq<Attempt>, uuids: nat -> Id)
    : Option<(Book, seq<Id>)>
  {
    if accepted == [] then Some((book, []))
    else
      var n := |accepted| - 1;
      match MaterializeAll(book, p, decision, run, accepted[..n], uuids)
      case None => None
      case Some((mid, ids)) =>
        match MaterializeAttempt(mid, p, decision, run, accepted[n], uuids(n))
        case None => None
        case Some((next, id)) => Some((next, ids + [id]))
  }

  /** The loop of an execution over its durable attempts. */
  method MaterializeExposure(
    book: Book, p: Prepared, decision: string, run: string, attempts: seq<Attempt>, uuids: nat -> Id)
    returns (r: Option<(Book, seq<Id>)>)
    ensures r == MaterializeAll(book, p, decision, run, AcceptedOf(attempts), uuids)
  {
    var current, ids := book, [];
    ghost var accepted: seq<Attempt> := [];
    for i := 0 to |attempts|
      invariant accepted == AcceptedOf(attempts[..i]) && |ids| == |accepted|
      invariant MaterializeAll(book, p, decision, run, accepted, uuids) == Some((current, ids))
    {
      assert attempts[..i + 1][..i] == attempts[..i];
      if !AcceptedEquivalent(attempts[i]) { continue; }
      var step := MaterializeAttempt(current, p, decision, run, attempts[i], uuids(|ids|));
      MaterializeSnoc(book, p, decision, run, accepted, attempts[i], uuids);
      accepted := accepted + [attempts[i]];
      if step.None? {
        AcceptedPrefix(attempts, i + 1);
        RefusalStays(book, p, decision, run, accepted, AcceptedOf(attempts), uuids);
        return None;
      }
      current, ids := step.value.0, ids + [step.value.1];
    }
    assert attempts[..|attempts|] == attempts;
    return Some((current, ids));
  }

  lemma MaterializeSnoc(
    book: Book, p: Prepared, decision: string, run: string, accepted: seq<Attempt>, a: Attempt, uuids: nat -> Id)
    ensures MaterializeAll(book, p, decision, run, accepted + [a], uuids) ==
            match MaterializeAll(book, p, decision, run, accepted, uuids)
            case None => None
            case Some((mid, ids)) =>
              match MaterializeAttempt(mid, p, decision, run, a, uuids(|accepted|))
              case None => None
              case Some((next, id)) => Some((next, ids + [id]))
  {
    assert (accepted + [a])[..|accepted|] == accepted;
  }

  lemma {:induction false} AcceptedPrefix(attempts: seq<Attempt>, i: nat)
    requires i <= |attempts|
    ensures AcceptedOf(attempts[..i]) <= AcceptedOf(attempts)
    decreases |attempts|
  {
    if i < |attempts| {
      assert attempts[..|attempts| - 1][..i] == attempts[..i];
      AcceptedPrefix(attempts[..|attempts| - 1], i);
    } else {
      assert attempts[..i] == attempts;
    }
  }

  /** Once an attempt is refused the whole execution is. */
  lemma {:induction false} RefusalStays(
    book: Book, p: Prepared, decision: string, run: string, front: seq<Attempt>, accepted: seq<Attempt>,
    uuids: nat -> Id)
    requires front <= accepted && MaterializeAll(book, p, decision, run, front, uuids).None?
    ensures MaterializeAll(book, p, decision, run, accepted, uuids).None?
    decreases |accepted|
  {
    if |front| < |accepted| {
      SplitLast(accepted);
      RefusalStays(book, p, decision, run, front, accepted[..|accepted| - 1], uuids);
    } else {
      assert front == accepted;
    }
  }

  /** A new run: attempt ids are distinct digests of one length that neither the decision id nor an old ticket names. */
  predicate NewRun(before: Book, decision: string, run: string, accepted: seq<Attempt>) {
    && DigestText(run)
    && (forall a :: a in accepted ==> DigestText(a.id) && !Contains(decision, MarkerOf(a)))
    && (forall i, j :: 0 <= i < j < |accepted| ==> accepted[i].id != accepted[j].id)
    && (forall a, b :: a in accepted && b in accepted ==> |a.id| == |b.id|)
    && forall a :: a in accepted ==> MatchesIn(before, a) == {}
  }

  /** The ticket that an execution opens for an attempt. */
  predicate BuiltFor(p: Prepared, decision: string, run: string, t: TicketRecord, a: Attempt) {
    Truthful(p, t, a) && t.reason == ReasonFor(decision, run, a) && !t.settled
  }

  lemma OpenedUnmarked(
    mid: Book, before: Book, decision: string, run: string, tickets: seq<TicketRecord>, accepted: seq<Attempt>)
    requires accepted != [] && NewRun(before, decision, run, accepted) && |tickets| == |accepted| - 1
    requires Opened(mid, before, tickets)
    requires forall i :: 0 <= i < |tickets| ==> tickets[i].reason == ReasonFor(decision, run, accepted[i])
    ensures MatchesIn(mid, accepted[|accepted| - 1]) == {}
  {
    var n := |accepted| - 1;
    var a := accepted[n];
    forall id | id in mid.tickets ensures !Marked(mid.tickets[id], a) {
      if id in before.tickets {
        assert id !in MatchesIn(before, a);
      } else {
        assert id in Added(mid, before) && id in Members(IdsOf(tickets));
        var j :| 0 <= j < |tickets| && IdsOf(tickets)[j] == id;
        assert Filed(mid, before, tickets[j]) && accepted[j] in accepted && accepted[j].id != a.id;
        MarkedExactly(decision, run, accepted[j], a);
      }
    }
  }

  lemma OpensNew(mid: Book, p: Prepared, decision: string, run: string, a: Attempt, newId: Id) returns (t: TicketRecord)
    requires MatchesIn(mid, a) == {} && MaterializeAttempt(mid, p, decision, run, a, newId).Some?
    ensures BuiltFor(p, decision, run, t, a) && t.id == newId && Open(mid, t).Some?
    ensures MaterializeAttempt(mid, p, decision, run, a, newId) == Some((Open(mid, t).value, newId))
  {
    t := TicketFor(newId, decision, run, a, LastBinding(p.bindings, a.action).value);
  }

  lemma OpenAllSnoc(before: Book, tickets: seq<TicketRecord>, t: TicketRecord)
    requires OpenAll(before, tickets).Some?
    ensures OpenAll(before, tickets + [t]) == Open(OpenAll(before, tickets).value, t)
  {
    assert (tickets + [t])[..|tickets|] == tickets;
  }

  lemma NewRunPrefix(before: Book, decision: string, run: string, accepted: seq<Attempt>)
    requires accepted != [] && NewRun(before, decision, run, accepted)
    ensures NewRun(before, decision, run, accepted[..|accepted| - 1])
  {
    assert forall a :: a in accepted[..|accepted| - 1] ==> a in accepted;
  }

  /** On a new run, materializing the attempts is opening one built ticket for each. */
  lemma {:induction false} NewRunOpens(
    before: Book, p: Prepared, decision: string, run: string, accepted: seq<Attempt>, uuids: nat -> Id)
    returns (tickets: seq<TicketRecord>)
    requires NewRun(before, decision, run, accepted)
    requires MaterializeAll(before, p, decision, run, accepted, uuids).Some?
    ensures |tickets| == |accepted|
    ensures forall i :: 0 <= i < |tickets| ==> BuiltFor(p, decision, run, tickets[i], accepted[i])
    ensures OpenAll(before, tickets) == Some(MaterializeAll(before, p, decision, run, accepted, uuids).value.0)
    ensures IdsOf(tickets) == MaterializeAll(before, p, decision, run, accepted, uuids).value.1
  {
    tickets := [];
    if accepted != [] {
      var n := |accepted| - 1;
      SplitLast(accepted);
      NewRunPrefix(before, decision, run, accepted);
      MaterializeSnoc(before, p, decision, run, accepted[..n], accepted[n], uuids);
      var earlier := NewRunOpens(before, p, decision, run, accepted[..n], uuids);
      var mid := MaterializeAll(before, p, decision, run, accepted[..n], uuids).value.0;
      OpenAllOpens(before, earlier);
      OpenedUnmarked(mid, before, decision, run, earlier, accepted);
      var t := OpensNew(mid, p, decision, run, accepted[n], uuids(n));
      OpenAllSnoc(before, earlier, t);
      IdsSnoc(earlier, t);
      tickets := earlier + [t];
    }
  }

  /**
   * What an execution leaves in the book, recovery accepts: the returned ids pair the accepted attempts
   * with the added tickets. Marker uniqueness and ticket truth follow from how the tickets are written.
   */
  lemma ExecutedIsRecoverable(
    before: Book, p: Prepared, decision: string, run: string, attempts: seq<Attempt>, uuids: nat -> Id)
    requires NewRun(before, decision, run, AcceptedOf(attempts))
    requires MaterializeAll(before, p, decision, run, AcceptedOf(attempts), uuids).Some?
    ensures var (book, ids) := MaterializeAll(before, p, decision, run, AcceptedOf(attempts), uuids).value;
            Recoverable(book, before, p, true, Some(attempts)) && Pairing(book, before, p, AcceptedOf(attempts), ids)
  {
    var accepted := AcceptedOf(attempts);
    var tickets := NewRunOpens(before, p, decision, run, accepted, uuids);
    OpenAllOpens(before, tickets);
    forall i, j | 0 <= i < |tickets| && 0 <= j < |accepted| ensures Marked(tickets[i], accepted[j]) <==> i == j {
      assert BuiltFor(p, decision, run, tickets[i], accepted[i]) && accepted[i] in accepted && accepted[j] in accepted;
      MarkedExactly(decision, run, accepted[i], accepted[j]);
    }
    forall i | 0 <= i < |tickets| ensures Truthful(p, tickets[i], accepted[i]) {
      assert BuiltFor(p, decision, run, tickets[i], accepted[i]);
    }
    MaterializedIsRecoverable(before, p, attempts, tickets);
    OpenedPairs(OpenAll(before, tickets).value, before, p, accepted, tickets);
  }

  lemma FindsOld(book: Book, p: Prepared, decision: string, run: string, a: Attempt, newId: Id, id: Id)
    requires MatchesIn(book, a) == {id} && id in book.tickets && Truthful(p, book.tickets[id], a)
    ensures MaterializeAttempt(book, p, decision, run, a, newId) == Some((book, id))
  {
  }

  lemma OnlyOldMatch(book: Book, before: Book, a: Attempt, id: Id)
    requires PreIntact(book, before) && MatchesIn(before, a) == {} && OnlyMatch(book, before, a, id)
    ensures MatchesIn(book, a) == {id}
  {
    forall other | other in MatchesIn(book, a) ensures other == id {
      if other in before.tickets { assert other !in MatchesIn(before, a); }
    }
  }

  /** Attempts that each have their one truthful ticket are all found, and nothing is opened. */
  lemma {:induction false} ResumeOpensNothing(
    book: Book, before: Book, p: Prepared, decision: string, run: string, accepted: seq<Attempt>, ids: seq<Id>,
    uuids: nat -> Id)
    requires |ids| == |accepted| && PreIntact(book, before)
    requires forall i :: 0 <= i < |ids| ==>
               OnlyMatch(book, before, accepted[i], ids[i]) && Truthful(p, book.tickets[ids[i]], accepted[i])
    requires forall a :: a in accepted ==> MatchesIn(before, a) == {}
    ensures MaterializeAll(book, p, decision, run, accepted, uuids) == Some((book, ids))
  {
    if accepted != [] {
      var n := |accepted| - 1;
      SplitLast(accepted);
      SplitLast(ids);
      ResumeOpensNothing(book, before, p, decision, run, accepted[..n], ids[..n], uuids);
      MaterializeSnoc(book, p, decision, run, accepted[..n], accepted[n], uuids);
      OnlyOldMatch(book, before, accepted[n], ids[n]);
      FindsOld(book, p, decision, run, accepted[n], uuids(n), ids[n]);
    }
  }

  /** Whatever changed book recovery accepts, resuming the run opens no ticket and pays no stake again. */
  lemma RecoveredRunResumes(
    book: Book, before: Book, p: Prepared, decision: string, run: string, attempts: seq<Attempt>, uuids: nat -> Id)
    returns (ids: seq<Id>)
    requires Recoverable(book, before, p, true, Some(attempts)) && !SameBook(book, before)
    requires forall a :: a in AcceptedOf(attempts) ==> MatchesIn(before, a) == {}
    ensures Pairing(book, before, p, AcceptedOf(attempts), ids)
    ensures MaterializeAll(book, p, decision, run, AcceptedOf(attempts), uuids) == Some((book, ids))
  {
    ids := AcceptedBookIsSound(book, before, p, true, Some(attempts));
    ResumeOpensNothing(book, before, p, decision, run, AcceptedOf(attempts), ids, uuids);
  }

  // ---- When an execution succeeds ----------------------------------------------------------------------

  /** The attempt has a bound BACK action that asked for it, and its execution truth. */
  predicate Bookable(p: Prepared, a: Attempt) {
    var action, binding := ActionOf(p, a.action), LastBinding(p.bindings, a.action);
    && action.Some? && binding.Some? && action.value.side == "BACK" && SameIdentity(a, action.value)
    && a.executionOdds.Some? && a.executionStake.Some?
  }

  /** The first `n` generated ids are new to the book and to each other. */
  predicate NewIds(before: Book, uuids: nat -> Id, n: nat) {
    && (forall i: nat :: i < n ==> uuids(i) !in before.tickets)
    && forall i: nat, j: nat :: i < j < n ==> uuids(i) != uuids(j)
  }

  /** What opening the tickets of a new run takes: every attempt bookable, every stake covered, every id new. */
  predicate Affordable(before: Book, p: Prepared, accepted: seq<Attempt>, uuids: nat -> Id) {
    && (forall i :: 0 <= i < |accepted| ==> Bookable(p, accepted[i]))
    && DebitAll(before.balance, accepted).Some? && NewIds(before, uuids, |accepted|)
  }

  lemma AffordableSnoc(before: Book, p: Prepared, accepted: seq<Attempt>, uuids: nat -> Id)
    requires accepted != []
    ensures var n := |accepted| - 1;
            Affordable(before, p, accepted, uuids) <==>
            && Affordable(before, p, accepted[..n], uuids) && Bookable(p, accepted[n])
            && Debit(DebitAll(before.balance, accepted[..n]).value, StakeOf(accepted[n])).Some?
            && uuids(n) !in before.tickets && forall i: nat :: i < n ==> uuids(i) != uuids(n)
  {
    var n := |accepted| - 1;
    if forall i :: 0 <= i < n ==> Bookable(p, accepted[..n][i]) {
      forall i | 0 <= i < n ensures Bookable(p, accepted[i]) { assert accepted[..n][i] == accepted[i]; }
    }
  }

  /** Opening for one attempt that has no ticket yet. */
  lemma OpensExactly(mid: Book, p: Prepared, decision: string, run: string, a: Attempt, newId: Id)
    requires MatchesIn(mid, a) == {}
    ensures MaterializeAttempt(mid, p, decision, run, a, newId).Some? <==>
            Bookable(p, a) && Debit(mid.balance, StakeOf(a)).Some? && newId !in mid.tickets
  {
  }

  /** The state after the tickets of a new run. */
  lemma AfterNewRun(
    before: Book, p: Prepared, decision: string, run: string, accepted: seq<Attempt>, uuids: nat -> Id)
    returns (tickets: seq<TicketRecord>)
    requires NewRun(before, decision, run, accepted)
    requires MaterializeAll(before, p, decision, run, accepted, uuids).Some?
    ensures var (book, ids) := MaterializeAll(before, p, decision, run, accepted, uuids).value;
            && Opened(book, before, tickets) && |tickets| == |accepted| && IdsOf(tickets) == ids
            && (forall i :: 0 <= i < |tickets| ==> BuiltFor(p, decision, run, tickets[i], accepted[i]))
            && DebitAll(before.balance, accepted) == Some(book.balance)
  {
    tickets := NewRunOpens(before, p, decision, run, accepted, uuids);
    OpenAllOpens(before, tickets);
    forall i | 0 <= i < |tickets| ensures tickets[i].stake == StakeOf(accepted[i]) {
      assert BuiltFor(p, decision, run, tickets[i], accepted[i]);
    }
    OpenAllDebits(before, tickets, accepted);
  }

  lemma {:induction false} IdsAreGenerated(
    before: Book, p: Prepared, decision: string, run: string, accepted: seq<Attempt>, uuids: nat -> Id)
    requires NewRun(before, decision, run, accepted)
    requires MaterializeAll(before, p, decision, run, accepted, uuids).Some?
    ensures var ids := MaterializeAll(before, p, decision, run, accepted, uuids).value.1;
            |ids| == |accepted| && forall i: nat :: i < |ids| ==> ids[i] == uuids(i)
  {
    if accepted != [] {
      var n := |accepted| - 1;
      NewRunPrefix(before, decision, run, accepted);
      SplitLast(accepted);
      MaterializeSnoc(before, p, decision, run, accepted[..n], accepted[n], uuids);
      IdsAreGenerated(before, p, decision, run, accepted[..n], uuids);
      NothingMarked(before, p, decision, run, accepted, uuids);
    }
  }

  lemma NothingMarked(
    before: Book, p: Prepared, decision: string, run: string, accepted: seq<Attempt>, uuids: nat -> Id)
    requires accepted != [] && NewRun(before, decision, run, accepted)
    requires MaterializeAll(before, p, decision, run, accepted[..|accepted| - 1], uuids).Some?
    ensures MatchesIn(MaterializeAll(before, p, decision, run, accepted[..|accepted| - 1], uuids).value.0,
                      accepted[|accepted| - 1]) == {}
  {
    var n := |accepted| - 1;
    NewRunPrefix(before, decision, run, accepted);
    var tickets := AfterNewRun(before, p, decision, run, accepted[..n], uuids);
    forall i | 0 <= i < |tickets| ensures tickets[i].reason == ReasonFor(decision, run, accepted[i]) {
      assert BuiltFor(p, decision, run, tickets[i], accepted[..n][i]);
    }
    OpenedUnmarked(MaterializeAll(before, p, decision, run, accepted[..n], uuids).value.0, before, decision, run,
                   tickets, accepted);
  }

  lemma OpenedIds(book: Book, before: Book, tickets: seq<TicketRecord>, id: Id)
    requires Opened(book, before, tickets)
    ensures id in book.tickets <==> id in before.tickets || id in IdsOf(tickets)
  {
    var ids := IdsOf(tickets);
    if id in book.tickets && id !in before.tickets { assert id in Added(book, before) && id in Members(ids); }
    if id in ids {
      var i :| 0 <= i < |ids| && ids[i] == id;
      assert Filed(book, before, tickets[i]);
    }
  }

  /** A new id is new to the book that the earlier tickets were opened in exactly when it is new and differs. */
  lemma FreshIdExactly(
    before: Book, p: Prepared, decision: string, run: string, accepted: seq<Attempt>, uuids: nat -> Id, id: Id)
    requires NewRun(before, decision, run, accepted)
    requires MaterializeAll(before, p, decision, run, accepted, uuids).Some?
    ensures var book := MaterializeAll(before, p, decision, run, accepted, uuids).value.0;
            id !in book.tickets <==>
            id !in before.tickets && forall i: nat :: i < |accepted| ==> uuids(i) != id
  {
    var (book, ids) := MaterializeAll(before, p, decision, run, accepted, uuids).value;
    var tickets := AfterNewRun(before, p, decision, run, accepted, uuids);
    IdsAreGenerated(before, p, decision, run, accepted, uuids);
    OpenedIds(book, before, tickets, id);
    if i: nat :| i < |accepted| && uuids(i) == id { assert ids[i] == id; }
  }

  /**
   * A new run is executed exactly when every accepted attempt is bookable, its stakes are covered in
   * order, and the generated ids are new.
   */
  lemma {:induction false} NewRunExecutesExactly(
    before: Book, p: Prepared, decision: string, run: string, accepted: seq<Attempt>, uuids: nat -> Id)
    requires NewRun(before, decision, run, accepted)
    ensures MaterializeAll(before, p, decision, run, accepted, uuids).Some? <==>
            Affordable(before, p, accepted, uuids)
  {
    if accepted != [] {
      var n := |accepted| - 1;
      NewRunPrefix(before, decision, run, accepted);
      SplitLast(accepted);
      MaterializeSnoc(before, p, decision, run, accepted[..n], accepted[n], uuids);
      AffordableSnoc(before, p, accepted, uuids);
      NewRunExecutesExactly(before, p, decision, run, accepted[..n], uuids);
      if MaterializeAll(before, p, decision, run, accepted[..n], uuids).Some? {
        var mid := MaterializeAll(before, p, decision, run, accepted[..n], uuids).value.0;
        var earlier := AfterNewRun(before, p, decision, run, accepted[..n], uuids);
        NothingMarked(before, p, decision, run, accepted, uuids);
        OpensExactly(mid, p, decision, run, accepted[n], uuids(n));
        FreshIdExactly(before, p, decision, run, accepted[..n], uuids, uuids(n));
      }
    }
  }
}
