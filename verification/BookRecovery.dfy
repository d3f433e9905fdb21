/**
 * Recovery of a paper book after a restart: it must be exactly the pre-action book, or exactly that book
 * plus one ticket for each durable accepted attempt.
 */
module BookRecovery {
  import opened Common

  type Id = string

  const TICKET_MARKER := "paper_execution_attempt_id="

  datatype Leg = Leg(event: Id, market: Id, selection: Id, odds: real, sport: string, exchangeSide: string)

  datatype TicketRecord = TicketRecord(
    id: Id, stake: real, placedAt: string, legs: seq<Leg>, providers: seq<Id>, accounts: seq<(Id, Id)>,
    bankroll: string, currency: string, reason: string, settled: bool)

  datatype Entry = Entry(action: string, ticket: Id, results: seq<string>, payouts: seq<string>)

  datatype BookRecord = BookRecord(
    initial: real, balance: real, tickets: map<Id, TicketRecord>, lifecycle: seq<Entry>,
    settlementTimes: map<Id, Option<string>>)

  /** A paper book files each ticket under its own id. */
  type Book = b: BookRecord | forall id :: id in b.tickets ==> b.tickets[id].id == id
    witness BookRecord(0.0, 0.0, map[], [], map[])

  datatype Outcome = Accepted | Partial | Rejected | Unfilled

  datatype Attempt = Attempt(
    id: Id, action: Id, outcome: Outcome, side: string, bookmaker: Id, account: Id, event: Id, market: Id,
    selection: Id, quote: Id, decisionOdds: real, requestedStake: real, executionOdds: Option<real>,
    executionStake: Option<real>, observedAt: string)

  datatype Action = Action(
    id: Id, side: string, bookmaker: Id, account: Id, event: Id, market: Id, selection: Id, quote: Id,
    requestedOdds: real, requestedStake: real)

  datatype Binding = Binding(action: Id, sport: string, bankroll: string, currency: string)

  datatype Prepared = Prepared(actions: seq<Action>, bindings: seq<Binding>)

  datatype RecoveryError =
    | ShadowDiffers | NoRunEvidence | BankrollChanged | ExposureRemoved | ExposureChanged | NotExact | Unbound
    | NoExecutionTruth | Conflicts | TicketReused | DebitRefused | OutsideAttempts

  // ---- Attempts and tickets -----------------------------------------------------------------------

  predicate PartAt(text: string, part: string, i: nat) { i + |part| <= |text| && text[i..i + |part|] == part }

  predicate Contains(text: string, part: string) { exists i :: 0 <= i <= |text| - |part| && PartAt(text, part, i) }

  function MarkerOf(a: Attempt): string { TICKET_MARKER + a.id }

  predicate Marked(t: TicketRecord, a: Attempt) { Contains(t.reason, MarkerOf(a)) }

  /** A later action of the same id replaces an earlier one. */
  function ActionOf(p: Prepared, id: Id): (r: Option<Action>)
    ensures r.Some? ==> r.value.id == id
  {
    LastAction(p.actions, id)
  }

  function LastAction(s: seq<Action>, id: Id): (r: Option<Action>)
    ensures r.Some? ==> r.value in s && r.value.id == id
  {
    if s == [] then None
    else if s[|s| - 1].id == id then Some(s[|s| - 1])
    else LastAction(s[..|s| - 1], id)
  }

  function LastBinding(s: seq<Binding>, id: Id): (r: Option<Binding>)
    ensures r.Some? ==> r.value in s && r.value.action == id
  {
    if s == [] then None
    else if s[|s| - 1].action == id then Some(s[|s| - 1])
    else LastBinding(s[..|s| - 1], id)
  }

  predicate TicketMatches(t: TicketRecord, a: Attempt, action: Action, b: Binding) {
    && a.action == action.id && action.side == "BACK" && a.side == action.side
    && a.bookmaker == action.bookmaker && a.account == action.account
    && a.event == action.event && a.market == action.market && a.selection == action.selection
    && Some(t.stake) == a.executionStake && t.placedAt == a.observedAt
    && t.providers == [a.bookmaker] && t.accounts == [(a.bookmaker, a.account)]
    && t.bankroll == b.bankroll && t.currency == b.currency
    && a.quote == action.quote && a.decisionOdds == action.requestedOdds && a.requestedStake == action.requestedStake
    && |t.legs| == 1
    && t.legs[0].event == a.event && t.legs[0].market == a.market && t.legs[0].selection == a.selection
    && Some(t.legs[0].odds) == a.executionOdds && t.legs[0].sport == b.sport && t.legs[0].exchangeSide == "back"
  }

  predicate AcceptedEquivalent(a: Attempt) { a.outcome == Accepted || a.outcome == Partial }

  function AcceptedOf(attempts: seq<Attempt>): (r: seq<Attempt>)
    ensures forall a :: a in r <==> a in attempts && AcceptedEquivalent(a)
  {
    if attempts == [] then []
    else
      var n := |attempts| - 1;
      assert attempts == attempts[..n] + [attempts[n]];
      AcceptedOf(attempts[..n]) + if AcceptedEquivalent(attempts[n]) then [attempts[n]] else []
  }

  // ---- Exact debits ----------------------------------------------------------------------------------

  /** A stake is debited exactly, or refused when it is not positive or not covered. */
  function Debit(balance: real, amount: real): Option<real> {
    if amount <= 0.0 || amount > balance then None else Some(balance - amount)
  }

  function StakeOf(a: Attempt): real { if a.executionStake.Some? then a.executionStake.value else 0.0 }

  function DebitAll(balance: real, attempts: seq<Attempt>): Option<real> {
    if attempts == [] then Some(balance)
    else
      var n := |attempts| - 1;
      match DebitAll(balance, attempts[..n])
      case None => None
      case Some(b) => Debit(b, StakeOf(attempts[n]))
  }

  function TotalStake(attempts: seq<Attempt>): real {
    if attempts == [] then 0.0 else TotalStake(attempts[..|attempts| - 1]) + StakeOf(attempts[|attempts| - 1])
  }

  /** Debits conserve: what is left is the balance less the stakes, and it never goes below zero. */
  lemma {:induction false} DebitsConserve(balance: real, attempts: seq<Attempt>)
    requires DebitAll(balance, attempts).Some?
    ensures DebitAll(balance, attempts).value == balance - TotalStake(attempts)
    ensures attempts != [] ==> 0.0 <= DebitAll(balance, attempts).value < balance
    ensures forall i :: 0 <= i < |attempts| ==> StakeOf(attempts[i]) > 0.0
  {
    if attempts != [] {
      var n := |attempts| - 1;
      DebitsConserve(balance, attempts[..n]);
      assert forall i :: 0 <= i < n ==> attempts[..n][i] == attempts[i];
    }
  }

  /** Debits succeed exactly when every stake is positive and together they are covered. */
  lemma {:induction false} DebitsExactly(balance: real, attempts: seq<Attempt>)
    ensures DebitAll(balance, attempts).Some? <==>
            (forall i :: 0 <= i < |attempts| ==> StakeOf(attempts[i]) > 0.0)
            && (attempts == [] || TotalStake(attempts) <= balance)
  {
    if attempts != [] {
      var n := |attempts| - 1;
      DebitsExactly(balance, attempts[..n]);
      if DebitAll(balance, attempts[..n]).Some? { DebitsConserve(balance, attempts[..n]); }
      assert forall i :: 0 <= i < n ==> attempts[..n][i] == attempts[i];
      assert (forall i :: 0 <= i < |attempts| ==> StakeOf(attempts[i]) > 0.0) <==>
             (forall i :: 0 <= i < n ==> StakeOf(attempts[..n][i]) > 0.0) && StakeOf(attempts[n]) > 0.0;
    }
  }

  // ---- The accepted post-action state ------------------------------------------------------------------

  predicate SameBook(a: Book, b: Book) {
    && a.initial == b.initial && a.balance == b.balance && a.tickets == b.tickets
    && a.lifecycle == b.lifecycle && a.settlementTimes == b.settlementTimes
  }

  lemma SameBookIsEquality(a: Book, b: Book)
    ensures SameBook(a, b) <==> a == b
  {
  }

  function Added(book: Book, before: Book): set<Id> { book.tickets.Keys - before.tickets.Keys }

  /** The added ticket is the only one that carries the attempt's marker. */
  predicate OnlyMatch(book: Book, before: Book, a: Attempt, id: Id) {
    && id in Added(book, before) && Marked(book.tickets[id], a)
    && forall other :: other in Added(book, before) && Marked(book.tickets[other], a) ==> other == id
  }

  /** The execution truth of an attempt is that of the ticket, its action and its binding. */
  predicate Truthful(p: Prepared, t: TicketRecord, a: Attempt) {
    var action, binding := ActionOf(p, a.action), LastBinding(p.bindings, a.action);
    && action.Some? && binding.Some? && a.executionOdds.Some? && a.executionStake.Some?
    && TicketMatches(t, a, action.value, binding.value)
  }

  function Opens(ids: seq<Id>): (r: seq<Entry>)
    ensures |r| == |ids| && forall i :: 0 <= i < |r| ==> r[i] == Entry("open", ids[i], [], [])
  {
    if ids == [] then [] else Opens(ids[..|ids| - 1]) + [Entry("open", ids[|ids| - 1], [], [])]
  }

  predicate NoRepeats(ids: seq<Id>) { forall i, j :: 0 <= i < j < |ids| ==> ids[i] != ids[j] }

  /** `ids` names, attempt by attempt, the one added ticket of each. */
  predicate Pairing(book: Book, before: Book, p: Prepared, accepted: seq<Attempt>, ids: seq<Id>) {
    && |ids| == |accepted| && NoRepeats(ids)
    && (forall i :: 0 <= i < |ids| ==>
          OnlyMatch(book, before, accepted[i], ids[i]) && Truthful(p, book.tickets[ids[i]], accepted[i]))
    && (forall id :: id in Added(book, before) ==> id in ids)
  }

  predicate PreIntact(book: Book, before: Book) {
    forall id :: id in before.tickets ==> id in book.tickets && book.tickets[id] == before.tickets[id]
  }

  /** The book is the pre-action book and, on top of it, exactly the accepted attempts. */
  ghost predicate ExactDelta(book: Book, before: Book, p: Prepared, attempts: seq<Attempt>) {
    var accepted := AcceptedOf(attempts);
    && book.initial == before.initial && PreIntact(book, before)
    && book.settlementTimes == before.settlementTimes
    && DebitAll(before.balance, accepted) == Some(book.balance)
    && exists ids :: Pairing(book, before, p, accepted, ids) && book.lifecycle == before.lifecycle + Opens(ids)
  }

  ghost predicate Recoverable(book: Book, before: Book, p: Prepared, materialize: bool, run: Option<seq<Attempt>>) {
    SameBook(book, before) || (materialize && run.Some? && ExactDelta(book, before, p, run.value))
  }

  // ---- The check ---------------------------------------------------------------------------------------

  /** The one added ticket that carries the attempt's marker, if there is exactly one. */
  function MatchOf(book: Book, before: Book, a: Attempt): Option<Id> {
    var matches := set id | id in Added(book, before) && Marked(book.tickets[id], a);
    if |matches| == 1 then Some(TheOnly(matches)) else None
  }

  lemma MatchIsOnly(book: Book, before: Book, a: Attempt, id: Id)
    ensures MatchOf(book, before, a) == Some(id) <==> OnlyMatch(book, before, a, id)
  {
    var matches := set x | x in Added(book, before) && Marked(book.tickets[x], a);
    if OnlyMatch(book, before, a, id) { assert matches == {id}; }
    if MatchOf(book, before, a) == Some(id) {
      assert matches == {id} && id in matches;
      forall x | x in Added(book, before) && Marked(book.tickets[x], a) ensures x == id { assert x in matches; }
    }
  }

  /** The tickets of the attempts, in order, when each has its own truthful one. */
  function MatchIds(book: Book, before: Book, p: Prepared, accepted: seq<Attempt>): Option<seq<Id>> {
    if accepted == [] then Some([])
    else
      var n := |accepted| - 1;
      var m := MatchOf(book, before, accepted[n]);
      match MatchIds(book, before, p, accepted[..n])
      case None => None
      case Some(ids) =>
        if m.Some? && m.value in book.tickets && Truthful(p, book.tickets[m.value], accepted[n]) && m.value !in ids
        then Some(ids + [m.value]) else None
  }

  lemma {:induction false} DebitPrefix(balance: real, attempts: seq<Attempt>, i: nat)
    requires DebitAll(balance, attempts).Some? && i <= |attempts|
    ensures DebitAll(balance, attempts[..i]).Some?
    decreases |attempts|
  {
    if i < |attempts| {
      DebitPrefix(balance, attempts[..|attempts| - 1], i);
      assert attempts[..|attempts| - 1][..i] == attempts[..i];
    } else {
      assert attempts[..i] == attempts;
    }
  }

  lemma PairingCounts(book: Book, before: Book, p: Prepared, accepted: seq<Attempt>, ids: seq<Id>)
    requires Pairing(book, before, p, accepted, ids)
    ensures |Added(book, before)| == |accepted|
  {
    NoRepeatsCount(ids);
    assert Added(book, before) == Members(ids);
  }

  function Members(ids: seq<Id>): set<Id> { set id | id in ids }

  lemma {:induction false} NoRepeatsCount(ids: seq<Id>)
    requires NoRepeats(ids)
    ensures |Members(ids)| == |ids|
  {
    if ids != [] {
      var n := |ids| - 1;
      NoRepeatsCount(ids[..n]);
      assert ids == ids[..n] + [ids[n]];
      assert Members(ids) == Members(ids[..n]) + {ids[n]};
    }
  }

  /** The state of the check after `i` accepted attempts. */
  predicate MatchedSoFar(book: Book, before: Book, p: Prepared, accepted: seq<Attempt>, ids: seq<Id>, i: nat) {
    && i <= |accepted| && |ids| == i && NoRepeats(ids)
    && forall k :: 0 <= k < i ==>
         OnlyMatch(book, before, accepted[k], ids[k]) && Truthful(p, book.tickets[ids[k]], accepted[k])
  }

  lemma MatchedSnoc(book: Book, before: Book, p: Prepared, accepted: seq<Attempt>, ids: seq<Id>)
    requires accepted != [] && |ids| == |accepted|
    ensures var n := |accepted| - 1;
            MatchedSoFar(book, before, p, accepted, ids, |accepted|) <==>
            && MatchedSoFar(book, before, p, accepted[..n], ids[..n], n) && ids[n] !in ids[..n]
            && OnlyMatch(book, before, accepted[n], ids[n]) && Truthful(p, book.tickets[ids[n]], accepted[n])
  {
    var n := |accepted| - 1;
    assert ids == ids[..n] + [ids[n]];
    assert forall k :: 0 <= k < n ==> ids[..n][k] == ids[k] && accepted[..n][k] == accepted[k];
  }

  /** One step of the matching, read backwards. */
  lemma MatchIdsSnoc(book: Book, before: Book, p: Prepared, accepted: seq<Attempt>, ids: seq<Id>)
    requires accepted != [] && |ids| == |accepted|
    ensures var n := |accepted| - 1;
            MatchIds(book, before, p, accepted) == Some(ids) <==>
            && MatchIds(book, before, p, accepted[..n]) == Some(ids[..n]) && ids[n] !in ids[..n]
            && OnlyMatch(book, before, accepted[n], ids[n]) && Truthful(p, book.tickets[ids[n]], accepted[n])
  {
    var n := |accepted| - 1;
    SplitLast(ids);
    MatchIsOnly(book, before, accepted[n], ids[n]);
  }

  lemma {:induction false} MatchIdsCount(book: Book, before: Book, p: Prepared, accepted: seq<Attempt>)
    ensures MatchIds(book, before, p, accepted).Some? ==>
              |MatchIds(book, before, p, accepted).value| == |accepted|
  {
    if accepted != [] { MatchIdsCount(book, before, p, accepted[..|accepted| - 1]); }
  }

  /** The matching that the loop builds is the pairing of the specification. */
  lemma {:induction false} MatchIdsMeans(book: Book, before: Book, p: Prepared, accepted: seq<Attempt>, ids: seq<Id>)
    ensures MatchIds(book, before, p, accepted) == Some(ids) <==>
            MatchedSoFar(book, before, p, accepted, ids, |accepted|)
    decreases |accepted|
  {
    MatchIdsCount(book, before, p, accepted);
    if accepted != [] && |ids| == |accepted| {
      var n := |accepted| - 1;
      MatchIdsMeans(book, before, p, accepted[..n], ids[..n]);
      MatchIdsSnoc(book, before, p, accepted, ids);
      MatchedSnoc(book, before, p, accepted, ids);
    }
  }

  lemma PairingIsMatching(book: Book, before: Book, p: Prepared, accepted: seq<Attempt>, ids: seq<Id>)
    ensures Pairing(book, before, p, accepted, ids) <==>
            MatchIds(book, before, p, accepted) == Some(ids) && Members(ids) == Added(book, before)
  {
    MatchIdsMeans(book, before, p, accepted, ids);
    if Pairing(book, before, p, accepted, ids) {
      assert Members(ids) == Added(book, before);
    } else if MatchedSoFar(book, before, p, accepted, ids, |accepted|) && Members(ids) == Added(book, before) {
      forall id | id in Added(book, before) ensures id in ids { assert id in Members(ids); }
    }
  }

  /** What the check computes. */
  predicate DeltaComputed(book: Book, before: Book, p: Prepared, attempts: seq<Attempt>) {
    var accepted := AcceptedOf(attempts);
    var ids := MatchIds(book, before, p, accepted);
    && book.initial == before.initial && PreIntact(book, before)
    && ids.Some? && Members(ids.value) == Added(book, before)
    && DebitAll(before.balance, accepted) == Some(book.balance)
    && book.lifecycle == before.lifecycle + Opens(ids.value)
    && book.settlementTimes == before.settlementTimes
  }

  lemma ComputedIsExact(book: Book, before: Book, p: Prepared, attempts: seq<Attempt>)
    ensures DeltaComputed(book, before, p, attempts) <==> ExactDelta(book, before, p, attempts)
    ensures DeltaComputed(book, before, p, attempts) ==> |Added(book, before)| == |AcceptedOf(attempts)|
  {
    var accepted := AcceptedOf(attempts);
    if DeltaComputed(book, before, p, attempts) {
      var ids := MatchIds(book, before, p, accepted).value;
      PairingIsMatching(book, before, p, accepted, ids);
      PairingCounts(book, before, p, accepted, ids);
    }
    if ExactDelta(book, before, p, attempts) {
      var ids :| Pairing(book, before, p, accepted, ids) && book.lifecycle == before.lifecycle + Opens(ids);
      PairingIsMatching(book, before, p, accepted, ids);
    }
  }

  /** Matches one attempt to its ticket. */
  method MatchAttempt(book: Book, before: Book, p: Prepared, a: Attempt, matched: seq<Id>)
    returns (r: Result<Id, RecoveryError>)
    ensures var m := MatchOf(book, before, a);
            r.Ok? <==>
              m.Some? && m.value in book.tickets && Truthful(p, book.tickets[m.value], a) && m.value !in matched
    ensures r.Ok? ==> MatchOf(book, before, a) == Some(r.value)
  {
    var action, binding := ActionOf(p, a.action), LastBinding(p.bindings, a.action);
    if action.None? || binding.None? { return Err(Unbound); }
    if a.executionOdds.None? || a.executionStake.None? { return Err(NoExecutionTruth); }
    var matches := set id | id in Added(book, before) && Marked(book.tickets[id], a);
    if |matches| != 1 { return Err(NotExact); }
    var id := TheOnly(matches);
    assert id in matches;
    if !TicketMatches(book.tickets[id], a, action.value, binding.value) { return Err(Conflicts); }
    if id in matched { return Err(TicketReused); }
    return Ok(id);
  }

  lemma {:induction false} MatchPrefix(book: Book, before: Book, p: Prepared, accepted: seq<Attempt>, i: nat)
    requires i <= |accepted| && MatchIds(book, before, p, accepted).Some?
    ensures MatchIds(book, before, p, accepted[..i]).Some?
    decreases |accepted|
  {
    if i < |accepted| {
      MatchPrefix(book, before, p, accepted[..|accepted| - 1], i);
      assert accepted[..|accepted| - 1][..i] == accepted[..i];
    } else {
      assert accepted[..i] == accepted;
    }
  }

  lemma MatchNext(book: Book, before: Book, p: Prepared, accepted: seq<Attempt>, i: nat, ids: seq<Id>)
    requires i < |accepted| && MatchIds(book, before, p, accepted[..i]) == Some(ids)
    ensures var m := MatchOf(book, before, accepted[i]);
            MatchIds(book, before, p, accepted[..i + 1]) ==
            if m.Some? && m.value in book.tickets && Truthful(p, book.tickets[m.value], accepted[i]) && m.value !in ids
            then Some(ids + [m.value]) else None
  {
    assert accepted[..i + 1][..i] == accepted[..i];
  }

  lemma DebitNext(balance: real, accepted: seq<Attempt>, i: nat, left: real)
    requires i < |accepted| && DebitAll(balance, accepted[..i]) == Some(left)
    ensures DebitAll(balance, accepted[..i + 1]) == Debit(left, StakeOf(accepted[i]))
  {
    assert accepted[..i + 1][..i] == accepted[..i];
  }

  /** The loop over the accepted attempts: tickets, balance and lifecycle entries. */
  method MatchAll(book: Book, before: Book, p: Prepared, accepted: seq<Attempt>)
    returns (r: Result<(seq<Id>, real, seq<Entry>), RecoveryError>)
    ensures r.Ok? <==> MatchIds(book, before, p, accepted).Some? && DebitAll(before.balance, accepted).Some?
    ensures r.Ok? ==> MatchIds(book, before, p, accepted) == Some(r.value.0)
                      && DebitAll(before.balance, accepted) == Some(r.value.1)
                      && r.value.2 == before.lifecycle + Opens(r.value.0)
  {
    var expectedBalance := before.balance;
    var expectedLifecycle := before.lifecycle;
    var ids: seq<Id> := [];
    for i := 0 to |accepted|
      invariant MatchIds(book, before, p, accepted[..i]) == Some(ids)
      invariant DebitAll(before.balance, accepted[..i]) == Some(expectedBalance)
      invariant expectedLifecycle == before.lifecycle + Opens(ids)
    {
      MatchNext(book, before, p, accepted, i, ids);
      DebitNext(before.balance, accepted, i, expectedBalance);
      var id := MatchAttempt(book, before, p, accepted[i], ids);
      if id.Err? {
        if MatchIds(book, before, p, accepted).Some? { MatchPrefix(book, before, p, accepted, i + 1); }
        return Err(id.error);
      }
      var debited := Debit(expectedBalance, StakeOf(accepted[i]));
      if debited.None? {
        if DebitAll(before.balance, accepted).Some? { DebitPrefix(before.balance, accepted, i + 1); }
        return Err(DebitRefused);
      }
      OpensSnoc(ids, id.value);
      expectedBalance, ids := debited.value, ids + [id.value];
      expectedLifecycle := expectedLifecycle + [Entry("open", id.value, [], [])];
    }
    assert accepted[..|accepted|] == accepted;
    return Ok((ids, expectedBalance, expectedLifecycle));
  }

  lemma OpensSnoc(ids: seq<Id>, id: Id)
    ensures Opens(ids + [id]) == Opens(ids) + [Entry("open", id, [], [])]
  {
    assert (ids + [id])[..|ids|] == ids;
  }

  /** The part of the delta that the loop over the attempts decides. */
  predicate MatchedDelta(book: Book, before: Book, p: Prepared, accepted: seq<Attempt>) {
    var ids := MatchIds(book, before, p, accepted);
    && ids.Some? && Members(ids.value) == Added(book, before)
    && DebitAll(before.balance, accepted) == Some(book.balance)
    && book.lifecycle == before.lifecycle + Opens(ids.value)
    && book.settlementTimes == before.settlementTimes
  }

  method AssertMatchedDelta(book: Book, before: Book, p: Prepared, accepted: seq<Attempt>)
    returns (r: Result<(), RecoveryError>)
    ensures r.Ok? <==> MatchedDelta(book, before, p, accepted)
  {
    var matched := MatchAll(book, before, p, accepted);
    if matched.Err? { return Err(matched.error); }
    var (ids, expectedBalance, expectedLifecycle) := matched.value;
    if Members(ids) != Added(book, before) { return Err(OutsideAttempts); }
    if book.balance != expectedBalance || book.lifecycle != expectedLifecycle
       || book.settlementTimes != before.settlementTimes
    { return Err(NotExact); }
    return Ok(());
  }

  /** The check of a changed book against the durable attempts. */
  method AssertExactDelta(book: Book, before: Book, p: Prepared, attempts: seq<Attempt>)
    returns (r: Result<(), RecoveryError>)
    ensures r.Ok? <==> DeltaComputed(book, before, p, attempts)
  {
    if book.initial != before.initial { return Err(BankrollChanged); }
    if exists id :: id in before.tickets && id !in book.tickets { return Err(ExposureRemoved); }
    if exists id :: id in before.tickets && book.tickets[id] != before.tickets[id] { return Err(ExposureChanged); }
    var accepted := AcceptedOf(attempts);
    if |Added(book, before)| != |accepted| {
      ComputedIsExact(book, before, p, attempts);
      return Err(NotExact);
    }
    r := AssertMatchedDelta(book, before, p, accepted);
  }

  method AssertRecoverableBookState(
    book: Book, before: Book, p: Prepared, materialize: bool, run: Option<seq<Attempt>>)
    returns (r: Result<(), RecoveryError>)
    ensures r.Ok? <==> Recoverable(book, before, p, materialize, run)
  {
    if SameBook(book, before) { return Ok(()); }
    if !materialize { return Err(ShadowDiffers); }
    if run.None? { return Err(NoRunEvidence); }
    r := AssertExactDelta(book, before, p, run.value);
    ComputedIsExact(book, before, p, run.value);
  }

  // ---- What acceptance means ------------------------------------------------------------------------------

  /**
   * An accepted changed book has lost and altered nothing, holds one ticket for each accepted attempt
   * and no other new one, and paid exactly the sum of the execution stakes.
   */
  lemma AcceptedBookIsSound(book: Book, before: Book, p: Prepared, materialize: bool, run: Option<seq<Attempt>>)
    returns (ids: seq<Id>)
    requires Recoverable(book, before, p, materialize, run) && !SameBook(book, before)
    ensures run.Some? && Pairing(book, before, p, AcceptedOf(run.value), ids)
    ensures PreIntact(book, before) && |Added(book, before)| == |AcceptedOf(run.value)|
    ensures book.balance == before.balance - TotalStake(AcceptedOf(run.value))
    ensures forall i :: 0 <= i < |ids| ==> StakeOf(AcceptedOf(run.value)[i]) == book.tickets[ids[i]].stake > 0.0
    ensures book.lifecycle == before.lifecycle + Opens(ids) && book.settlementTimes == before.settlementTimes
  {
    var accepted := AcceptedOf(run.value);
    ids := ExactIds(book, before, p, run.value);
    PairingCounts(book, before, p, accepted, ids);
    DebitsConserve(before.balance, accepted);
    PairedStakes(book, before, p, accepted, ids);
  }

  lemma ExactIds(book: Book, before: Book, p: Prepared, attempts: seq<Attempt>) returns (ids: seq<Id>)
    requires ExactDelta(book, before, p, attempts)
    ensures Pairing(book, before, p, AcceptedOf(attempts), ids) && book.lifecycle == before.lifecycle + Opens(ids)
  {
    ids :| Pairing(book, before, p, AcceptedOf(attempts), ids) && book.lifecycle == before.lifecycle + Opens(ids);
  }

  lemma PairedStakes(book: Book, before: Book, p: Prepared, accepted: seq<Attempt>, ids: seq<Id>)
    requires Pairing(book, before, p, accepted, ids)
    ensures forall i :: 0 <= i < |ids| ==> StakeOf(accepted[i]) == book.tickets[ids[i]].stake
  {
    forall i | 0 <= i < |ids| ensures StakeOf(accepted[i]) == book.tickets[ids[i]].stake {
      assert Truthful(p, book.tickets[ids[i]], accepted[i]);
    }
  }

  predicate Filled(a: Attempt) { a.outcome in {Accepted, Partial} }

  function FillCount(attempts: seq<Attempt>): nat {
    if attempts == [] then 0
    else FillCount(attempts[..|attempts| - 1]) + if Filled(attempts[|attempts| - 1]) then 1 else 0
  }

  lemma {:induction false} FillsAreAccepted(attempts: seq<Attempt>)
    ensures |AcceptedOf(attempts)| == FillCount(attempts)
    ensures forall a :: a in AcceptedOf(attempts) <==> a in attempts && Filled(a)
  {
    if attempts != [] { FillsAreAccepted(attempts[..|attempts| - 1]); }
  }

  /** A prepared BACK action asked for exactly what was attempted. */
  predicate Authorized(p: Prepared, a: Attempt) {
    exists action :: action in p.actions
                     && action.id == a.action && action.side == "BACK" && a.side == "BACK"
                     && action.bookmaker == a.bookmaker && action.account == a.account && action.event == a.event
                     && action.market == a.market && action.selection == a.selection && action.quote == a.quote
                     && action.requestedOdds == a.decisionOdds && action.requestedStake == a.requestedStake
  }

  /** The ticket books the fill: its stake, odds, time and place, under the attempt's marker. */
  predicate BookedAs(p: Prepared, t: TicketRecord, a: Attempt) {
    && Contains(t.reason, TICKET_MARKER + a.id) && a.executionStake == Some(t.stake) && t.placedAt == a.observedAt
    && t.providers == [a.bookmaker] && t.accounts == [(a.bookmaker, a.account)]
    && a.executionOdds.Some?
    && (exists b :: b in p.bindings && b.action == a.action && t.bankroll == b.bankroll && t.currency == b.currency
                    && t.legs == [Leg(a.event, a.market, a.selection, a.executionOdds.value, b.sport, "back")])
  }

  lemma TruthfulBooks(p: Prepared, t: TicketRecord, a: Attempt)
    requires Truthful(p, t, a) && Marked(t, a)
    ensures Authorized(p, a) && BookedAs(p, t, a)
  {
    var b := LastBinding(p.bindings, a.action).value;
    var leg := Leg(a.event, a.market, a.selection, a.executionOdds.value, b.sport, "back");
    assert t.legs[0] == leg && t.legs == [leg];
    assert ActionOf(p, a.action).value in p.actions;
  }

  predicate HasTicket(book: Book, before: Book, p: Prepared, a: Attempt) {
    exists id :: id in Added(book, before) && BookedAs(p, book.tickets[id], a)
  }

  predicate HasFill(book: Book, p: Prepared, attempts: seq<Attempt>, id: Id)
    requires id in book.tickets
  {
    exists a :: a in attempts && Filled(a) && BookedAs(p, book.tickets[id], a)
  }

  lemma PairBooks(book: Book, before: Book, p: Prepared, accepted: seq<Attempt>, ids: seq<Id>, i: nat)
    requires Pairing(book, before, p, accepted, ids) && i < |ids|
    ensures ids[i] in Added(book, before) && Authorized(p, accepted[i])
    ensures BookedAs(p, book.tickets[ids[i]], accepted[i]) && HasTicket(book, before, p, accepted[i])
  {
    assert OnlyMatch(book, before, accepted[i], ids[i]) && Truthful(p, book.tickets[ids[i]], accepted[i]);
    TruthfulBooks(p, book.tickets[ids[i]], accepted[i]);
  }

  lemma PairingFills(book: Book, before: Book, p: Prepared, attempts: seq<Attempt>, ids: seq<Id>, i: nat)
    requires Pairing(book, before, p, AcceptedOf(attempts), ids) && i < |ids|
    ensures ids[i] in book.tickets && HasFill(book, p, attempts, ids[i])
  {
    var accepted := AcceptedOf(attempts);
    PairBooks(book, before, p, accepted, ids, i);
    FillsAreAccepted(attempts);
    assert accepted[i] in accepted;
  }

  lemma FillsPaired(book: Book, before: Book, p: Prepared, attempts: seq<Attempt>, ids: seq<Id>)
    requires Pairing(book, before, p, AcceptedOf(attempts), ids)
    ensures forall a :: a in attempts && Filled(a) ==> Authorized(p, a) && HasTicket(book, before, p, a)
  {
    var accepted := AcceptedOf(attempts);
    FillsAreAccepted(attempts);
    forall a | a in attempts && Filled(a) ensures Authorized(p, a) && HasTicket(book, before, p, a) {
      var i :| 0 <= i < |accepted| && accepted[i] == a;
      PairBooks(book, before, p, accepted, ids, i);
    }
  }

  lemma TicketsPaired(book: Book, before: Book, p: Prepared, attempts: seq<Attempt>, ids: seq<Id>)
    requires Pairing(book, before, p, AcceptedOf(attempts), ids)
    ensures forall id :: id in Added(book, before) ==> HasFill(book, p, attempts, id)
  {
    forall id | id in Added(book, before) ensures HasFill(book, p, attempts, id) {
      assert id in ids;
      var i :| 0 <= i < |ids| && ids[i] == id;
      PairingFills(book, before, p, attempts, ids, i);
    }
  }

  /**
   * Every fill, whole or partial, is authorized and booked by a ticket of its own, every new ticket books
   * a fill, and there are exactly as many of the one as of the other.
   */
  predicate AllBooked(book: Book, before: Book, p: Prepared, attempts: seq<Attempt>) {
    && |Added(book, before)| == FillCount(attempts)
    && (forall a :: a in attempts && Filled(a) ==> Authorized(p, a) && HasTicket(book, before, p, a))
    && forall id :: id in Added(book, before) ==> HasFill(book, p, attempts, id)
  }

  lemma PairingBooks(book: Book, before: Book, p: Prepared, attempts: seq<Attempt>, ids: seq<Id>)
    requires Pairing(book, before, p, AcceptedOf(attempts), ids)
    ensures AllBooked(book, before, p, attempts)
  {
    FillsAreAccepted(attempts);
    PairingCounts(book, before, p, AcceptedOf(attempts), ids);
    FillsPaired(book, before, p, attempts, ids);
    TicketsPaired(book, before, p, attempts, ids);
  }

  /** An accepted changed book books exactly the fills of its run. */
  lemma EveryFillIsBooked(book: Book, before: Book, p: Prepared, materialize: bool, run: Option<seq<Attempt>>)
    requires Recoverable(book, before, p, materialize, run) && !SameBook(book, before)
    ensures run.Some? && AllBooked(book, before, p, run.value)
  {
    var ids := ExactIds(book, before, p, run.value);
    PairingBooks(book, before, p, run.value, ids);
  }

  // ---- Materialization: the other direction ------------------------------------------------------------------

  /** Opening one ticket: exact debit, the ticket filed under its id, one lifecycle entry. */
  function Open(book: Book, t: TicketRecord): Option<Book> {
    match Debit(book.balance, t.stake)
    case None => None
    case Some(balance) =>
      if t.id in book.tickets then None
      else
        var lifecycle := book.lifecycle + [Entry("open", t.id, [], [])];
        Some(BookRecord(book.initial, balance, book.tickets[t.id := t], lifecycle, book.settlementTimes))
  }

  function OpenAll(book: Book, tickets: seq<TicketRecord>): Option<Book> {
    if tickets == [] then Some(book)
    else
      match OpenAll(book, tickets[..|tickets| - 1])
      case None => None
      case Some(b) => Open(b, tickets[|tickets| - 1])
  }

  function IdsOf(tickets: seq<TicketRecord>): (r: seq<Id>)
    ensures |r| == |tickets| && forall i :: 0 <= i < |r| ==> r[i] == tickets[i].id
  {
    seq(|tickets|, i requires 0 <= i < |tickets| => tickets[i].id)
  }

  /** Each ticket carries its own attempt's marker and execution truth, and no other attempt's marker. */
  predicate Materializes(p: Prepared, tickets: seq<TicketRecord>, accepted: seq<Attempt>) {
    && |tickets| == |accepted|
    && (forall i :: 0 <= i < |tickets| ==> Truthful(p, tickets[i], accepted[i]))
    && forall i, j :: 0 <= i < |tickets| && 0 <= j < |accepted| ==> (Marked(tickets[i], accepted[j]) <==> i == j)
  }

  /** The state after opening, field by field. */
  predicate Opened(book: Book, before: Book, tickets: seq<TicketRecord>) {
    && book.initial == before.initial && book.settlementTimes == before.settlementTimes
    && book.lifecycle == before.lifecycle + Opens(IdsOf(tickets))
    && NoRepeats(IdsOf(tickets)) && PreIntact(book, before)
    && (forall i :: 0 <= i < |tickets| ==> Filed(book, before, tickets[i]))
    && Added(book, before) == Members(IdsOf(tickets))
  }

  predicate Filed(book: Book, before: Book, t: TicketRecord) {
    t.id !in before.tickets && t.id in book.tickets && book.tickets[t.id] == t
  }

  lemma IdsSnoc(tickets: seq<TicketRecord>, t: TicketRecord)
    ensures IdsOf(tickets + [t]) == IdsOf(tickets) + [t.id]
    ensures Members(IdsOf(tickets + [t])) == Members(IdsOf(tickets)) + {t.id}
  {
    assert IdsOf(tickets + [t]) == IdsOf(tickets) + [t.id];
    assert forall id :: id in IdsOf(tickets) + [t.id] <==> id in IdsOf(tickets) || id == t.id;
  }

  lemma OpenFiles(mid: Book, before: Book, tickets: seq<TicketRecord>, t: TicketRecord)
    requires Open(mid, t).Some? && PreIntact(mid, before)
    requires forall i :: 0 <= i < |tickets| ==> Filed(mid, before, tickets[i])
    ensures forall i :: 0 <= i < |tickets + [t]| ==> Filed(Open(mid, t).value, before, (tickets + [t])[i])
    ensures NoRepeats(IdsOf(tickets)) ==> NoRepeats(IdsOf(tickets) + [t.id])
  {
    forall i | 0 <= i < |tickets| ensures Filed(Open(mid, t).value, before, tickets[i]) && IdsOf(tickets)[i] != t.id {
      assert Filed(mid, before, tickets[i]);
    }
  }

  lemma OpenAdds(mid: Book, before: Book, t: TicketRecord)
    requires PreIntact(mid, before) && Open(mid, t).Some?
    ensures PreIntact(Open(mid, t).value, before) && t.id !in before.tickets
    ensures Added(Open(mid, t).value, before) == Added(mid, before) + {t.id}
  {
  }

  lemma OpenOne(mid: Book, before: Book, tickets: seq<TicketRecord>, t: TicketRecord)
    requires Opened(mid, before, tickets) && Open(mid, t).Some?
    ensures Opened(Open(mid, t).value, before, tickets + [t])
  {
    OpensSnoc(IdsOf(tickets), t.id);
    IdsSnoc(tickets, t);
    OpenFiles(mid, before, tickets, t);
    OpenAdds(mid, before, t);
  }

  lemma {:induction false} OpenAllOpens(before: Book, tickets: seq<TicketRecord>)
    requires OpenAll(before, tickets).Some?
    ensures Opened(OpenAll(before, tickets).value, before, tickets)
  {
    if tickets != [] {
      var n := |tickets| - 1;
      OpenAllOpens(before, tickets[..n]);
      OpenOne(OpenAll(before, tickets[..n]).value, before, tickets[..n], tickets[n]);
      assert tickets == tickets[..n] + [tickets[n]];
    }
  }

  lemma {:induction false} OpenAllDebits(before: Book, tickets: seq<TicketRecord>, accepted: seq<Attempt>)
    requires |tickets| == |accepted| && OpenAll(before, tickets).Some?
    requires forall i :: 0 <= i < |tickets| ==> tickets[i].stake == StakeOf(accepted[i])
    ensures DebitAll(before.balance, accepted) == Some(OpenAll(before, tickets).value.balance)
  {
    if tickets != [] {
      var n := |tickets| - 1;
      assert forall i :: 0 <= i < n ==> tickets[..n][i] == tickets[i] && accepted[..n][i] == accepted[i];
      OpenAllDebits(before, tickets[..n], accepted[..n]);
    }
  }

  /** Opening one truthful ticket per accepted attempt yields a book that recovery accepts. */
  lemma MaterializedIsRecoverable(before: Book, p: Prepared, attempts: seq<Attempt>, tickets: seq<TicketRecord>)
    requires Materializes(p, tickets, AcceptedOf(attempts)) && OpenAll(before, tickets).Some?
    ensures Recoverable(OpenAll(before, tickets).value, before, p, true, Some(attempts))
  {
    var book, accepted := OpenAll(before, tickets).value, AcceptedOf(attempts);
    OpenAllOpens(before, tickets);
    forall i | 0 <= i < |tickets| ensures tickets[i].stake == StakeOf(accepted[i]) {
      assert Truthful(p, tickets[i], accepted[i]);
    }
    OpenAllDebits(before, tickets, accepted);
    OpenedPairs(book, before, p, accepted, tickets);
  }

  lemma OpenedPairs(book: Book, before: Book, p: Prepared, accepted: seq<Attempt>, tickets: seq<TicketRecord>)
    requires Opened(book, before, tickets) && Materializes(p, tickets, accepted)
    ensures Pairing(book, before, p, accepted, IdsOf(tickets))
  {
    var ids := IdsOf(tickets);
    forall i | 0 <= i < |ids|
      ensures OnlyMatch(book, before, accepted[i], ids[i]) && Truthful(p, book.tickets[ids[i]], accepted[i])
    {
      forall other | other in Added(book, before) && Marked(book.tickets[other], accepted[i]) ensures other == ids[i] {
        assert other in Members(ids);
        var j :| 0 <= j < |ids| && ids[j] == other;
        assert Filed(book, before, tickets[j]);
      }
      assert Filed(book, before, tickets[i]) && Marked(tickets[i], accepted[i]);
    }
    forall id | id in Added(book, before) ensures id in ids { assert id in Members(ids); }
  }

  /** A book that holds a strict non-empty part of the tickets is refused: some attempt lacks its ticket. */
  lemma PartialIsRefused(before: Book, p: Prepared, attempts: seq<Attempt>, tickets: seq<TicketRecord>, n: nat)
    requires Materializes(p, tickets, AcceptedOf(attempts)) && 0 < n < |tickets| && OpenAll(before, tickets[..n]).Some?
    ensures !Recoverable(OpenAll(before, tickets[..n]).value, before, p, true, Some(attempts))
  {
    var book, ids := OpenAll(before, tickets[..n]).value, IdsOf(tickets[..n]);
    OpenAllOpens(before, tickets[..n]);
    NoRepeatsCount(ids);
    ComputedIsExact(book, before, p, attempts);
    assert ids[0] in Members(ids);
  }

  // ---- The pre-action witness ------------------------------------------------------------------------------------

  datatype WitnessError = WitnessMissing

  /** The witness is published once, before the first live run; a restart cannot make one from its own book. */
  function EnsurePreAction(file: Option<Book>, current: Book, runExists: bool)
    : (Option<Book>, Result<Book, WitnessError>)
  {
    if file.Some? then (file, Ok(file.value))
    else if runExists then (file, Err(WitnessMissing))
    else (Some(current), Ok(current))
  }

  method EnsureLivePreActionBook(file: Option<Book>, current: Book, runExists: bool)
    returns (next: Option<Book>, r: Result<Book, WitnessError>)
    ensures file.Some? ==> next == file && r == Ok(file.value)
    ensures r.Ok? <==> file.Some? || !runExists
    ensures r.Ok? ==> next == Some(r.value) && (file.None? ==> r.value == current)
    ensures r.Err? ==> next.None?
    ensures (next, r) == EnsurePreAction(file, current, runExists)
  {
    if file.Some? { return file, Ok(file.value); }
    if runExists { return None, Err(WitnessMissing); }
    return Some(current), Ok(current);
  }

  datatype Start = Start(current: Book, runExists: bool)

  function AfterStarts(file: Option<Book>, starts: seq<Start>): Option<Book>
    decreases |starts|
  {
    if starts == [] then file
    else AfterStarts(EnsurePreAction(file, starts[0].current, starts[0].runExists).0, starts[1..])
  }

  lemma {:induction false} WitnessStays(file: Option<Book>, starts: seq<Start>)
    requires file.Some?
    ensures AfterStarts(file, starts) == file
    decreases |starts|
  {
    if starts != [] { WitnessStays(file, starts[1..]); }
  }

  /** Every later start, with whatever book, is given the witness of the first one. */
  lemma OneWitnessForever(file: Option<Book>, first: Start, starts: seq<Start>, later: Start)
    requires EnsurePreAction(file, first.current, first.runExists).1.Ok?
    ensures var (held, given) := EnsurePreAction(file, first.current, first.runExists);
            EnsurePreAction(AfterStarts(held, starts), later.current, later.runExists) == (held, given)
  {
    WitnessStays(EnsurePreAction(file, first.current, first.runExists).0, starts);
  }
}
