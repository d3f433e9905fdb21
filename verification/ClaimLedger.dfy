/**
 * The swarm claim ledger: ownership events are cut out of issue comments and folded, in server
 * order, into one state per claimed run. No state is ever granted from a malformed history.
 */
module ClaimLedger {
  import opened Common

  // ---- Text and events --------------------------------------------------------------------

  /** Stripped text: no instant, an instant in its canonical spelling, or one spelled otherwise. */
  datatype Text = Plain(text: string) | Stamp(spelling: string, at: Instant) | Canonical(at: Instant)

  const BLANK := Plain("")

  function ParseInstant(t: Text): Option<Instant> { if t.Plain? then None else Some(t.at) }

  function FormatInstant(t: Option<Instant>): Text { if t.None? then BLANK else Canonical(t.value) }

  datatype Header = ClaimV1 | RenewV1 | HeartbeatV1 | LeaseRenewV1 | ReleaseV1

  datatype Kind = Claim | Renew | Release

  function KindOf(h: Header): Kind {
    match h
    case ClaimV1 => Claim
    case ReleaseV1 => Release
    case _ => Renew
  }

  datatype Name =
    | RunId | TaskId | SemanticKey | AccountId | ClaimMode | IntendedSlice | ClaimedAt | LeaseUntil
    | Other(name: string)

  /** A stripped line: an ownership header, another versioned header, a field, or anything else. */
  datatype Line = HeaderLine(header: Header) | ForeignHeader | FieldLine(name: Name, value: Text) | Noise

  /** An event holds, for each field, all values given for it, in order. */
  datatype Event = Event(header: Header, values: map<Name, seq<Text>>)

  function Values(e: Event, name: Name): seq<Text> { if name in e.values then e.values[name] else [] }

  /** The value that counts: the first, or blank. */
  function First(e: Event, name: Name): Text { if Values(e, name) == [] then BLANK else Values(e, name)[0] }

  predicate Repeats(e: Event) { exists name :: name in e.values && |e.values[name]| > 1 }

  function Put(e: Event, name: Name, value: Text): Event {
    e.(values := e.values[name := Values(e, name) + [value]])
  }

  /** The lines up to the next versioned header. */
  function Block(lines: seq<Line>): seq<Line> {
    if lines == [] || lines[0].HeaderLine? || lines[0].ForeignHeader? then [] else [lines[0]] + Block(lines[1..])
  }

  function FieldValues(block: seq<Line>, name: Name): seq<Text> {
    if block == [] then []
    else (if block[0].FieldLine? && block[0].name == name then [block[0].value] else [])
         + FieldValues(block[1..], name)
  }

  function Fill(e: Event, block: seq<Line>): Event
    decreases |block|
  {
    if block == [] then e
    else if block[0].FieldLine? then Fill(Put(e, block[0].name, block[0].value), block[1..])
    else Fill(e, block[1..])
  }

  /** One event for each ownership header, filled from the block that follows it. */
  function Events(lines: seq<Line>): seq<Event> {
    if lines == [] then []
    else if lines[0].HeaderLine? then [Fill(Event(lines[0].header, map[]), Block(lines[1..]))] + Events(lines[1..])
    else Events(lines[1..])
  }

  /** A field's values are the field lines of that name in the event's own block, none lost or reordered. */
  lemma {:induction false} FillCollects(e: Event, block: seq<Line>, name: Name)
    ensures Values(Fill(e, block), name) == Values(e, name) + FieldValues(block, name)
    ensures Fill(e, block).header == e.header
    decreases |block|
  {
    if block != [] {
      if block[0].FieldLine? {
        FillCollects(Put(e, block[0].name, block[0].value), block[1..], name);
      } else {
        FillCollects(e, block[1..], name);
      }
    }
  }

  /** Extracts the ownership events of one comment body; other versioned headers close a block. */
  method ExtractEvents(lines: seq<Line>) returns (events: seq<Event>)
    ensures events == Events(lines)
  {
    events := [];
    var open := false;
    for i := 0 to |lines|
      invariant open ==> events != []
      invariant !open ==> Events(lines) == events + Events(lines[i..])
      invariant open ==>
        Events(lines) == events[..|events| - 1] + [Fill(events[|events| - 1], Block(lines[i..]))] + Events(lines[i..])
    {
      ghost var was := events;
      assert lines[i..] == [lines[i]] + lines[i + 1..];
      match lines[i]
      case HeaderLine(h) =>
        events := events + [Event(h, map[])];
        open := true;
      case ForeignHeader =>
        open := false;
      case FieldLine(name, value) =>
        if open { events := events[|events| - 1 := Put(events[|events| - 1], name, value)]; }
      case Noise =>
    }
  }

  // ---- One run ----------------------------------------------------------------------------

  datatype Latest = Claimed | Renewed | Released | Confused

  datatype Run = Run(
    task: Text, key: Text, account: Text, mode: Text, slice: Text,
    claimedAt: Option<Instant>, lease: Option<Instant>, latest: Latest, ambiguous: bool)

  predicate IdentityMissing(e: Event) {
    || First(e, TaskId) == BLANK || First(e, SemanticKey) == BLANK || First(e, AccountId) == BLANK
    || First(e, ClaimMode) == BLANK || First(e, IntendedSlice) == BLANK
  }

  predicate CompleteClaim(e: Event) {
    !IdentityMissing(e) && ParseInstant(First(e, LeaseUntil)).Some? && ParseInstant(First(e, ClaimedAt)).Some?
  }

  function Opened(e: Event): Run {
    Run(First(e, TaskId), First(e, SemanticKey), First(e, AccountId), First(e, ClaimMode), First(e, IntendedSlice),
        ParseInstant(First(e, ClaimedAt)), ParseInstant(First(e, LeaseUntil)), Claimed, !CompleteClaim(e))
  }

  function Confuse(run: Run): Run { run.(ambiguous := true, latest := Confused) }

  const IMMUTABLE := [TaskId, SemanticKey, AccountId, ClaimMode, ClaimedAt, IntendedSlice]

  /** The text that a renewal must repeat, if it names the field at all. */
  function Held(run: Run, name: Name): Text {
    match name
    case TaskId => run.task
    case SemanticKey => run.key
    case AccountId => run.account
    case ClaimMode => run.mode
    case ClaimedAt => FormatInstant(run.claimedAt)
    case IntendedSlice => run.slice
    case _ => BLANK
  }

  predicate Conflicts(run: Run, e: Event) {
    exists name :: name in IMMUTABLE && First(e, name) != BLANK && First(e, name) != Held(run, name)
  }

  /** A renewal that this run may take. */
  predicate Fits(run: Run, e: Event) {
    && !Repeats(e) && KindOf(e.header) == Renew
    && ParseInstant(First(e, LeaseUntil)).Some? && !Conflicts(run, e)
  }

  /** The effect of an event on a run that it names. */
  function StepRun(run: Option<Run>, e: Event): Option<Run> {
    if run.None? then
      if !Repeats(e) && KindOf(e.header) == Claim then Some(Opened(e)) else None
    else if Repeats(e) || KindOf(e.header) == Claim then Some(Confuse(run.value))
    else if KindOf(e.header) == Release then Some(run.value.(latest := Released))
    else if run.value.latest == Released || !Fits(run.value, e) then Some(Confuse(run.value))
    else Some(run.value.(lease := ParseInstant(First(e, LeaseUntil)), latest := Renewed))
  }

  // ---- The ledger -------------------------------------------------------------------------

  function Distinct(ids: seq<Text>): (r: seq<Text>)
    ensures forall id :: id in r <==> id in ids && id != BLANK
    ensures forall i, j :: 0 <= i < j < |r| ==> r[i] != r[j]
  {
    if ids == [] then []
    else
      var n := |ids| - 1;
      var rest := Distinct(ids[..n]);
      assert ids == ids[..n] + [ids[n]];
      if ids[n] == BLANK || ids[n] in rest then rest else rest + [ids[n]]
  }

  /** Every run that the event names; more than one only when RUN_ID is repeated. */
  function Mentions(e: Event): seq<Text> { Distinct(Values(e, RunId)) }

  datatype Ledger = Ledger(runs: map<Text, Run>, order: seq<Text>)

  const EMPTY := Ledger(map[], [])

  function Get(l: Ledger, id: Text): Option<Run> { if id in l.runs then Some(l.runs[id]) else None }

  function ConfuseAll(runs: map<Text, Run>, ids: seq<Text>): map<Text, Run> {
    map id | id in runs :: if id in ids then Confuse(runs[id]) else runs[id]
  }

  function Step(l: Ledger, e: Event): Ledger {
    if Repeats(e) then l.(runs := ConfuseAll(l.runs, Mentions(e)))
    else
      var id := First(e, RunId);
      var next := StepRun(Get(l, id), e);
      if id == BLANK || next.None? then l
      else Ledger(l.runs[id := next.value], if id in l.runs then l.order else l.order + [id])
  }

  datatype Problem = Problem(kind: ProblemKind, run: Option<Text>)

  datatype ProblemKind =
    | CommentOrder | CommentBody | DuplicateField | MissingRunId | DuplicateClaim | MissingClaimFields
    | MissingLease | InvalidLease | MissingClaimedAt | InvalidClaimedAt | RenewWithoutClaim
    | RenewAfterRelease | RenewIdentityConflict | ReleaseWithoutClaim | InvalidClaimMode

  function StampProblem(t: Text, missing: ProblemKind, invalid: ProblemKind, id: Text): seq<Problem> {
    if t == BLANK then [Problem(missing, Some(id))]
    else if ParseInstant(t).None? then [Problem(invalid, Some(id))]
    else []
  }

  function ClaimProblems(e: Event, id: Text): seq<Problem> {
    (if IdentityMissing(e) then [Problem(MissingClaimFields, Some(id))] else [])
    + StampProblem(First(e, LeaseUntil), MissingLease, InvalidLease, id)
    + StampProblem(First(e, ClaimedAt), MissingClaimedAt, InvalidClaimedAt, id)
  }

  function RenewProblems(run: Run, e: Event, id: Text): seq<Problem> {
    if run.latest == Released then [Problem(RenewAfterRelease, Some(id))]
    else if ParseInstant(First(e, LeaseUntil)).None? then
      StampProblem(First(e, LeaseUntil), MissingLease, InvalidLease, id)
    else if Conflicts(run, e) then [Problem(RenewIdentityConflict, Some(id))]
    else []
  }

  /** The diagnostics of one event. */
  function Problems(l: Ledger, e: Event): seq<Problem> {
    if Repeats(e) then [Problem(DuplicateField, if |Mentions(e)| == 1 then Some(Mentions(e)[0]) else None)]
    else
      var id := First(e, RunId);
      if id == BLANK then [Problem(MissingRunId, None)]
      else match KindOf(e.header)
           case Claim => if id in l.runs then [Problem(DuplicateClaim, Some(id))] else ClaimProblems(e, id)
           case Renew =>
             if id !in l.runs then [Problem(RenewWithoutClaim, Some(id))] else RenewProblems(l.runs[id], e, id)
           case Release => if id !in l.runs then [Problem(ReleaseWithoutClaim, Some(id))] else []
  }

  function Fold(l: Ledger, es: seq<Event>): Ledger {
    if es == [] then l else Step(Fold(l, es[..|es| - 1]), es[|es| - 1])
  }

  function FoldProblems(l: Ledger, es: seq<Event>): seq<Problem> {
    if es == [] then []
    else FoldProblems(l, es[..|es| - 1]) + Problems(Fold(l, es[..|es| - 1]), es[|es| - 1])
  }

  /** An id that is not an integer takes no part in the order check; a body may fail to be text. */
  datatype Comment = Comment(id: Option<int>, body: Option<seq<Line>>)

  function BodyEvents(c: Comment): seq<Event> { if c.body.None? then [] else Events(c.body.value) }

  function AllEvents(cs: seq<Comment>): seq<Event> {
    if cs == [] then [] else AllEvents(cs[..|cs| - 1]) + BodyEvents(cs[|cs| - 1])
  }

  /** The last integer id, against which the next one is compared. */
  function LastId(cs: seq<Comment>): Option<int> {
    if cs == [] then None
    else if cs[|cs| - 1].id.Some? then cs[|cs| - 1].id
    else LastId(cs[..|cs| - 1])
  }

  predicate OutOfOrder(cs: seq<Comment>, c: Comment) {
    c.id.Some? && LastId(cs).Some? && c.id.value < LastId(cs).value
  }

  /** Somewhere in the export the integer comment ids decrease. */
  predicate Disordered(cs: seq<Comment>) {
    cs != [] && (Disordered(cs[..|cs| - 1]) || OutOfOrder(cs[..|cs| - 1], cs[|cs| - 1]))
  }

  function After(cs: seq<Comment>): Ledger { Fold(EMPTY, AllEvents(cs)) }

  function CommentProblems(cs: seq<Comment>, c: Comment): seq<Problem> {
    (if OutOfOrder(cs, c) then [Problem(CommentOrder, None)] else [])
    + (if c.body.None? then [Problem(CommentBody, None)] else FoldProblems(After(cs), Events(c.body.value)))
  }

  function Malformed(cs: seq<Comment>): seq<Problem> {
    if cs == [] then []
    else Malformed(cs[..|cs| - 1]) + CommentProblems(cs[..|cs| - 1], cs[|cs| - 1])
  }

  // ---- Fold basics --------------------------------------------------------------------------

  lemma {:induction false} FoldAppend(l: Ledger, a: seq<Event>, b: seq<Event>)
    ensures Fold(l, a + b) == Fold(Fold(l, a), b)
    decreases |b|
  {
    if b == [] {
      assert a + b == a;
    } else {
      FoldAppend(l, a, b[..|b| - 1]);
      assert (a + b)[..|a + b| - 1] == a + b[..|b| - 1];
    }
  }

  lemma AllEventsSnoc(cs: seq<Comment>, c: Comment)
    ensures AllEvents(cs + [c]) == AllEvents(cs) + BodyEvents(c)
  {
    assert (cs + [c])[..|cs|] == cs;
  }

  lemma {:induction false} AllEventsAppend(a: seq<Comment>, b: seq<Comment>)
    ensures AllEvents(a + b) == AllEvents(a) + AllEvents(b)
    decreases |b|
  {
    if b == [] {
      assert a + b == a;
    } else {
      var before, c := b[..|b| - 1], b[|b| - 1];
      AllEventsAppend(a, before);
      AllEventsSnoc(a + before, c);
      AllEventsSnoc(before, c);
      SplitLast(b);
      Associative(a, before, [c]);
      Associative(AllEvents(a), AllEvents(before), BodyEvents(c));
    }
  }

  lemma {:induction false} DisorderedGrows(cs: seq<Comment>, more: seq<Comment>)
    requires Disordered(cs)
    ensures Disordered(cs + more)
    decreases |more|
  {
    if more == [] {
      assert cs + more == cs;
    } else {
      DisorderedGrows(cs, more[..|more| - 1]);
      assert (cs + more)[..|cs + more| - 1] == cs + more[..|more| - 1];
    }
  }

  /** Exports are disordered exactly when some integer id is below the last integer id before it. */
  lemma {:induction false} DisorderedMeans(cs: seq<Comment>)
    ensures Disordered(cs) <==> exists i :: 0 <= i < |cs| && OutOfOrder(cs[..i], cs[i])
  {
    if cs != [] {
      var n := |cs| - 1;
      var before := cs[..n];
      DisorderedMeans(before);
      assert forall i :: 0 <= i < n ==> before[..i] == cs[..i] && before[i] == cs[i];
      if OutOfOrder(before, cs[n]) { assert OutOfOrder(cs[..n], cs[n]); }
    }
  }

  lemma {:induction false} LastIdIs(cs: seq<Comment>) returns (i: nat)
    ensures if LastId(cs).None? then forall k :: 0 <= k < |cs| ==> cs[k].id.None?
            else i < |cs| && cs[i].id == LastId(cs) && forall k :: i < k < |cs| ==> cs[k].id.None?
  {
    i := 0;
    if cs != [] {
      var n := |cs| - 1;
      if cs[n].id.Some? {
        i := n;
      } else {
        i := LastIdIs(cs[..n]);
        assert forall k :: 0 <= k < n ==> cs[..n][k] == cs[k];
      }
    }
  }

  /** The integer ids never decrease. */
  predicate IdsOrdered(cs: seq<Comment>) {
    forall i, j :: 0 <= i < j < |cs| && cs[i].id.Some? && cs[j].id.Some? ==> cs[i].id.value <= cs[j].id.value
  }

  /** Comments are in server order exactly when the integer ids never decrease. */
  lemma {:induction false} OrderedExactly(cs: seq<Comment>)
    ensures !Disordered(cs) <==> IdsOrdered(cs)
  {
    if cs != [] {
      var n := |cs| - 1;
      var before := cs[..n];
      OrderedExactly(before);
      assert forall k :: 0 <= k < n ==> before[k] == cs[k];
      assert IdsOrdered(cs) ==> IdsOrdered(before);
      var last := LastIdIs(before);
      if IdsOrdered(before) && !OutOfOrder(before, cs[n]) && cs[n].id.Some? {
        forall i | 0 <= i < n && cs[i].id.Some? ensures cs[i].id.value <= cs[n].id.value {
          assert before[i].id.Some? && i <= last;
        }
      }
    }
  }

  /** A block is everything up to the next versioned header, ownership or not. */
  lemma {:induction false} BlockExactly(lines: seq<Line>)
    ensures Block(lines) <= lines
    ensures forall line :: line in Block(lines) ==> line.FieldLine? || line.Noise?
    ensures |Block(lines)| < |lines| ==>
              lines[|Block(lines)|].HeaderLine? || lines[|Block(lines)|].ForeignHeader?
  {
    if lines != [] && !lines[0].HeaderLine? && !lines[0].ForeignHeader? { BlockExactly(lines[1..]); }
  }

  /** The fields that a renewal may not change. */
  predicate Immutable(name: Name) { name in {TaskId, SemanticKey, AccountId, ClaimMode, ClaimedAt, IntendedSlice} }

  /** What the claim says for a field; the claim time counts in its canonical spelling. */
  function Said(claim: Event, name: Name): Text {
    if name == ClaimedAt then FormatInstant(ParseInstant(First(claim, ClaimedAt))) else First(claim, name)
  }

  /** A renewal fits a claim exactly when it gives a new lease and repeats what it says of the claim at all. */
  lemma FitsExactly(claim: Event, e: Event)
    ensures Fits(Opened(claim), e) <==>
            && !Repeats(e) && KindOf(e.header) == Renew && ParseInstant(First(e, LeaseUntil)).Some?
            && forall name :: Immutable(name) ==> First(e, name) == BLANK || First(e, name) == Said(claim, name)
  {
    assert forall name :: Immutable(name) ==> Held(Opened(claim), name) == Said(claim, name);
  }

  // ---- What is reported --------------------------------------------------------------------------

  /** The event does what its header asks: it opens a complete claim, renews a run that it fits, or releases one. */
  predicate Obeyed(l: Ledger, e: Event) {
    var id := First(e, RunId);
    && !Repeats(e) && id != BLANK
    && match KindOf(e.header)
       case Claim => id !in l.runs && CompleteClaim(e)
       case Renew => id in l.runs && l.runs[id].latest != Released && Fits(l.runs[id], e)
       case Release => id in l.runs
  }

  /** An event is reported exactly when it does not do what its header asks. */
  lemma ReportedExactly(l: Ledger, e: Event)
    ensures Problems(l, e) == [] <==> Obeyed(l, e)
  {
    ParsedIsStamp(First(e, LeaseUntil));
    ParsedIsStamp(First(e, ClaimedAt));
  }

  lemma ParsedIsStamp(t: Text)
    ensures ParseInstant(t).Some? ==> t != BLANK
  {
  }

  predicate Reports(s: seq<Problem>, kind: ProblemKind) { exists i :: 0 <= i < |s| && s[i].kind == kind }

  lemma ReportsJoin(a: seq<Problem>, b: seq<Problem>, kind: ProblemKind)
    ensures Reports(a + b, kind) <==> Reports(a, kind) || Reports(b, kind)
  {
    var all := a + b;
    assert forall i :: 0 <= i < |a| ==> all[i] == a[i];
    if Reports(b, kind) {
      var i :| 0 <= i < |b| && b[i].kind == kind;
      assert all[|a| + i] == b[i];
    }
    if Reports(all, kind) && !Reports(a, kind) {
      var i :| 0 <= i < |all| && all[i].kind == kind;
      assert b[i - |a|] == all[i];
    }
  }

  lemma ClaimReportsOf(e: Event, id: Text, kind: ProblemKind)
    ensures Reports(ClaimProblems(e, id), kind) <==>
            || (kind == MissingClaimFields && IdentityMissing(e))
            || Reports(StampProblem(First(e, LeaseUntil), MissingLease, InvalidLease, id), kind)
            || Reports(StampProblem(First(e, ClaimedAt), MissingClaimedAt, InvalidClaimedAt, id), kind)
  {
    var fields := if IdentityMissing(e) then [Problem(MissingClaimFields, Some(id))] else [];
    var lease := StampProblem(First(e, LeaseUntil), MissingLease, InvalidLease, id);
    var claimed := StampProblem(First(e, ClaimedAt), MissingClaimedAt, InvalidClaimedAt, id);
    ReportsJoin(fields, lease, kind);
    ReportsJoin(fields + lease, claimed, kind);
    OnlyReport(Problem(MissingClaimFields, Some(id)));
  }

  /** What can be wrong with a first claim. */
  predicate Lacks(e: Event, kind: ProblemKind) {
    match kind
    case MissingClaimFields => IdentityMissing(e)
    case MissingLease => First(e, LeaseUntil) == BLANK
    case InvalidLease => First(e, LeaseUntil) != BLANK && ParseInstant(First(e, LeaseUntil)).None?
    case MissingClaimedAt => First(e, ClaimedAt) == BLANK
    case InvalidClaimedAt => First(e, ClaimedAt) != BLANK && ParseInstant(First(e, ClaimedAt)).None?
    case _ => false
  }

  /** What is wrong with a claim is reported item by item. */
  lemma ClaimReports(e: Event, id: Text, kind: ProblemKind)
    ensures Reports(ClaimProblems(e, id), kind) <==> Lacks(e, kind)
  {
    ClaimReportsOf(e, id, kind);
    StampReports(First(e, LeaseUntil), MissingLease, InvalidLease, id);
    StampReports(First(e, ClaimedAt), MissingClaimedAt, InvalidClaimedAt, id);
  }

  lemma StampReports(t: Text, missing: ProblemKind, invalid: ProblemKind, id: Text)
    requires missing != invalid
    ensures var s := StampProblem(t, missing, invalid, id);
            && (Reports(s, missing) <==> t == BLANK)
            && (Reports(s, invalid) <==> t != BLANK && ParseInstant(t).None?)
            && (forall kind :: kind != missing && kind != invalid ==> !Reports(s, kind))
            && forall i :: 0 <= i < |s| ==> s[i].run == Some(id)
  {
    var s := StampProblem(t, missing, invalid, id);
    if s != [] { assert s[0] in s; }
  }

  lemma OnlyReport(p: Problem)
    ensures forall kind :: Reports([p], kind) <==> kind == p.kind
  {
    assert [p][0] == p;
  }

  lemma RenewReports(run: Run, e: Event, id: Text)
    ensures var s := RenewProblems(run, e, id);
            && (Reports(s, RenewAfterRelease) <==> run.latest == Released)
            && (Reports(s, RenewIdentityConflict) <==>
                run.latest != Released && ParseInstant(First(e, LeaseUntil)).Some? && Conflicts(run, e))
            && forall kind :: Reports(s, kind) ==>
                 kind in {RenewAfterRelease, MissingLease, InvalidLease, RenewIdentityConflict}
  {
    OnlyReport(Problem(RenewAfterRelease, Some(id)));
    OnlyReport(Problem(RenewIdentityConflict, Some(id)));
    StampReports(First(e, LeaseUntil), MissingLease, InvalidLease, id);
  }

  /** The reasons that concern the run rather than its fields. */
  predicate RunReason(kind: ProblemKind) {
    kind in {DuplicateField, MissingRunId, DuplicateClaim, RenewWithoutClaim, ReleaseWithoutClaim, RenewAfterRelease,
             RenewIdentityConflict}
  }

  /** When a reason that concerns the run applies. */
  predicate Applies(l: Ledger, e: Event, why: ProblemKind) {
    var id, kind := First(e, RunId), KindOf(e.header);
    match why
    case DuplicateField => Repeats(e)
    case MissingRunId => !Repeats(e) && id == BLANK
    case DuplicateClaim => !Repeats(e) && id != BLANK && kind == Claim && id in l.runs
    case RenewWithoutClaim => !Repeats(e) && id != BLANK && kind == Renew && id !in l.runs
    case ReleaseWithoutClaim => !Repeats(e) && id != BLANK && kind == Release && id !in l.runs
    case RenewAfterRelease =>
      !Repeats(e) && id != BLANK && kind == Renew && id in l.runs && l.runs[id].latest == Released
    case RenewIdentityConflict =>
      && !Repeats(e) && id != BLANK && kind == Renew && id in l.runs && l.runs[id].latest != Released
      && ParseInstant(First(e, LeaseUntil)).Some? && Conflicts(l.runs[id], e)
    case _ => false
  }

  /** Each such reason is given exactly when it applies. */
  lemma ReasonsExactly(l: Ledger, e: Event, why: ProblemKind)
    requires RunReason(why)
    ensures Reports(Problems(l, e), why) <==> Applies(l, e, why)
  {
    var id := First(e, RunId);
    if !Repeats(e) && id != BLANK && KindOf(e.header) == Claim && id !in l.runs {
      ClaimReports(e, id, why);
    } else if !Repeats(e) && id != BLANK && KindOf(e.header) == Renew && id in l.runs {
      RenewReports(l.runs[id], e, id);
    } else if Problems(l, e) != [] {
      OnlyReport(Problems(l, e)[0]);
      assert Problems(l, e) == [Problems(l, e)[0]];
    }
  }

  /** An event that takes the standing of a run from it is reported. */
  lemma LossIsReported(l: Ledger, e: Event, id: Text)
    requires id in Step(l, e).runs && Step(l, e).runs[id].ambiguous
    requires id in l.runs ==> !l.runs[id].ambiguous
    ensures Problems(l, e) != []
  {
    ReportedExactly(l, e);
  }

  // ---- The imperative fold --------------------------------------------------------------------

  method FoldRepeats(runs: map<Text, Run>, e: Event) returns (next: map<Text, Run>)
    ensures next == ConfuseAll(runs, Mentions(e))
  {
    next := runs;
    var ids := Mentions(e);
    for i := 0 to |ids|
      invariant next == ConfuseAll(runs, ids[..i])
    {
      if ids[i] in next { next := next[ids[i] := Confuse(next[ids[i]])]; }
    }
    assert ids[..|ids|] == ids;
  }

  method FindConflict(run: Run, e: Event) returns (found: bool)
    ensures found <==> Conflicts(run, e)
  {
    found := false;
    for i := 0 to |IMMUTABLE|
      invariant found <==>
                exists name :: name in IMMUTABLE[..i] && First(e, name) != BLANK && First(e, name) != Held(run, name)
    {
      var supplied := First(e, IMMUTABLE[i]);
      if supplied != BLANK && supplied != Held(run, IMMUTABLE[i]) { found := true; }
      assert IMMUTABLE[..i + 1] == IMMUTABLE[..i] + [IMMUTABLE[i]];
    }
    assert IMMUTABLE[..|IMMUTABLE|] == IMMUTABLE;
  }

  method FoldRenewal(run: Run, e: Event, id: Text) returns (next: Run, problems: seq<Problem>)
    requires !Repeats(e) && KindOf(e.header) == Renew
    ensures Some(next) == StepRun(Some(run), e) && problems == RenewProblems(run, e, id)
  {
    if run.latest == Released {
      return Confuse(run), [Problem(RenewAfterRelease, Some(id))];
    }
    var lease := First(e, LeaseUntil);
    if lease == BLANK { return Confuse(run), [Problem(MissingLease, Some(id))]; }
    var leaseAt := ParseInstant(lease);
    if leaseAt.None? { return Confuse(run), [Problem(InvalidLease, Some(id))]; }
    var conflict := FindConflict(run, e);
    if conflict { return Confuse(run), [Problem(RenewIdentityConflict, Some(id))]; }
    return run.(lease := leaseAt, latest := Renewed), [];
  }

  method ReadStamp(t: Text, missing: ProblemKind, invalid: ProblemKind, id: Text)
    returns (at: Option<Instant>, problems: seq<Problem>)
    ensures at == ParseInstant(t) && problems == StampProblem(t, missing, invalid, id)
  {
    if t == BLANK { return None, [Problem(missing, Some(id))]; }
    at := ParseInstant(t);
    problems := if at.None? then [Problem(invalid, Some(id))] else [];
  }

  method FoldClaim(e: Event, id: Text) returns (run: Run, problems: seq<Problem>)
    ensures run == Opened(e) && problems == ClaimProblems(e, id)
  {
    problems := if IdentityMissing(e) then [Problem(MissingClaimFields, Some(id))] else [];
    var lease, leaseProblems := ReadStamp(First(e, LeaseUntil), MissingLease, InvalidLease, id);
    var claimedAt, claimedProblems := ReadStamp(First(e, ClaimedAt), MissingClaimedAt, InvalidClaimedAt, id);
    var ambiguous := IdentityMissing(e) || lease.None? || claimedAt.None?;
    problems := problems + leaseProblems + claimedProblems;
    run := Run(First(e, TaskId), First(e, SemanticKey), First(e, AccountId), First(e, ClaimMode),
               First(e, IntendedSlice), claimedAt, lease, Claimed, ambiguous);
  }

  method FoldEvent(l: Ledger, e: Event) returns (next: Ledger, problems: seq<Problem>)
    ensures next == Step(l, e) && problems == Problems(l, e)
  {
    if Repeats(e) {
      var ids := Mentions(e);
      var runs := FoldRepeats(l.runs, e);
      return l.(runs := runs), [Problem(DuplicateField, if |ids| == 1 then Some(ids[0]) else None)];
    }
    var id := First(e, RunId);
    if id == BLANK { return l, [Problem(MissingRunId, None)]; }
    if KindOf(e.header) == Claim {
      if id in l.runs {
        return l.(runs := l.runs[id := Confuse(l.runs[id])]), [Problem(DuplicateClaim, Some(id))];
      }
      var run, found := FoldClaim(e, id);
      return Ledger(l.runs[id := run], l.order + [id]), found;
    }
    if KindOf(e.header) == Renew {
      if id !in l.runs { return l, [Problem(RenewWithoutClaim, Some(id))]; }
      var run, found := FoldRenewal(l.runs[id], e, id);
      return l.(runs := l.runs[id := run]), found;
    }
    if id !in l.runs { return l, [Problem(ReleaseWithoutClaim, Some(id))]; }
    return l.(runs := l.runs[id := l.runs[id].(latest := Released)]), [];
  }

  lemma FoldSnoc(l: Ledger, es: seq<Event>, i: nat)
    requires i < |es|
    ensures Fold(l, es[..i + 1]) == Step(Fold(l, es[..i]), es[i])
    ensures FoldProblems(l, es[..i + 1]) == FoldProblems(l, es[..i]) + Problems(Fold(l, es[..i]), es[i])
  {
    assert es[..i + 1][..i] == es[..i];
  }

  method FoldBody(l: Ledger, lines: seq<Line>) returns (next: Ledger, problems: seq<Problem>)
    ensures next == Fold(l, Events(lines)) && problems == FoldProblems(l, Events(lines))
  {
    next, problems := l, [];
    var events := ExtractEvents(lines);
    for i := 0 to |events|
      invariant next == Fold(l, events[..i])
      invariant problems == FoldProblems(l, events[..i])
    {
      FoldSnoc(l, events, i);
      var found: seq<Problem>;
      next, found := FoldEvent(next, events[i]);
      problems := problems + found;
    }
    assert events[..|events|] == events;
  }

  method FoldComment(l: Ledger, ghost before: seq<Comment>, lastId: Option<int>, c: Comment)
    returns (next: Ledger, found: seq<Problem>, backwards: bool)
    requires l == After(before) && lastId == LastId(before)
    ensures next == Fold(l, BodyEvents(c)) && found == CommentProblems(before, c)
    ensures backwards == OutOfOrder(before, c)
  {
    backwards := c.id.Some? && lastId.Some? && c.id.value < lastId.value;
    found := if backwards then [Problem(CommentOrder, None)] else [];
    if c.body.None? { return l, found + [Problem(CommentBody, None)], backwards; }
    var more: seq<Problem>;
    next, more := FoldBody(l, c.body.value);
    found := found + more;
  }

  lemma CommentSnoc(cs: seq<Comment>, i: nat)
    requires i < |cs|
    ensures After(cs[..i + 1]) == Fold(After(cs[..i]), BodyEvents(cs[i]))
    ensures Malformed(cs[..i + 1]) == Malformed(cs[..i]) + CommentProblems(cs[..i], cs[i])
    ensures LastId(cs[..i + 1]) == if cs[i].id.Some? then cs[i].id else LastId(cs[..i])
  {
    assert cs[..i + 1][..i] == cs[..i];
    FoldAppend(EMPTY, AllEvents(cs[..i]), BodyEvents(cs[i]));
  }

  /** The loop state after a prefix of the comments. */
  predicate Folded(cs: seq<Comment>, l: Ledger, malformed: seq<Problem>, lastId: Option<int>, disordered: bool) {
    l == After(cs) && malformed == Malformed(cs) && lastId == LastId(cs) && disordered == Disordered(cs)
  }

  lemma FoldedSnoc(
    cs: seq<Comment>, i: nat, l: Ledger, malformed: seq<Problem>, lastId: Option<int>, disordered: bool, next: Ledger,
    found: seq<Problem>, backwards: bool)
    requires i < |cs| && Folded(cs[..i], l, malformed, lastId, disordered)
    requires next == Fold(l, BodyEvents(cs[i])) && found == CommentProblems(cs[..i], cs[i])
    requires backwards == OutOfOrder(cs[..i], cs[i])
    ensures var newId := if cs[i].id.Some? then cs[i].id else lastId;
            Folded(cs[..i + 1], next, malformed + found, newId, disordered || backwards)
  {
    CommentSnoc(cs, i);
    assert cs[..i + 1][..i] == cs[..i];
  }

  /** The whole fold: one pass over the comments, with the server-order check. */
  method FoldComments(cs: seq<Comment>) returns (l: Ledger, malformed: seq<Problem>, disordered: bool)
    ensures l == After(cs) && malformed == Malformed(cs) && disordered == Disordered(cs)
  {
    l, malformed, disordered := EMPTY, [], false;
    var lastId: Option<int> := None;
    for i := 0 to |cs|
      invariant Folded(cs[..i], l, malformed, lastId, disordered)
    {
      var next, found, backwards := FoldComment(l, cs[..i], lastId, cs[i]);
      FoldedSnoc(cs, i, l, malformed, lastId, disordered, next, found, backwards);
      l, malformed := next, malformed + found;
      if backwards { disordered := true; }
      if cs[i].id.Some? { lastId := cs[i].id; }
    }
    assert cs[..|cs|] == cs;
  }
}
