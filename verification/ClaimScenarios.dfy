/** Concrete ledgers that show where a guarantee of the claim ledger stops. */
module ClaimScenarios {
  import opened Common
  import opened ClaimLedger
  import opened ClaimResolution

  function ClaimLines(id: Text, lease: Instant): seq<Line> {
    [HeaderLine(ClaimV1)] + WhoLines(id) + WhatLines(lease)
  }

  function WhoLines(id: Text): seq<Line> {
    [FieldLine(RunId, id), FieldLine(TaskId, Plain("t")), FieldLine(SemanticKey, Plain("k")),
     FieldLine(AccountId, Plain("a"))]
  }

  function WhatLines(lease: Instant): seq<Line> {
    [FieldLine(ClaimMode, SOURCE_MUTATION), FieldLine(IntendedSlice, Plain("s")), FieldLine(ClaimedAt, Canonical(0)),
     FieldLine(LeaseUntil, Canonical(lease))]
  }

  function RenewLines(id: Text, lease: Instant): seq<Line> {
    [HeaderLine(RenewV1), FieldLine(RunId, id), FieldLine(LeaseUntil, Canonical(lease))]
  }

  lemma {:induction false} OneBlock(h: Header, block: seq<Line>)
    requires forall i :: 0 <= i < |block| ==> block[i].FieldLine?
    ensures Events([HeaderLine(h)] + block) == [Fill(Event(h, map[]), block)]
  {
    FieldsOnly(block);
    assert ([HeaderLine(h)] + block)[1..] == block;
  }

  lemma {:induction false} FieldsOnly(block: seq<Line>)
    requires forall i :: 0 <= i < |block| ==> block[i].FieldLine?
    ensures Block(block) == block && Events(block) == []
  {
    if block != [] { FieldsOnly(block[1..]); }
  }

  lemma FieldValuesAt(lines: seq<Line>, i: nat, name: Name)
    requires i < |lines|
    ensures FieldValues(lines[i..], name) ==
            (if lines[i].FieldLine? && lines[i].name == name then [lines[i].value] else [])
            + FieldValues(lines[i + 1..], name)
  {
    assert lines[i..][1..] == lines[i + 1..];
  }

  function ClaimField(id: Text, lease: Instant, name: Name): Option<Text> {
    match name
    case RunId => Some(id)
    case TaskId => Some(Plain("t"))
    case SemanticKey => Some(Plain("k"))
    case AccountId => Some(Plain("a"))
    case ClaimMode => Some(SOURCE_MUTATION)
    case IntendedSlice => Some(Plain("s"))
    case ClaimedAt => Some(Canonical(0))
    case LeaseUntil => Some(Canonical(lease))
    case Other(_) => None
  }

  function ValueOf(line: Line, name: Name): seq<Text> {
    if line.FieldLine? && line.name == name then [line.value] else []
  }

  lemma FirstValue(line: Line, rest: seq<Line>, name: Name)
    ensures FieldValues([line] + rest, name) == ValueOf(line, name) + FieldValues(rest, name)
  {
    assert ([line] + rest)[1..] == rest;
  }

  lemma FourValues(a: Line, b: Line, c: Line, d: Line, name: Name)
    ensures FieldValues([a] + ([b] + ([c] + ([d] + []))), name)
            == ValueOf(a, name) + (ValueOf(b, name) + (ValueOf(c, name) + (ValueOf(d, name) + [])))
  {
    FirstValue(a, [b] + ([c] + ([d] + [])), name);
    FirstValue(b, [c] + ([d] + []), name);
    FirstValue(c, [d] + [], name);
    FirstValue(d, [], name);
  }

  lemma {:induction false} FieldValuesAppend(a: seq<Line>, b: seq<Line>, name: Name)
    ensures FieldValues(a + b, name) == FieldValues(a, name) + FieldValues(b, name)
  {
    if a == [] {
      assert a + b == b;
    } else {
      FieldValuesAppend(a[1..], b, name);
      assert a == [a[0]] + a[1..] && a + b == [a[0]] + (a[1..] + b);
      FirstValue(a[0], a[1..], name);
      FirstValue(a[0], a[1..] + b, name);
      Associative(ValueOf(a[0], name), FieldValues(a[1..], name), FieldValues(b, name));
    }
  }

  lemma WhoFields(id: Text, name: Name)
    ensures FieldValues(WhoLines(id), name) ==
            match name
            case RunId => [id]
            case TaskId => [Plain("t")]
            case SemanticKey => [Plain("k")]
            case AccountId => [Plain("a")]
            case _ => []
  {
    var a, b, c, d := WhoLines(id)[0], WhoLines(id)[1], WhoLines(id)[2], WhoLines(id)[3];
    assert WhoLines(id) == [a] + ([b] + ([c] + ([d] + [])));
    FourValues(a, b, c, d, name);
  }

  lemma WhatFields(lease: Instant, name: Name)
    ensures FieldValues(WhatLines(lease), name) ==
            match name
            case ClaimMode => [SOURCE_MUTATION]
            case IntendedSlice => [Plain("s")]
            case ClaimedAt => [Canonical(0)]
            case LeaseUntil => [Canonical(lease)]
            case _ => []
  {
    var a, b, c, d := WhatLines(lease)[0], WhatLines(lease)[1], WhatLines(lease)[2], WhatLines(lease)[3];
    assert WhatLines(lease) == [a] + ([b] + ([c] + ([d] + [])));
    FourValues(a, b, c, d, name);
  }

  lemma ClaimFields(id: Text, lease: Instant, name: Name)
    ensures FieldValues(ClaimLines(id, lease)[1..], name) ==
            if ClaimField(id, lease, name).Some? then [ClaimField(id, lease, name).value] else []
  {
    assert ClaimLines(id, lease)[1..] == WhoLines(id) + WhatLines(lease);
    FieldValuesAppend(WhoLines(id), WhatLines(lease), name);
    WhoFields(id, name);
    WhatFields(lease, name);
  }

  function ClaimOf(id: Text, lease: Instant): Event { Fill(Event(ClaimV1, map[]), ClaimLines(id, lease)[1..]) }

  function RenewOf(id: Text, lease: Instant): Event { Fill(Event(RenewV1, map[]), RenewLines(id, lease)[1..]) }

  lemma ClaimFieldAt(id: Text, lease: Instant, name: Name)
    ensures Values(ClaimOf(id, lease), name) ==
            if ClaimField(id, lease, name).Some? then [ClaimField(id, lease, name).value] else []
    ensures ClaimOf(id, lease).header == ClaimV1
  {
    FillCollects(Event(ClaimV1, map[]), ClaimLines(id, lease)[1..], name);
    ClaimFields(id, lease, name);
  }

  lemma ClaimEvent(id: Text, lease: Instant)
    requires id != BLANK
    ensures Events(ClaimLines(id, lease)) == [ClaimOf(id, lease)]
    ensures var e := ClaimOf(id, lease);
            && CleanClaim(e) && CompleteClaim(e) && First(e, RunId) == id
            && Opened(e).mode == SOURCE_MUTATION && Opened(e).key == Plain("k") && Opened(e).lease == Some(lease)
  {
    var lines := ClaimLines(id, lease);
    var e := ClaimOf(id, lease);
    assert lines == [HeaderLine(ClaimV1)] + lines[1..];
    OneBlock(ClaimV1, lines[1..]);
    forall name ensures Values(e, name) ==
      if ClaimField(id, lease, name).Some? then [ClaimField(id, lease, name).value] else []
    {
      ClaimFieldAt(id, lease, name);
    }
    ClaimFieldAt(id, lease, RunId);
    assert forall name :: name in e.values ==> e.values[name] == Values(e, name);
  }

  lemma RenewFieldAt(id: Text, lease: Instant, name: Name)
    ensures Values(RenewOf(id, lease), name) ==
            if name == RunId then [id] else if name == LeaseUntil then [Canonical(lease)] else []
    ensures RenewOf(id, lease).header == RenewV1
  {
    var lines := RenewLines(id, lease);
    FillCollects(Event(RenewV1, map[]), lines[1..], name);
    FieldValuesAt(lines, 2, name);
    assert lines[3..] == [];
    FieldValuesAt(lines, 1, name);
  }

  lemma RenewEvent(id: Text, lease: Instant)
    requires id != BLANK
    ensures Events(RenewLines(id, lease)) == [RenewOf(id, lease)] && !Repeats(RenewOf(id, lease))
    ensures First(RenewOf(id, lease), RunId) == id && First(RenewOf(id, lease), LeaseUntil) == Canonical(lease)
    ensures RenewOf(id, lease).header == RenewV1
    ensures forall name :: name != RunId && name != LeaseUntil ==> First(RenewOf(id, lease), name) == BLANK
  {
    var lines := RenewLines(id, lease);
    var e := RenewOf(id, lease);
    assert lines == [HeaderLine(RenewV1)] + lines[1..];
    OneBlock(RenewV1, lines[1..]);
    forall name ensures Values(e, name) ==
      if name == RunId then [id] else if name == LeaseUntil then [Canonical(lease)] else []
    {
      RenewFieldAt(id, lease, name);
    }
    RenewFieldAt(id, lease, RunId);
    assert forall name :: name in e.values ==> e.values[name] == Values(e, name);
  }

  // ---- One run claims with a lease until `s`, then another until `t`; the first may renew until `u` --------

  function ClaimComment(id: Text, lease: Instant): Comment { Comment(None, Some(ClaimLines(id, lease))) }

  function TwoClaims(a: Text, s: Instant, b: Text, t: Instant): seq<Comment> {
    [ClaimComment(a, s), ClaimComment(b, t)]
  }

  function Revival(a: Text, u: Instant): seq<Comment> { [Comment(None, Some(RenewLines(a, u)))] }

  lemma {:induction false} Unnumbered(cs: seq<Comment>)
    requires forall i :: 0 <= i < |cs| ==> cs[i].id.None?
    ensures !Disordered(cs)
  {
    if cs != [] { Unnumbered(cs[..|cs| - 1]); }
  }

  lemma OneEventComment(cs: seq<Comment>, c: Comment, e: Event)
    requires BodyEvents(c) == [e]
    ensures AllEvents(cs + [c]) == AllEvents(cs) + [e]
    ensures After(cs + [c]) == Step(After(cs), e)
  {
    assert (cs + [c])[..|cs|] == cs;
    assert (AllEvents(cs) + [e])[..|AllEvents(cs)|] == AllEvents(cs);
  }

  /** A first claim of a run opens it at the end of the order. */
  lemma ClaimStep(l: Ledger, id: Text, lease: Instant)
    requires id != BLANK && id !in l.runs
    ensures Step(l, ClaimOf(id, lease)) == Ledger(l.runs[id := Opened(ClaimOf(id, lease))], l.order + [id])
  {
    ClaimEvent(id, lease);
  }

  lemma ClaimCommentStep(cs: seq<Comment>, id: Text, lease: Instant)
    requires id != BLANK && id !in After(cs).runs
    ensures var l := After(cs);
            After(cs + [ClaimComment(id, lease)])
            == Ledger(l.runs[id := Opened(ClaimOf(id, lease))], l.order + [id])
  {
    ClaimEvent(id, lease);
    OneEventComment(cs, ClaimComment(id, lease), ClaimOf(id, lease));
    ClaimStep(After(cs), id, lease);
  }

  lemma TwoLedger(a: Text, s: Instant, b: Text, t: Instant)
    requires a != BLANK && b != BLANK && a != b
    ensures After(TwoClaims(a, s, b, t)) ==
            Ledger(map[a := Opened(ClaimOf(a, s)), b := Opened(ClaimOf(b, t))], [a, b])
  {
    var none: seq<Comment> := [];
    var one := [ClaimComment(a, s)];
    assert After(none) == EMPTY;
    assert none + one == one && TwoClaims(a, s, b, t) == one + [ClaimComment(b, t)];
    ClaimCommentStep(none, a, s);
    ClaimCommentStep(one, b, t);
  }

  lemma TwoRoster(a: Text, s: Instant, b: Text, t: Instant)
    requires a != BLANK && b != BLANK && a != b
    ensures RosterOf(TwoClaims(a, s, b, t))
            == [Public(a, 0, Opened(ClaimOf(a, s))), Public(b, 1, Opened(ClaimOf(b, t)))]
  {
    TwoLedger(a, s, b, t);
    Unnumbered(TwoClaims(a, s, b, t));
  }

  lemma RenewStep(a: Text, s: Instant, u: Instant)
    requires a != BLANK
    ensures StepRun(Some(Opened(ClaimOf(a, s))), RenewOf(a, u)) ==
            Some(Opened(ClaimOf(a, s)).(lease := Some(u), latest := Renewed))
  {
    ClaimEvent(a, s);
    RenewEvent(a, u);
    assert !Conflicts(Opened(ClaimOf(a, s)), RenewOf(a, u));
  }

  /** A renewal of the first of two runs touches that run only. */
  lemma RenewFirst(a: Text, s: Instant, b: Text, other: Run, u: Instant)
    requires a != BLANK && a != b
    ensures Step(Ledger(map[a := Opened(ClaimOf(a, s)), b := other], [a, b]), RenewOf(a, u)) ==
            Ledger(map[a := Opened(ClaimOf(a, s)).(lease := Some(u), latest := Renewed), b := other], [a, b])
  {
    RenewStep(a, s, u);
    RenewEvent(a, u);
  }

  lemma RevivedLedger(a: Text, s: Instant, b: Text, t: Instant, u: Instant)
    requires a != BLANK && b != BLANK && a != b
    ensures After(TwoClaims(a, s, b, t) + Revival(a, u)) ==
            Ledger(map[a := Opened(ClaimOf(a, s)).(lease := Some(u), latest := Renewed), b := Opened(ClaimOf(b, t))],
                   [a, b])
  {
    var c := Comment(None, Some(RenewLines(a, u)));
    RenewEvent(a, u);
    assert Revival(a, u) == [c] && BodyEvents(c) == [RenewOf(a, u)];
    OneEventComment(TwoClaims(a, s, b, t), c, RenewOf(a, u));
    TwoLedger(a, s, b, t);
    RenewFirst(a, s, b, Opened(ClaimOf(b, t)), u);
  }

  lemma RevivedRoster(a: Text, s: Instant, b: Text, t: Instant, u: Instant)
    requires a != BLANK && b != BLANK && a != b
    ensures RosterOf(TwoClaims(a, s, b, t) + Revival(a, u)) ==
            [Public(a, 0, Opened(ClaimOf(a, s)).(lease := Some(u), latest := Renewed)),
             Public(b, 1, Opened(ClaimOf(b, t)))]
  {
    RevivedLedger(a, s, b, t, u);
    Unnumbered(TwoClaims(a, s, b, t) + Revival(a, u));
  }

  lemma SecondAdmitted(r: seq<Public>, malformed: seq<Problem>, now: Instant)
    requires |r| == 2 && Ordered(r) && LiveSource(r[1], now)
    ensures r[1] in ResolveRoster(r, malformed, now, Some(1)).admitted <==> !LiveSource(r[0], now)
    ensures r[1] in ResolveRoster(r, malformed, now, Some(1)).live
  {
    assert r[..1] == [r[0]] && r[..1][..0] == [];
    AdmittedByRank(r, malformed, now, 1, 1);
  }

  lemma FreshRuns(id: Text, lease: Instant, now: Instant)
    requires id != BLANK
    ensures LiveSource(Public(id, 0, Opened(ClaimOf(id, lease))), now) <==> now < lease
    ensures LiveSource(Public(id, 1, Opened(ClaimOf(id, lease))), now) <==> now < lease
  {
    ClaimEvent(id, lease);
  }

  /** A lapsed lease, another run admitted, the lapsed one renewed: the admitted run is live and yet displaced. */
  lemma RevivalDisplaces(a: Text, s: Instant, b: Text, t: Instant, u: Instant, now: Instant, later: Instant)
    requires a != BLANK && b != BLANK && a != b && s <= now <= later < t && later < u
    ensures var cs, more := TwoClaims(a, s, b, t), Revival(a, u);
            var bob := Public(b, 1, Opened(ClaimOf(b, t)));
            && bob in Resolve(cs, now, Some(1)).value.admitted
            && bob in Resolve(cs + more, later, Some(1)).value.live
            && bob !in Resolve(cs + more, later, Some(1)).value.admitted
  {
    DisplacedBefore(a, s, b, t, now);
    DisplacedAfter(a, s, b, t, u, later);
  }

  lemma SecondOf(cs: seq<Comment>, first: Public, second: Public, now: Instant)
    requires RosterOf(cs) == [first, second] && first.order < second.order && LiveSource(second, now)
    ensures second in Resolve(cs, now, Some(1)).value.admitted <==> !LiveSource(first, now)
    ensures second in Resolve(cs, now, Some(1)).value.live
  {
    SecondAdmitted([first, second], Malformed(cs), now);
  }

  lemma DisplacedBefore(a: Text, s: Instant, b: Text, t: Instant, now: Instant)
    requires a != BLANK && b != BLANK && a != b && s <= now < t
    ensures Public(b, 1, Opened(ClaimOf(b, t))) in Resolve(TwoClaims(a, s, b, t), now, Some(1)).value.admitted
  {
    TwoRoster(a, s, b, t);
    FreshRuns(a, s, now);
    FreshRuns(b, t, now);
    SecondOf(TwoClaims(a, s, b, t), Public(a, 0, Opened(ClaimOf(a, s))), Public(b, 1, Opened(ClaimOf(b, t))), now);
  }

  lemma RevivedIsLive(a: Text, s: Instant, u: Instant, later: Instant)
    requires a != BLANK && later < u
    ensures LiveSource(Public(a, 0, Opened(ClaimOf(a, s)).(lease := Some(u), latest := Renewed)), later)
  {
    ClaimEvent(a, s);
  }

  lemma DisplacedAfter(a: Text, s: Instant, b: Text, t: Instant, u: Instant, later: Instant)
    requires a != BLANK && b != BLANK && a != b && later < t && later < u
    ensures var r := Resolve(TwoClaims(a, s, b, t) + Revival(a, u), later, Some(1)).value;
            Public(b, 1, Opened(ClaimOf(b, t))) in r.live && Public(b, 1, Opened(ClaimOf(b, t))) !in r.admitted
  {
    var first := Public(a, 0, Opened(ClaimOf(a, s)).(lease := Some(u), latest := Renewed));
    var second := Public(b, 1, Opened(ClaimOf(b, t)));
    RevivedRoster(a, s, b, t, u);
    RevivedIsLive(a, s, u, later);
    FreshRuns(b, t, later);
    SecondOf(TwoClaims(a, s, b, t) + Revival(a, u), first, second, later);
  }
}
