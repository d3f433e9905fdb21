/**
 * Outcome lineage bindings: wire payloads, compatibility, availability and as-of resolution.
 * A binding is an immutable lineage of revision identities beside a column that holds, for each
 * revision, the instant at which the product first knew it (or UNKNOWN).
 */
module OutcomeTrust {
  import opened Common

  datatype Identity = Identity(source: string, record: string)

  datatype RevisionId = RevisionId(number: int, id: string, sha: string)

  datatype Lineage = Lineage(
    identity: Identity, rootId: string, rootSha: string, revisions: seq<RevisionId>)

  type Times = seq<Option<Instant>>

  datatype BindingRecord = BindingRecord(lineage: Lineage, times: Times)

  type Binding = b: BindingRecord | |b.times| == |b.lineage.revisions|
    witness BindingRecord(Lineage(Identity("", ""), "", "", []), [])

  /** The answer of a resolution: one revision with the time at which it became known. */
  datatype Known = Known(revision: RevisionId, at: Instant)

  datatype TrustError =
    | MalformedLineage | MixedAvailability | AvailabilityResumes | AvailabilityBackwards
    | LineageConflict | StalePrefix | ClockNotAfterFence

  // ---- Well-formed lineages ---------------------------------------------------------------

  predicate Space(c: char) { c == ' ' || c == '\t' || c == '\n' || c == '\r' }

  predicate CanonicalText(s: string) { |s| > 0 && !Space(s[0]) && !Space(s[|s| - 1]) }

  predicate CanonicalDigest(s: string) {
    |s| == 64 && forall i :: 0 <= i < |s| ==> s[i] in "0123456789abcdef"
  }

  /** Everything the parser checks about a lineage apart from its availability times. */
  predicate LineageSound(l: Lineage) {
    && CanonicalText(l.identity.source) && CanonicalText(l.identity.record)
    && CanonicalText(l.rootId) && CanonicalDigest(l.rootSha)
    && |l.revisions| > 0
    && (forall i :: 0 <= i < |l.revisions| ==>
          && l.revisions[i].number == i + 1
          && CanonicalText(l.revisions[i].id) && CanonicalDigest(l.revisions[i].sha))
    && (forall i, j :: 0 <= i < j < |l.revisions| ==> l.revisions[i].id != l.revisions[j].id)
    && l.revisions[0].id == l.rootId && l.revisions[0].sha == l.rootSha
  }

  predicate AllKnown(times: Times) { forall i :: 0 <= i < |times| ==> times[i].Some? }

  predicate NoneKnown(times: Times) { forall i :: 0 <= i < |times| ==> times[i].None? }

  /** No time follows an UNKNOWN one. */
  predicate KnownPrefix(times: Times) {
    forall i, j :: 0 <= i < j < |times| && times[j].Some? ==> times[i].Some?
  }

  predicate NonDecreasing(times: Times) {
    forall i, j :: 0 <= i < j < |times| && times[i].Some? && times[j].Some? ==>
      times[i].value <= times[j].value
  }

  /** A non-decreasing known prefix followed by UNKNOWN. */
  predicate Timeline(times: Times) { KnownPrefix(times) && NonDecreasing(times) }

  /** What the durable-state parser lets through. */
  predicate Parseable(b: Binding) {
    LineageSound(b.lineage) && (AllKnown(b.times) || Timeline(b.times))
  }

  // ---- Wire payloads ----------------------------------------------------------------------

  /** The `first_available_at` key of one raw revision: absent, an instant, or not a timestamp. */
  datatype RawTime = Absent | Stamp(at: Instant) | Garbled

  datatype RawBindingRecord = RawBindingRecord(lineage: Lineage, times: seq<RawTime>)

  type RawBinding = r: RawBindingRecord | |r.times| == |r.lineage.revisions|
    witness RawBindingRecord(Lineage(Identity("", ""), "", "", []), [])

  function DecodeTime(t: RawTime): Option<Instant> {
    match t case Stamp(at) => Some(at) case _ => None
  }

  function DecodeTimes(raw: seq<RawTime>): (times: Times)
    ensures |times| == |raw|
    ensures forall i :: 0 <= i < |raw| ==> times[i] == DecodeTime(raw[i])
  {
    if raw == [] then [] else [DecodeTime(raw[0])] + DecodeTimes(raw[1..])
  }

  function EncodeTimes(times: Times): (raw: seq<RawTime>)
    ensures |raw| == |times|
    ensures forall i :: 0 <= i < |raw| ==>
              raw[i] == match times[i] case Some(at) => Stamp(at) case None => Absent
  {
    if times == [] then []
    else [match times[0] case Some(at) => Stamp(at) case None => Absent] + EncodeTimes(times[1..])
  }

  function Decode(raw: RawBinding): Binding { BindingRecord(raw.lineage, DecodeTimes(raw.times)) }

  /** The payload that is written for a binding. */
  function Payload(b: Binding): RawBinding { RawBindingRecord(b.lineage, EncodeTimes(b.times)) }

  predicate NoGarbled(raw: seq<RawTime>) { forall i :: 0 <= i < |raw| ==> !raw[i].Garbled? }

  predicate EveryPresent(raw: seq<RawTime>) { forall i :: 0 <= i < |raw| ==> !raw[i].Absent? }

  predicate EveryAbsent(raw: seq<RawTime>) { forall i :: 0 <= i < |raw| ==> raw[i].Absent? }

  /** The predecessor parser: availability for every revision or for none, in any order. */
  function OriginalParse(raw: RawBinding): Result<Binding, TrustError> {
    if !LineageSound(raw.lineage) || !NoGarbled(raw.times) then Err(MalformedLineage)
    else if EveryPresent(raw.times) || EveryAbsent(raw.times) then Ok(Decode(raw))
    else Err(MixedAvailability)
  }

  predicate GoesBackwards(raw: seq<RawTime>) {
    exists i, j :: 0 <= i < j < |raw| && raw[i].Stamp? && raw[j].Stamp? && raw[j].at < raw[i].at
  }

  predicate ResumesAfterUnknown(raw: seq<RawTime>) {
    exists i, j :: 0 <= i < j < |raw| && raw[i].Absent? && !raw[j].Absent?
  }

  /** The shape of a payload's column and the shape of the decoded one are the same facts. */
  lemma ColumnShape(raw: seq<RawTime>)
    ensures NoGarbled(raw) ==> (AllKnown(DecodeTimes(raw)) <==> EveryPresent(raw))
    ensures NoGarbled(raw) ==> (KnownPrefix(DecodeTimes(raw)) <==> !ResumesAfterUnknown(raw))
    ensures NonDecreasing(DecodeTimes(raw)) <==> !GoesBackwards(raw)
  {
    var ts := DecodeTimes(raw);
    forall i | 0 <= i < |ts| ensures ts[i] == DecodeTime(raw[i]) {}
  }

  /** Finds the first revision without a time and refuses a time after it. */
  method CheckUnknownSuffix(raw: seq<RawTime>) returns (ok: bool)
    requires !EveryPresent(raw)
    ensures ok <==> !ResumesAfterUnknown(raw)
  {
    var firstUnknown := 0;
    while !raw[firstUnknown].Absent?
      invariant 0 <= firstUnknown < |raw|
      invariant forall i :: 0 <= i < firstUnknown ==> !raw[i].Absent?
      decreases |raw| - firstUnknown
    {
      firstUnknown := firstUnknown + 1;
    }
    for rest := firstUnknown to |raw|
      invariant forall i :: firstUnknown <= i < rest ==> raw[i].Absent?
    {
      if !raw[rest].Absent? { return false; }
    }
    return true;
  }

  /** Rebuilds the availability column, refusing a time before its predecessor. */
  method RebuildTimes(raw: seq<RawTime>) returns (r: Result<Times, TrustError>)
    ensures r.Ok? <==> NoGarbled(raw) && !GoesBackwards(raw)
    ensures r.Ok? ==> r.value == DecodeTimes(raw)
  {
    var rebuilt: Times := [];
    var previousAvailable: Option<Instant> := None;
    ghost var at := 0;
    for index := 0 to |raw|
      invariant |rebuilt| == index
      invariant forall i :: 0 <= i < index ==> rebuilt[i] == DecodeTime(raw[i]) && !raw[i].Garbled?
      invariant !GoesBackwards(raw[..index])
      invariant forall i :: 0 <= i < index && raw[i].Stamp? ==>
                  previousAvailable.Some? && raw[i].at <= previousAvailable.value
      invariant previousAvailable.Some? ==> 0 <= at < index && raw[at] == Stamp(previousAvailable.value)
    {
      if raw[index].Garbled? { return Err(MalformedLineage); }
      if raw[index].Stamp? {
        if previousAvailable.Some? && raw[index].at < previousAvailable.value {
          return Err(AvailabilityBackwards);
        }
        previousAvailable := Some(raw[index].at);
        at := index;
      }
      rebuilt := rebuilt + [DecodeTime(raw[index])];
    }
    assert raw[..|raw|] == raw;
    assert rebuilt == DecodeTimes(raw);
    return Ok(rebuilt);
  }

  /**
   * The durable-state parser. It keeps the predecessor's answer on all-present and all-absent
   * payloads; in between it rebuilds the binding and checks the known prefix.
   */
  method ParsePayload(raw: RawBinding) returns (r: Result<Binding, TrustError>)
    ensures r.Ok? <==> NoGarbled(raw.times) && Parseable(Decode(raw))
    ensures r.Ok? ==> r.value == Decode(raw)
  {
    var original := OriginalParse(raw);
    if original.Ok? || |raw.times| == 0 || EveryPresent(raw.times) || EveryAbsent(raw.times) {
      return original;
    }
    ColumnShape(raw.times);
    var suffix := CheckUnknownSuffix(raw.times);
    if !suffix { return Err(AvailabilityResumes); }
    if !LineageSound(raw.lineage) { return Err(MalformedLineage); }
    var times := RebuildTimes(raw.times);
    if times.Err? { return Err(times.error); }
    return Ok(BindingRecord(raw.lineage, times.value));
  }

  lemma TimesRoundTrip(times: Times)
    ensures NoGarbled(EncodeTimes(times)) && DecodeTimes(EncodeTimes(times)) == times
  {
    var raw := EncodeTimes(times);
    forall i | 0 <= i < |times| ensures !raw[i].Garbled? && DecodeTimes(raw)[i] == times[i] {}
  }

  /** Writing any binding and parsing it back returns it exactly when the parser's rule holds of it. */
  lemma PayloadRoundTrip(b: Binding)
    ensures NoGarbled(Payload(b).times) && Decode(Payload(b)) == b
    ensures LineageSound(b.lineage) && Timeline(b.times) ==> Parseable(Decode(Payload(b)))
  {
    TimesRoundTrip(b.times);
  }

  /**
   * The parser refuses every payload whose availability resumes after an UNKNOWN revision, but
   * times that go backwards only when some revision is UNKNOWN: an otherwise sound payload with
   * every time present is accepted whatever its order.
   */
  lemma ParserRejectsExactly(raw: RawBinding)
    requires NoGarbled(raw.times) && LineageSound(raw.lineage)
    ensures ResumesAfterUnknown(raw.times) ==> !Parseable(Decode(raw))
    ensures GoesBackwards(raw.times) ==> (Parseable(Decode(raw)) <==> EveryPresent(raw.times))
    ensures !ResumesAfterUnknown(raw.times) && !GoesBackwards(raw.times) ==> Parseable(Decode(raw))
  {
    ColumnShape(raw.times);
  }

  /** A payload whose second time precedes its first, and which the parser nevertheless accepts. */
  lemma BackwardsTimesAccepted(digest: string) returns (raw: RawBinding)
    requires CanonicalDigest(digest)
    ensures GoesBackwards(raw.times) && NoGarbled(raw.times) && Parseable(Decode(raw))
  {
    var revisions := [RevisionId(1, "a", digest), RevisionId(2, "b", digest)];
    raw := RawBindingRecord(Lineage(Identity("s", "r"), "a", digest, revisions), [Stamp(2), Stamp(1)]);
    assert raw.times[1].at < raw.times[0].at;
  }

  // ---- As-of resolution -------------------------------------------------------------------

  /** Index `i` holds the last time that is at or before the cutoff. */
  predicate LastBy(times: Times, cutoff: Instant, i: nat) {
    && i < |times| && times[i].Some? && times[i].value <= cutoff
    && forall j :: i < j < |times| && times[j].Some? ==> cutoff < times[j].value
  }

  /** The number of revisions up to and including the last one known by the cutoff. */
  function KnownBy(times: Times, cutoff: Instant): (n: nat)
    ensures n <= |times|
    ensures n > 0 ==> LastBy(times, cutoff, n - 1)
    ensures n == 0 ==> forall j :: 0 <= j < |times| && times[j].Some? ==> cutoff < times[j].value
  {
    if times == [] then 0
    else
      var rest := KnownBy(times[1..], cutoff);
      assert forall j :: 0 < j < |times| ==> times[j] == times[1..][j - 1];
      if rest > 0 then rest + 1
      else if times[0].Some? && times[0].value <= cutoff then 1 else 0
  }

  lemma KnownByUnique(times: Times, cutoff: Instant, i: nat)
    requires LastBy(times, cutoff, i)
    ensures KnownBy(times, cutoff) == i + 1
  {
    assert KnownBy(times, cutoff) > 0;
  }

  function Answer(b: Binding, n: nat): Option<Known>
    requires n <= |b.times| && (n > 0 ==> b.times[n - 1].Some?)
  {
    if n == 0 then None else Some(Known(b.lineage.revisions[n - 1], b.times[n - 1].value))
  }

  /** An as-of answer, or the refusal of a lineage whose times are not a timeline. */
  function AsOf(b: Binding, cutoff: Instant): Result<Option<Known>, TrustError> {
    if !Parseable(b) then Err(MalformedLineage)
    else if !NonDecreasing(b.times) then Err(AvailabilityBackwards)
    else Ok(Answer(b, KnownBy(b.times, cutoff)))
  }

  method ResolveAsOf(b: Binding, cutoff: Instant) returns (r: Result<Option<Known>, TrustError>)
    ensures r == AsOf(b, cutoff)
  {
    PayloadRoundTrip(b);
    var canonical := ParsePayload(Payload(b));
    if canonical.Err? { return Err(MalformedLineage); }
    var n := ScanTimes(canonical.value.times, cutoff);
    if n.Err? { return Err(n.error); }
    return Ok(Answer(b, n.value));
  }

  /** The latest time among the first `i`, at index `at`, is also the largest of them. */
  predicate Latest(times: Times, i: nat, previous: Option<Instant>, at: nat)
    requires i <= |times|
  {
    && (previous.Some? ==> at < i && times[at] == previous)
    && forall j :: 0 <= j < i && times[j].Some? ==> previous.Some? && times[j].value <= previous.value
  }

  /** Of the first `i` revisions, exactly the first `resolved` reach up to the last one known by the cutoff. */
  predicate ResolvedUpTo(times: Times, i: nat, cutoff: Instant, resolved: nat)
    requires i <= |times|
  {
    && resolved <= i
    && (resolved > 0 ==> times[resolved - 1].Some? && times[resolved - 1].value <= cutoff)
    && forall j :: resolved <= j < i && times[j].Some? ==> cutoff < times[j].value
  }

  /** Extending an ordered prefix by a time that is not before its latest one keeps it ordered. */
  lemma OrderedPrefix(times: Times, i: nat, previous: Option<Instant>, at: nat)
    requires i < |times| && NonDecreasing(times[..i]) && Latest(times, i, previous, at)
    ensures NonDecreasing(times[..i + 1]) <==>
            (times[i].Some? && previous.Some? ==> previous.value <= times[i].value)
    ensures NonDecreasing(times) ==> NonDecreasing(times[..i + 1])
  {
    var now := times[..i + 1];
    assert forall j :: 0 <= j < i ==> times[..i][j] == now[j] == times[j];
    assert now[i] == times[i];
    if previous.Some? { assert now[at] == previous; }
  }

  lemma ResolvedIs(times: Times, cutoff: Instant, resolved: nat)
    requires ResolvedUpTo(times, |times|, cutoff, resolved)
    ensures KnownBy(times, cutoff) == resolved
  {
    if resolved > 0 { KnownByUnique(times, cutoff, resolved - 1); }
  }

  /** The column never resumes after an UNKNOWN revision. */
  predicate NeverResumes(times: Times) { forall i :: 0 <= i < |times| ==> OnlyUnknownAfter(times, i) }

  predicate OnlyUnknownAfter(times: Times, i: nat)
    requires i < |times|
  {
    times[i].None? ==> forall j :: i < j < |times| ==> times[j].None?
  }

  /** The resolution loop over one accepted column. */
  method ScanTimes(times: Times, cutoff: Instant) returns (r: Result<nat, TrustError>)
    requires AllKnown(times) || KnownPrefix(times)
    ensures r == if NonDecreasing(times) then Ok(KnownBy(times, cutoff)) else Err(AvailabilityBackwards)
  {
    var resolved := 0;
    var previousAvailable: Option<Instant> := None;
    ghost var at := 0;
    var sawUnknown := false;
    assert NeverResumes(times);
    for i := 0 to |times|
      invariant ResolvedUpTo(times, i, cutoff, resolved)
      invariant sawUnknown ==> forall j :: i <= j < |times| ==> times[j].None?
      invariant NonDecreasing(times[..i]) && Latest(times, i, previousAvailable, at)
    {
      OrderedPrefix(times, i, previousAvailable, at);
      if times[i].None? {
        assert OnlyUnknownAfter(times, i);
        sawUnknown := true;
      } else {
        // An accepted lineage never resumes after UNKNOWN, so the refusal for that is dead here.
        if sawUnknown { assert false; }
        if previousAvailable.Some? && times[i].value < previousAvailable.value {
          return Err(AvailabilityBackwards);
        }
        previousAvailable, at := times[i], i;
        if times[i].value <= cutoff { resolved := i + 1; }
      }
    }
    assert times[..|times|] == times;
    ResolvedIs(times, cutoff, resolved);
    return Ok(resolved);
  }

  // ---- Compatibility and extension --------------------------------------------------------

  /** Two lineages of one identity share their root and do not disagree on their overlap. */
  predicate SameHistory(a: Lineage, b: Lineage) {
    && a.rootId == b.rootId && a.rootSha == b.rootSha
    && (a.revisions <= b.revisions || b.revisions <= a.revisions)
  }

  predicate Compatible(trusted: Binding, incoming: Binding) {
    trusted.lineage.identity == incoming.lineage.identity ==>
      && SameHistory(trusted.lineage, incoming.lineage)
      && forall i :: 0 <= i < |trusted.times| && i < |incoming.times| ==>
           trusted.times[i].Some? && incoming.times[i].Some? ==> trusted.times[i] == incoming.times[i]
  }

  /** `later` continues `earlier`: same revisions, every established time untouched. */
  predicate Extends(earlier: Binding, later: Binding) {
    && earlier.lineage.identity == later.lineage.identity
    && earlier.lineage.rootId == later.lineage.rootId
    && earlier.lineage.rootSha == later.lineage.rootSha
    && earlier.lineage.revisions <= later.lineage.revisions
    && forall i :: 0 <= i < |earlier.times| && earlier.times[i].Some? ==> later.times[i] == earlier.times[i]
  }

  /** The time that a trusted history already established for revision `i`. */
  function Carried(trusted: Option<Binding>, i: nat): Option<Instant> {
    if trusted.Some? && i < |trusted.value.times| then trusted.value.times[i] else None
  }

  /** The incoming lineage with the established times, everything else UNKNOWN. */
  function Staged(incoming: Lineage, trusted: Option<Binding>): (b: Binding)
    ensures b.lineage == incoming
    ensures forall i :: 0 <= i < |b.times| ==> b.times[i] == Carried(trusted, i)
  {
    BindingRecord(incoming, seq(|incoming.revisions|, i requires i >= 0 => Carried(trusted, i)))
  }

  /** As `Staged`, with one accepted instant in place of every UNKNOWN. */
  function Bound(incoming: Lineage, acceptedAt: Instant, trusted: Option<Binding>): (b: Binding)
    ensures b.lineage == incoming && AllKnown(b.times)
    ensures forall i :: 0 <= i < |b.times| ==>
              b.times[i] == if Carried(trusted, i).Some? then Carried(trusted, i) else Some(acceptedAt)
  {
    BindingRecord(incoming, seq(|incoming.revisions|, i requires i >= 0 =>
      if Carried(trusted, i).Some? then Carried(trusted, i) else Some(acceptedAt)))
  }

  method StageRevisions(incoming: Lineage, trusted: Option<Binding>) returns (staged: Binding)
    ensures staged == Staged(incoming, trusted)
  {
    var times: Times := [];
    for i := 0 to |incoming.revisions|
      invariant |times| == i
      invariant forall j :: 0 <= j < i ==> times[j] == Carried(trusted, j)
    {
      var available := None;
      if trusted.Some? && i < |trusted.value.times| { available := trusted.value.times[i]; }
      times := times + [available];
    }
    staged := BindingRecord(incoming, times);
    assert staged.times == Staged(incoming, trusted).times;
  }

  /** The last established time of a column, which is its largest when the column is a timeline. */
  function LastEstablished(times: Times): (r: Option<Instant>)
    ensures r.None? <==> NoneKnown(times)
    ensures r.Some? ==> exists i :: 0 <= i < |times| && times[i] == r
    ensures r.Some? && NonDecreasing(times) ==>
              forall i :: 0 <= i < |times| && times[i].Some? ==> times[i].value <= r.value
  {
    if times == [] then None
    else
      var rest := LastEstablished(times[1..]);
      assert times == [times[0]] + times[1..];
      if rest.Some? then rest else times[0]
  }

  /** Why a bind may be refused, in the order in which the source looks. */
  function BindRefusal(incoming: Lineage, acceptedAt: Instant, trusted: Option<Binding>): Option<TrustError> {
    if trusted.None? then None
    else
      var t := trusted.value;
      var last := LastEstablished(t.times);
      if t.lineage.identity != incoming.identity || !SameHistory(t.lineage, incoming) then Some(LineageConflict)
      else if |incoming.revisions| < |t.times| then Some(StalePrefix)
      else if !KnownPrefix(t.times) then Some(AvailabilityResumes)
      else if last.Some? && acceptedAt < last.value then Some(AvailabilityBackwards)
      else None
  }

  /** Binds one acceptance time to every revision that has none yet. */
  method BindAvailability(incoming: Lineage, acceptedAt: Instant, trusted: Option<Binding>)
    returns (r: Result<Binding, TrustError>)
    ensures r == match BindRefusal(incoming, acceptedAt, trusted)
                 case Some(e) => Err(e)
                 case None => Ok(Bound(incoming, acceptedAt, trusted))
  {
    var refusal := BindRefusal(incoming, acceptedAt, trusted);
    if refusal.Some? { return Err(refusal.value); }
    var times: Times := [];
    for i := 0 to |incoming.revisions|
      invariant |times| == i
      invariant forall j :: 0 <= j < i ==> times[j] == Bound(incoming, acceptedAt, trusted).times[j]
    {
      var established := Some(acceptedAt);
      if trusted.Some? && i < |trusted.value.times| && trusted.value.times[i].Some? {
        established := trusted.value.times[i];
      }
      times := times + [established];
    }
    assert times == Bound(incoming, acceptedAt, trusted).times;
    return Ok(BindingRecord(incoming, times));
  }

  /** Two columns that agree up to the last time known by the cutoff, and hold only later ones after it. */
  lemma SameKnownBy(a: Times, b: Times, cutoff: Instant)
    requires |a| <= |b|
    requires forall i :: 0 <= i < |a| && a[i].Some? ==> b[i] == a[i]
    requires forall i :: 0 <= i < |b| && b[i].Some? && (i >= |a| || a[i].None?) ==> cutoff < b[i].value
    ensures KnownBy(b, cutoff) == KnownBy(a, cutoff)
  {
    var n := KnownBy(a, cutoff);
    if n > 0 {
      forall j | n - 1 < j < |b| && b[j].Some? ensures cutoff < b[j].value {
        if j < |a| && a[j].Some? { assert b[j] == a[j]; }
      }
      KnownByUnique(b, cutoff, n - 1);
    } else {
      forall j | 0 <= j < |b| && b[j].Some? ensures cutoff < b[j].value {
        if j < |a| && a[j].Some? { assert b[j] == a[j]; }
      }
    }
  }

  /**
   * Binding at an instant after every time a timeline already holds extends that timeline, keeps
   * it a timeline, makes it fully known, and leaves every answer at an earlier cutoff unchanged.
   */
  lemma BoundExtends(incoming: Lineage, acceptedAt: Instant, trusted: Binding)
    requires Timeline(trusted.times)
    requires trusted.lineage.identity == incoming.identity && SameHistory(trusted.lineage, incoming)
    requires |trusted.times| <= |incoming.revisions|
    requires forall i :: 0 <= i < |trusted.times| && trusted.times[i].Some? ==> trusted.times[i].value < acceptedAt
    ensures var b := Bound(incoming, acceptedAt, Some(trusted));
            Extends(trusted, b) && Timeline(b.times)
            && forall cutoff :: cutoff < acceptedAt ==> KnownBy(b.times, cutoff) == KnownBy(trusted.times, cutoff)
  {
    var b := Bound(incoming, acceptedAt, Some(trusted));
    forall cutoff | cutoff < acceptedAt ensures KnownBy(b.times, cutoff) == KnownBy(trusted.times, cutoff) {
      SameKnownBy(trusted.times, b.times, cutoff);
    }
  }

  /** Staging only adds UNKNOWN revisions, so it changes no answer at all. */
  lemma StagedExtends(incoming: Lineage, trusted: Binding)
    requires Timeline(trusted.times)
    requires trusted.lineage.identity == incoming.identity && SameHistory(trusted.lineage, incoming)
    requires |trusted.times| <= |incoming.revisions|
    ensures var b := Staged(incoming, Some(trusted));
            Extends(trusted, b) && Timeline(b.times)
            && forall cutoff :: KnownBy(b.times, cutoff) == KnownBy(trusted.times, cutoff)
  {
    var b := Staged(incoming, Some(trusted));
    forall cutoff ensures KnownBy(b.times, cutoff) == KnownBy(trusted.times, cutoff) {
      SameKnownBy(trusted.times, b.times, cutoff);
    }
  }
}
