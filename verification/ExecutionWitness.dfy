/**
 * The PAPER execution ledger with its witness journal. The ledger and its anchor live in a workspace
 * that anybody may roll back; the journal lives outside it and is published before the anchor.
 */
module ExecutionWitness {
  import opened Common

  /** An event digest is injective in everything it covers, including the digest of its predecessor. */
  datatype Hash = Hash(sequence: int, previous: Option<Hash>, key: string, payload: string)

  datatype Event = Event(sequence: int, previous: Option<Hash>, key: string, payload: string, digest: Hash)

  /** A ledger line, which may be blank, unparseable or of the wrong schema. */
  datatype Line = Garbage | Line(event: Event)

  datatype Anchor = BadAnchor | Anchor(count: int, root: Option<Hash>)

  datatype WitnessDigest = WitnessDigest(generation: int, count: int, root: Hash, previous: Option<WitnessDigest>)

  datatype Witness = Witness(
    generation: int, count: int, root: Hash, previous: Option<WitnessDigest>, digest: WitnessDigest)

  /** The mutable pair in the workspace and the journal outside it. */
  datatype World = World(ledger: Option<seq<Line>>, anchor: Option<Anchor>, journal: seq<Witness>)

  const PRISTINE := World(None, None, [])

  datatype LedgerError =
    | BadLedger | BadAnchorFile | AnchorMismatch | BadJournal | MissingAuthority | RolledBack | KeyConflict
    | NotExtending

  // ---- Event chains ---------------------------------------------------------------------------

  function DigestOf(e: Event): Hash { Hash(e.sequence, e.previous, e.key, e.payload) }

  function RootOf(events: seq<Event>): Option<Hash> { if events == [] then None else Some(events[|events| - 1].digest) }

  predicate FreshKey(events: seq<Event>, key: string) { forall i :: 0 <= i < |events| ==> events[i].key != key }

  /** Every event names its place, its predecessor and its own digest, and no key repeats. */
  predicate Chained(events: seq<Event>) {
    events == [] ||
    var n := |events| - 1;
    && Chained(events[..n])
    && events[n].sequence == n && events[n].previous == RootOf(events[..n])
    && events[n].digest == DigestOf(events[n]) && events[n].key != "" && FreshKey(events[..n], events[n].key)
  }

  /** The history that a digest fixes. */
  function History(root: Hash): seq<Event> {
    (if root.previous.None? then [] else History(root.previous.value))
    + [Event(root.sequence, root.previous, root.key, root.payload, root)]
  }

  /** A chained history is the one that its own root fixes. */
  lemma {:induction false} RootFixesHistory(events: seq<Event>)
    requires Chained(events) && events != []
    ensures History(RootOf(events).value) == events
  {
    var n := |events| - 1;
    if n > 0 { RootFixesHistory(events[..n]); }
    assert events == events[..n] + [events[n]];
  }

  lemma {:induction false} ChainPrefix(events: seq<Event>, n: nat)
    requires Chained(events) && n <= |events|
    ensures Chained(events[..n])
    decreases |events|
  {
    if n < |events| {
      ChainPrefix(events[..|events| - 1], n);
      assert events[..|events| - 1][..n] == events[..n];
    } else {
      assert events[..n] == events;
    }
  }

  function NextEvent(events: seq<Event>, key: string, payload: string): (e: Event) {
    var digest := Hash(|events|, RootOf(events), key, payload);
    Event(|events|, RootOf(events), key, payload, digest)
  }

  lemma AppendChained(events: seq<Event>, key: string, payload: string)
    requires Chained(events) && key != "" && FreshKey(events, key)
    ensures Chained(events + [NextEvent(events, key, payload)])
  {
    var all := events + [NextEvent(events, key, payload)];
    assert all[..|events|] == events;
  }

  // ---- Reading the pair ---------------------------------------------------------------------------

  function Lines(events: seq<Event>): (r: seq<Line>)
    ensures |r| == |events| && forall i :: 0 <= i < |r| ==> r[i] == Line(events[i])
  {
    seq(|events|, i requires 0 <= i < |events| => Line(events[i]))
  }

  function EventsOf(lines: seq<Line>): (r: seq<Event>)
    requires Garbage !in lines
    ensures |r| == |lines| && forall i :: 0 <= i < |r| ==> lines[i] == Line(r[i])
  {
    if lines == [] then []
    else
      assert lines[0] in lines && forall x :: x in lines[1..] ==> x in lines;
      [lines[0].event] + EventsOf(lines[1..])
  }

  predicate LedgerSound(lines: seq<Line>) { Garbage !in lines && Chained(EventsOf(lines)) }

  predicate AnchorFits(anchor: Option<Anchor>, events: seq<Event>) {
    if anchor.None? then events == []
    else anchor.value == Anchor(|events|, RootOf(events))
  }

  /** The predecessor load: a sound chain whose latest-root anchor agrees. */
  function OriginalLoad(w: World): Result<seq<Event>, LedgerError> {
    match w.ledger
    case None =>
      if w.anchor.Some? && (w.anchor.value.BadAnchor? || w.anchor.value.count != 0) then Err(BadAnchorFile) else Ok([])
    case Some(lines) =>
      if !LedgerSound(lines) then Err(BadLedger)
      else if !AnchorFits(w.anchor, EventsOf(lines)) then Err(AnchorMismatch)
      else Ok(EventsOf(lines))
  }

  // ---- The witness journal --------------------------------------------------------------------------

  function WitnessDigestOf(x: Witness): WitnessDigest { WitnessDigest(x.generation, x.count, x.root, x.previous) }

  function TipOf(journal: seq<Witness>): Option<WitnessDigest> {
    if journal == [] then None else Some(journal[|journal| - 1].digest)
  }

  function CountOf(journal: seq<Witness>): int { if journal == [] then 0 else journal[|journal| - 1].count }

  /** Generations are contiguous, counts increase, and each record is bound to its predecessor. */
  predicate JournalSound(journal: seq<Witness>) {
    journal == [] ||
    var n := |journal| - 1;
    && JournalSound(journal[..n])
    && journal[n].generation == n + 1 && journal[n].count > CountOf(journal[..n])
    && journal[n].previous == TipOf(journal[..n]) && journal[n].digest == WitnessDigestOf(journal[n])
  }

  /** The loaded history, accepted only when it is the last witnessed one. */
  function Load(w: World): Result<seq<Event>, LedgerError> {
    match OriginalLoad(w)
    case Err(e) => Err(e)
    case Ok(events) =>
      if !JournalSound(w.journal) then Err(BadJournal)
      else if w.journal == [] then
        if events != [] || w.ledger.Some? || w.anchor.Some? then Err(MissingAuthority) else Ok(events)
      else
        var latest := w.journal[|w.journal| - 1];
        if |events| != latest.count || RootOf(events) != Some(latest.root) then Err(RolledBack) else Ok(events)
  }

  /** Checks the new history against the latest witness only, then appends. */
  function AppendWitness(journal: seq<Witness>, events: seq<Event>): Result<seq<Witness>, LedgerError> {
    if events == [] || !JournalSound(journal) then Err(BadJournal)
    else if journal != [] &&
            (|events| <= CountOf(journal) || CountOf(journal) < 1
             || events[CountOf(journal) - 1].digest != journal[|journal| - 1].root)
    then Err(NotExtending)
    else
      var x := WitnessDigest(|journal| + 1, |events|, RootOf(events).value, TipOf(journal));
      Ok(journal + [Witness(x.generation, x.count, x.root, x.previous, x)])
  }

  /** A loaded history, extended by an event, always passes the check against the latest witness. */
  lemma LoadedExtends(w: World, e: Event)
    requires Load(w).Ok?
    ensures AppendWitness(w.journal, Load(w).value + [e]).Ok?
  {
  }

  // ---- Steps ------------------------------------------------------------------------------------------

  datatype Crash = NoCrash | AfterLedger | AfterWitness

  /** The environment may also replace the pair in the workspace by anything: old copies, nothing, forgeries. */
  datatype Op =
    | Append(key: string, payload: string, crash: Crash)
    | Replace(ledger: Option<seq<Line>>, anchor: Option<Anchor>)

  function PriorOf(events: seq<Event>, key: string): (r: Option<Event>)
    ensures r.Some? ==> r.value in events && r.value.key == key
    ensures r.None? ==> FreshKey(events, key)
  {
    if events == [] then None
    else
      var n := |events| - 1;
      if events[n].key == key then Some(events[n]) else PriorOf(events[..n], key)
  }

  function AppendStep(w: World, key: string, payload: string, crash: Crash): (World, Result<bool, LedgerError>) {
    match Load(w)
    case Err(e) => (w, Err(e))
    case Ok(events) =>
      var prior := PriorOf(events, key);
      if key == "" then (w, Err(KeyConflict))
      else if prior.Some? then (w, if prior.value.payload == payload then Ok(false) else Err(KeyConflict))
      else
        var next := events + [NextEvent(events, key, payload)];
        var written := w.(ledger := Some(Lines(next)));
        if crash == AfterLedger then (written, Err(BadLedger))
        else
          match AppendWitness(w.journal, next)
          case Err(e) => (written, Err(e))
          case Ok(journal) =>
            var witnessed := written.(journal := journal);
            if crash == AfterWitness then (witnessed, Err(BadLedger))
            else (witnessed.(anchor := Some(Anchor(|next|, RootOf(next)))), Ok(true))
  }

  function Apply(w: World, op: Op): World {
    match op
    case Append(key, payload, crash) => AppendStep(w, key, payload, crash).0
    case Replace(ledger, anchor) => w.(ledger := ledger, anchor := anchor)
  }

  function Run(w: World, ops: seq<Op>): World
    decreases |ops|
  {
    if ops == [] then w else Run(Apply(w, ops[0]), ops[1..])
  }

  // ---- Rollback exclusion -------------------------------------------------------------------------------

  /** The witness fixes a chained history of its own count. */
  predicate Fixes(x: Witness) { |History(x.root)| == x.count && Chained(History(x.root)) }

  predicate Follows(x: Witness, y: Witness) { History(x.root) <= History(y.root) }

  /** Each witness fixes a history that extends the one before it. */
  predicate Witnessed(journal: seq<Witness>) {
    && (forall i :: 0 <= i < |journal| ==> Fixes(journal[i]))
    && (forall i :: 0 < i < |journal| ==> Follows(journal[i - 1], journal[i]))
  }

  ghost predicate Inv(w: World) { JournalSound(w.journal) && Witnessed(w.journal) }

  lemma LoadChained(w: World)
    requires Load(w).Ok?
    ensures Chained(Load(w).value)
  {
  }

  /** A new witness record, by its fields. */
  lemma AppendedWitness(journal: seq<Witness>, events: seq<Event>)
    requires AppendWitness(journal, events).Ok?
    ensures var next := AppendWitness(journal, events).value;
            && |next| == |journal| + 1 && next[..|journal|] == journal && events != []
            && next[|journal|].count == |events| && Some(next[|journal|].root) == RootOf(events)
            && next[|journal|].generation == |journal| + 1 && next[|journal|].previous == TipOf(journal)
            && next[|journal|].digest == WitnessDigestOf(next[|journal|])
            && (journal != [] ==> 1 <= CountOf(journal) < |events|
                                  && events[CountOf(journal) - 1].digest == journal[|journal| - 1].root)
  {
  }

  /** The prefix of a chained history that ends in a digest is the history of that digest. */
  lemma PrefixHistory(events: seq<Event>, count: nat)
    requires Chained(events) && 1 <= count <= |events|
    ensures History(events[count - 1].digest) == events[..count]
  {
    ChainPrefix(events, count);
    RootFixesHistory(events[..count]);
  }

  /** The new witness fixes its history, which extends that of the latest one. */
  lemma AppendedFixes(journal: seq<Witness>, events: seq<Event>)
    requires Witnessed(journal) && Chained(events) && AppendWitness(journal, events).Ok?
    ensures var next := AppendWitness(journal, events).value;
            && |next| == |journal| + 1 && next[..|journal|] == journal && Fixes(next[|journal|])
            && (journal != [] ==> Follows(next[|journal| - 1], next[|journal|]))
  {
    AppendedWitness(journal, events);
    RootFixesHistory(events);
    if journal != [] { PrefixHistory(events, CountOf(journal)); }
  }

  lemma AppendedSound(journal: seq<Witness>, events: seq<Event>)
    requires JournalSound(journal) && AppendWitness(journal, events).Ok?
    ensures JournalSound(AppendWitness(journal, events).value)
  {
    AppendedWitness(journal, events);
  }

  lemma AppendWitnessKeeps(journal: seq<Witness>, events: seq<Event>)
    requires JournalSound(journal) && Witnessed(journal) && Chained(events)
    requires AppendWitness(journal, events).Ok?
    ensures JournalSound(AppendWitness(journal, events).value) && Witnessed(AppendWitness(journal, events).value)
  {
    AppendedSound(journal, events);
    AppendedFixes(journal, events);
    WitnessedSnoc(AppendWitness(journal, events).value);
  }

  lemma WitnessedSnoc(next: seq<Witness>)
    requires next != [] && Witnessed(next[..|next| - 1]) && Fixes(next[|next| - 1])
    requires |next| > 1 ==> Follows(next[|next| - 2], next[|next| - 1])
    ensures Witnessed(next)
  {
    var before := next[..|next| - 1];
    forall i | 0 <= i < |next| ensures Fixes(next[i]) {
      if i < |before| { assert before[i] == next[i]; }
    }
    forall i | 0 < i < |next| ensures Follows(next[i - 1], next[i]) {
      if i < |before| { assert before[i] == next[i] && before[i - 1] == next[i - 1]; }
    }
  }

  /** Every run of appends, crashes and replacements keeps the journal sound. */
  lemma {:induction false} EveryRunKeepsJournal(w: World, ops: seq<Op>)
    requires Inv(w)
    ensures Inv(Run(w, ops)) && w.journal <= Run(w, ops).journal
    decreases |ops|
  {
    if ops == [] {
    } else {
      match ops[0] {
        case Append(key, payload, crash) => AppendKeeps(w, key, payload, crash);
        case Replace(_, _) =>
      }
      EveryRunKeepsJournal(Apply(w, ops[0]), ops[1..]);
    }
  }

  /** The only way in which a step changes the journal. */
  lemma AppendJournal(w: World, key: string, payload: string, crash: Crash)
    ensures var journal := AppendStep(w, key, payload, crash).0.journal;
            journal == w.journal
            || (&& Load(w).Ok? && key != "" && FreshKey(Load(w).value, key)
                && AppendWitness(w.journal, Load(w).value + [NextEvent(Load(w).value, key, payload)]) == Ok(journal))
  {
  }

  lemma AppendKeeps(w: World, key: string, payload: string, crash: Crash)
    requires Inv(w)
    ensures Inv(AppendStep(w, key, payload, crash).0) && w.journal <= AppendStep(w, key, payload, crash).0.journal
  {
    var journal := AppendStep(w, key, payload, crash).0.journal;
    AppendJournal(w, key, payload, crash);
    if journal != w.journal {
      LoadChained(w);
      AppendChained(Load(w).value, key, payload);
      AppendWitnessKeeps(w.journal, Load(w).value + [NextEvent(Load(w).value, key, payload)]);
    }
  }

  lemma PrefixTransitive(a: seq<Event>, b: seq<Event>, c: seq<Event>)
    requires a <= b && b <= c
    ensures a <= c
  {
  }

  lemma {:induction false} EarlierIsPrefix(journal: seq<Witness>, i: nat, j: nat)
    requires Witnessed(journal) && i <= j < |journal|
    ensures Follows(journal[i], journal[j]) && Fixes(journal[i])
    decreases j
  {
    if i < j {
      EarlierIsPrefix(journal, i, j - 1);
      assert Follows(journal[j - 1], journal[j]);
      PrefixTransitive(History(journal[i].root), History(journal[j - 1].root), History(journal[j].root));
    }
  }

  predicate Latest(journal: seq<Witness>, events: seq<Event>) {
    journal != [] && |events| == CountOf(journal) && RootOf(events) == Some(journal[|journal| - 1].root)
  }

  lemma LoadAgrees(w: World)
    requires Load(w).Ok? && w.journal != []
    ensures Latest(w.journal, Load(w).value) && Chained(Load(w).value)
  {
  }

  /** `events` is the last witnessed history, and witness `i` is the root of a prefix of it. */
  predicate RootedPrefix(journal: seq<Witness>, events: seq<Event>, i: nat)
    requires i < |journal|
  {
    var count := journal[i].count;
    && events == History(journal[|journal| - 1].root)
    && 1 <= count <= |events| && events[..count] == History(journal[i].root)
      && events[count - 1].digest == journal[i].root
  }

  lemma LatestHistory(journal: seq<Witness>, events: seq<Event>, i: nat)
    requires JournalSound(journal) && Witnessed(journal) && Latest(journal, events) && Chained(events) && i < |journal|
    ensures RootedPrefix(journal, events, i)
  {
    WitnessCounts(journal, |journal| - 1);
    RootFixesHistory(events);
    EarlierIsPrefix(journal, i, |journal| - 1);
    WitnessCounts(journal, i);
    LastOfHistory(journal[i].root);
    PrefixEnds(History(journal[i].root), events, journal[i].count, journal[i].root);
  }

  lemma PrefixEnds(h: seq<Event>, events: seq<Event>, count: int, root: Hash)
    requires h <= events && |h| == count && h != [] && h[|h| - 1].digest == root
    ensures 1 <= count <= |events| && events[..count] == h && events[count - 1].digest == root
  {
  }

  /**
   * Rollback exclusion: whatever happened to the pair, a successful load returns exactly the last
   * witnessed history, and every earlier witness is the root of a prefix of it.
   */
  lemma LoadIsLastWitnessed(start: World, ops: seq<Op>, i: nat)
    requires Inv(start) && Load(Run(start, ops)).Ok? && i < |Run(start, ops).journal|
    ensures RootedPrefix(Run(start, ops).journal, Load(Run(start, ops)).value, i)
  {
    EveryRunKeepsJournal(start, ops);
    LoadAgrees(Run(start, ops));
    LatestHistory(Run(start, ops).journal, Load(Run(start, ops)).value, i);
  }

  lemma PristineIsSound()
    ensures Inv(PRISTINE) && Load(PRISTINE) == Ok([])
  {
  }

  lemma LastOfHistory(root: Hash)
    ensures History(root) != [] && History(root)[|History(root)| - 1].digest == root
  {
  }

  lemma {:induction false} WitnessCounts(journal: seq<Witness>, i: nat)
    requires JournalSound(journal) && i < |journal|
    ensures journal[i].count >= 1
    decreases |journal|
  {
    var n := |journal| - 1;
    if n > 0 { WitnessCounts(journal[..n], if i < n then i else n - 1); }
  }

  /** Any pair at all that loads under one journal loads the same history. */
  lemma OnlyOneHistoryLoads(w: World, ledger: Option<seq<Line>>, anchor: Option<Anchor>)
    requires Load(w).Ok? && Load(w.(ledger := ledger, anchor := anchor)).Ok?
    ensures Load(w.(ledger := ledger, anchor := anchor)) == Load(w)
  {
    var other := w.(ledger := ledger, anchor := anchor);
    LoadChained(w);
    LoadChained(other);
    if w.journal != [] {
      var latest := w.journal[|w.journal| - 1];
      if Load(w).value != [] { RootFixesHistory(Load(w).value); }
      if Load(other).value != [] { RootFixesHistory(Load(other).value); }
    }
  }

  /** A successful append extends the loaded history by its event; a crashed one leaves no loadable pair. */
  lemma AppendThenLoad(w: World, key: string, payload: string, crash: Crash)
    requires Inv(w) && Load(w).Ok? && key != "" && FreshKey(Load(w).value, key)
    ensures var v := AppendStep(w, key, payload, crash).0;
            if crash == NoCrash then Load(v) == Ok(Load(w).value + [NextEvent(Load(w).value, key, payload)])
            else Load(v).Err?
  {
    var next := Load(w).value + [NextEvent(Load(w).value, key, payload)];
    LoadChained(w);
    AppendChained(Load(w).value, key, payload);
    Extends(w, next);
    AppendOutcome(w, key, payload, crash);
    OldAnchor(w, next);
    var written := w.(ledger := Some(Lines(next)));
    WrittenLoads(written, next);
    WrittenLoads(written.(journal := AppendWitness(w.journal, next).value), next);
    if crash == NoCrash { FinalLoads(w, next); }
  }

  /** Where an append leaves the world. */
  lemma AppendOutcome(w: World, key: string, payload: string, crash: Crash)
    requires Load(w).Ok? && key != "" && FreshKey(Load(w).value, key)
    requires AppendWitness(w.journal, Load(w).value + [NextEvent(Load(w).value, key, payload)]).Ok?
    ensures var next := Load(w).value + [NextEvent(Load(w).value, key, payload)];
            var written := w.(ledger := Some(Lines(next)));
            var witnessed := written.(journal := AppendWitness(w.journal, next).value);
            AppendStep(w, key, payload, crash).0 ==
            match crash
            case AfterLedger => written
            case AfterWitness => witnessed
            case NoCrash => witnessed.(anchor := Some(Anchor(|next|, RootOf(next))))
  {
    PriorIsFresh(Load(w).value, key);
  }

  lemma FinalLoads(w: World, next: seq<Event>)
    requires Inv(w) && next != [] && Chained(next) && AppendWitness(w.journal, next).Ok?
    ensures Load(World(Some(Lines(next)), Some(Anchor(|next|, RootOf(next))), AppendWitness(w.journal, next).value))
            == Ok(next)
  {
    var v := World(Some(Lines(next)), Some(Anchor(|next|, RootOf(next))), AppendWitness(w.journal, next).value);
    WrittenLoads(v, next);
    AppendWitnessKeeps(w.journal, next);
  }

  lemma OldAnchor(w: World, next: seq<Event>)
    requires Load(w).Ok? && |next| == |Load(w).value| + 1
    ensures w.anchor != Some(Anchor(|next|, RootOf(next)))
  {
  }

  lemma PriorIsFresh(events: seq<Event>, key: string)
    requires FreshKey(events, key)
    ensures PriorOf(events, key).None?
  {
  }

  /** A history one event longer than the loaded one passes the witness check. */
  lemma Extends(w: World, next: seq<Event>)
    requires Inv(w) && Load(w).Ok? && |next| == |Load(w).value| + 1 && Load(w).value <= next
    ensures AppendWitness(w.journal, next).Ok?
  {
    assert next == Load(w).value + [next[|next| - 1]];
    LoadedExtends(w, next[|next| - 1]);
  }

  lemma LinesRoundTrip(events: seq<Event>)
    ensures Garbage !in Lines(events) && EventsOf(Lines(events)) == events
  {
  }

  /** The rewritten ledger loads with its own anchor, and with no other one. */
  lemma WrittenLoads(w: World, next: seq<Event>)
    requires next != [] && Chained(next) && w.ledger == Some(Lines(next))
    ensures OriginalLoad(w) == if w.anchor == Some(Anchor(|next|, RootOf(next))) then Ok(next) else Err(AnchorMismatch)
    ensures OriginalLoad(w.(anchor := Some(Anchor(|next|, RootOf(next))))) == Ok(next)
  {
    LinesRoundTrip(next);
  }

  // ---- What an append answers --------------------------------------------------------------------------

  /** The history records this key with this payload. */
  predicate Recorded(events: seq<Event>, key: string, payload: string) {
    exists i :: 0 <= i < |events| && events[i].key == key && events[i].payload == payload
  }

  lemma {:induction false} PriorIsTheEvent(events: seq<Event>, e: Event)
    requires Chained(events) && e in events
    ensures PriorOf(events, e.key) == Some(e)
  {
    var n := |events| - 1;
    SplitLast(events);
    if e != events[n] {
      PriorIsTheEvent(events[..n], e);
      var i :| 0 <= i < n && events[..n][i] == e;
    }
  }

  /**
   * A key that the history holds is never appended again: the same payload is acknowledged as a repeat,
   * any other is a conflict, and neither touches the files.
   */
  lemma RepeatOrConflict(w: World, e: Event, payload: string, crash: Crash)
    requires Load(w).Ok? && e in Load(w).value
    ensures AppendStep(w, e.key, payload, crash) == (w, if payload == e.payload then Ok(false) else Err(KeyConflict))
  {
    LoadChained(w);
    PriorIsTheEvent(Load(w).value, e);
    EventKeys(Load(w).value, e);
  }

  lemma {:induction false} EventKeys(events: seq<Event>, e: Event)
    requires Chained(events) && e in events
    ensures e.key != ""
  {
    SplitLast(events);
    if e != events[|events| - 1] { EventKeys(events[..|events| - 1], e); }
  }

  /** The answer of every append: new only without a crash, repeated only for an equal payload. */
  lemma AppendAnswers(w: World, key: string, payload: string, crash: Crash)
    ensures AppendStep(w, key, payload, crash).1 ==
            match Load(w)
            case Err(e) => Err(e)
            case Ok(events) =>
              if key == "" then Err(KeyConflict)
              else if Recorded(events, key, payload) then Ok(false)
              else if !FreshKey(events, key) then Err(KeyConflict)
              else if crash == NoCrash then Ok(true)
              else Err(BadLedger)
    ensures AppendStep(w, key, payload, crash).0 != w ==> Load(w).Ok? && key != "" && FreshKey(Load(w).value, key)
  {
    if Load(w).Ok? && key != "" {
      var events := Load(w).value;
      if FreshKey(events, key) {
        PriorIsFresh(events, key);
        LoadedExtends(w, NextEvent(events, key, payload));
      } else {
        var i :| 0 <= i < |events| && events[i].key == key;
        RepeatOrConflict(w, events[i], payload, crash);
        if Recorded(events, key, payload) {
          var j :| 0 <= j < |events| && events[j].key == key && events[j].payload == payload;
          RepeatOrConflict(w, events[j], payload, crash);
        }
      }
    }
  }

  predicate AppendsCleanly(op: Op) { op.Append? && op.key != "" && op.crash == NoCrash }

  predicate HoldsKey(events: seq<Event>, key: string) { exists i :: 0 <= i < |events| && events[i].key == key }

  lemma HoldsMore(a: seq<Event>, b: seq<Event>, key: string)
    requires a <= b && HoldsKey(a, key)
    ensures HoldsKey(b, key)
  {
    var i :| 0 <= i < |a| && a[i].key == key;
    assert b[i].key == key;
  }

  /** One clean append of any key: the history still loads, grows at its end at most, and holds the key. */
  lemma CleanAppend(w: World, key: string, payload: string)
    requires Inv(w) && Load(w).Ok? && key != ""
    ensures var v := AppendStep(w, key, payload, NoCrash).0;
            Inv(v) && Load(v).Ok? && Load(w).value <= Load(v).value && HoldsKey(Load(v).value, key)
  {
    AppendKeeps(w, key, payload, NoCrash);
    AppendAnswers(w, key, payload, NoCrash);
    if FreshKey(Load(w).value, key) {
      AppendThenLoad(w, key, payload, NoCrash);
      var next := Load(w).value + [NextEvent(Load(w).value, key, payload)];
      assert next[|next| - 1].key == key;
    }
  }

  /** A run of appends without crash or interference loads, and holds every key that was appended. */
  lemma {:induction false} CleanRunLoads(w: World, ops: seq<Op>)
    requires Inv(w) && Load(w).Ok? && forall i :: 0 <= i < |ops| ==> AppendsCleanly(ops[i])
    ensures Load(Run(w, ops)).Ok? && Load(w).value <= Load(Run(w, ops)).value
    ensures forall i :: 0 <= i < |ops| ==>
              AppendsCleanly(ops[i]) && HoldsKey(Load(Run(w, ops)).value, ops[i].key)
    decreases |ops|
  {
    if ops == [] {
    } else {
      assert AppendsCleanly(ops[0]);
      var v := Apply(w, ops[0]);
      CleanAppend(w, ops[0].key, ops[0].payload);
      CleanRunLoads(v, ops[1..]);
      PrefixTransitive(Load(w).value, Load(v).value, Load(Run(w, ops)).value);
      HoldsMore(Load(v).value, Load(Run(w, ops)).value, ops[0].key);
      forall i | 0 < i < |ops| ensures AppendsCleanly(ops[i]) && HoldsKey(Load(Run(w, ops)).value, ops[i].key) {
        assert ops[1..][i - 1] == ops[i];
      }
    }
  }

  /** The one pair that loads under a journal. */
  function PairOf(x: Witness): (Option<seq<Line>>, Option<Anchor>) {
    (Some(Lines(History(x.root))), Some(Anchor(x.count, Some(x.root))))
  }

  lemma EventsLines(lines: seq<Line>)
    requires Garbage !in lines
    ensures Lines(EventsOf(lines)) == lines
  {
  }

  lemma LedgerIsLines(w: World)
    requires Load(w).Ok? && w.ledger.Some?
    ensures w.ledger == Some(Lines(Load(w).value))
    ensures Load(w).value != [] ==>
              w.anchor == Some(Anchor(|Load(w).value|, RootOf(Load(w).value)))
  {
    EventsLines(w.ledger.value);
  }

  lemma LoadedPair(w: World)
    requires Inv(w) && w.journal != [] && Load(w).Ok?
    ensures (w.ledger, w.anchor) == PairOf(w.journal[|w.journal| - 1])
  {
    var x := w.journal[|w.journal| - 1];
    WitnessCounts(w.journal, |w.journal| - 1);
    LoadChained(w);
    RootFixesHistory(Load(w).value);
    LedgerIsLines(w);
  }

  lemma PairLoads(w: World)
    requires Inv(w) && w.journal != [] && (w.ledger, w.anchor) == PairOf(w.journal[|w.journal| - 1])
    ensures Load(w) == Ok(History(w.journal[|w.journal| - 1].root))
  {
    var x := w.journal[|w.journal| - 1];
    assert Fixes(x);
    LastOfHistory(x.root);
    WrittenLoads(w, History(x.root));
  }

  /** Under a sound journal exactly one pair loads: none at the start, and then that of the last witness. */
  lemma LoadsExactly(w: World)
    requires Inv(w)
    ensures Load(w).Ok? <==>
            if w.journal == [] then w.ledger.None? && w.anchor.None?
            else (w.ledger, w.anchor) == PairOf(w.journal[|w.journal| - 1])
    ensures Load(w).Ok? ==>
              Load(w).value == if w.journal == [] then [] else History(w.journal[|w.journal| - 1].root)
  {
    if w.journal != [] {
      if Load(w).Ok? { LoadedPair(w); }
      if (w.ledger, w.anchor) == PairOf(w.journal[|w.journal| - 1]) { PairLoads(w); }
    }
  }
}
