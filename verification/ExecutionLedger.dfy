/** The PAPER execution ledger as an object: its files, its reader loops and its append. */
module ExecutionLedger {
  import opened Common
  import opened ExecutionWitness

  /** What one line must satisfy, given the events before it. */
  predicate Continues(events: seq<Event>, e: Event) {
    && e.sequence == |events| && e.previous == RootOf(events)
    && e.digest == DigestOf(e) && e.key != "" && FreshKey(events, e.key)
  }

  lemma ChainedSnoc(events: seq<Event>, e: Event)
    ensures Chained(events + [e]) <==> Chained(events) && Continues(events, e)
  {
    assert (events + [e])[..|events|] == events;
  }

  /** A sound ledger satisfies the check of every line. */
  lemma SoundAt(lines: seq<Line>, events: seq<Event>, i: nat)
    requires LedgerSound(lines) && i < |lines| && |events| == i
    requires forall k :: 0 <= k < i ==> lines[k] == Line(events[k])
    ensures lines[i].Line? && Continues(events, lines[i].event)
  {
    var all := EventsOf(lines);
    assert lines[i] in lines;
    ChainPrefix(all, i + 1);
    assert all[..i + 1] == events + [lines[i].event];
    ChainedSnoc(events, lines[i].event);
  }

  function SeenKeys(events: seq<Event>): set<string> { set i | 0 <= i < |events| :: events[i].key }

  lemma SeenSnoc(events: seq<Event>, e: Event)
    ensures SeenKeys(events + [e]) == SeenKeys(events) + {e.key}
    ensures FreshKey(events, e.key) <==> e.key !in SeenKeys(events)
  {
    var all := events + [e];
    assert all[|events|] == e;
    forall i | 0 <= i < |events| ensures all[i].key == events[i].key {}
    forall key | key in SeenKeys(events) ensures key in SeenKeys(all) {
      var i :| 0 <= i < |events| && events[i].key == key;
      assert all[i].key == key;
    }
    assert all[|events|].key in SeenKeys(all);
  }

  predicate ReadSoFar(lines: seq<Line>, events: seq<Event>, i: nat) {
    i <= |lines| && |events| == i && Chained(events) && forall k :: 0 <= k < i ==> lines[k] == Line(events[k])
  }

  lemma ReadOne(lines: seq<Line>, events: seq<Event>, i: nat)
    requires ReadSoFar(lines, events, i) && i < |lines| && lines[i].Line? && Continues(events, lines[i].event)
    ensures ReadSoFar(lines, events + [lines[i].event], i + 1)
  {
    ChainedSnoc(events, lines[i].event);
  }

  /** Parses and chains the ledger lines. */
  method ReadLedger(lines: seq<Line>) returns (r: Option<seq<Event>>)
    ensures r == if LedgerSound(lines) then Some(EventsOf(lines)) else None
  {
    var events: seq<Event> := [];
    var seen: set<string> := {};
    var previous: Option<Hash> := None;
    for i := 0 to |lines|
      invariant ReadSoFar(lines, events, i) && previous == RootOf(events) && seen == SeenKeys(events)
    {
      if LedgerSound(lines) { SoundAt(lines, events, i); }
      if lines[i].Garbage? { return None; }
      var e := lines[i].event;
      SeenSnoc(events, e);
      if e.sequence != i || e.previous != previous || e.digest != DigestOf(e) || e.key == "" || e.key in seen {
        return None;
      }
      ReadOne(lines, events, i);
      events, seen, previous := events + [e], seen + {e.key}, Some(e.digest);
    }
    AllLines(lines, events);
    return Some(events);
  }

  lemma AllLines(lines: seq<Line>, events: seq<Event>)
    requires |lines| == |events| && forall k :: 0 <= k < |lines| ==> lines[k] == Line(events[k])
    ensures Garbage !in lines && EventsOf(lines) == events
  {
  }

  predicate WitnessContinues(journal: seq<Witness>, x: Witness) {
    && x.generation == |journal| + 1 && x.count > CountOf(journal)
    && x.previous == TipOf(journal) && x.digest == WitnessDigestOf(x)
  }

  lemma {:induction false} JournalSoundAt(journal: seq<Witness>, i: nat)
    requires JournalSound(journal) && i < |journal|
    ensures JournalSound(journal[..i]) && WitnessContinues(journal[..i], journal[i])
    decreases |journal|
  {
    var n := |journal| - 1;
    if i < n {
      JournalSoundAt(journal[..n], i);
      assert journal[..n][..i] == journal[..i];
    }
  }

  /** Reads the journal from its first record: generation, count, predecessor and digest of each. */
  method ReadWitnesses(journal: seq<Witness>) returns (ok: bool)
    ensures ok <==> JournalSound(journal)
  {
    var previousDigest: Option<WitnessDigest> := None;
    var previousCount := 0;
    for i := 0 to |journal|
      invariant JournalSound(journal[..i])
      invariant previousDigest == TipOf(journal[..i]) && previousCount == CountOf(journal[..i])
    {
      if JournalSound(journal) { JournalSoundAt(journal, i); }
      var x := journal[i];
      if x.generation != i + 1 || x.count <= previousCount || x.previous != previousDigest
         || x.digest != WitnessDigestOf(x)
      {
        return false;
      }
      assert journal[..i + 1][..i] == journal[..i];
      previousDigest, previousCount := Some(x.digest), x.count;
    }
    assert journal[..|journal|] == journal;
    return true;
  }

  class PaperExecutionLedger {
    var ledger: Option<seq<Line>>
    var anchor: Option<Anchor>
    var journal: seq<Witness>

    constructor Open(w: World)
      ensures Now() == w
    {
      ledger, anchor, journal := w.ledger, w.anchor, w.journal;
    }

    function Now(): World
      reads this
    {
      World(ledger, anchor, journal)
    }

    /** The predecessor load: chain, then anchor. */
    method LoadPair() returns (r: Result<seq<Event>, LedgerError>)
      ensures r == OriginalLoad(Now())
    {
      if ledger.None? {
        if anchor.Some? && (anchor.value.BadAnchor? || anchor.value.count != 0) { return Err(BadAnchorFile); }
        return Ok([]);
      }
      var events := ReadLedger(ledger.value);
      if events.None? { return Err(BadLedger); }
      if anchor.None? {
        if events.value != [] { return Err(AnchorMismatch); }
      } else if anchor.value != Anchor(|events.value|, RootOf(events.value)) {
        return Err(AnchorMismatch);
      }
      return Ok(events.value);
    }

    method LoadHistory() returns (r: Result<seq<Event>, LedgerError>)
      ensures r == Load(Now())
    {
      r := LoadPair();
      if r.Err? { return; }
      var sound := ReadWitnesses(journal);
      if !sound { return Err(BadJournal); }
      if journal == [] {
        if r.value != [] || ledger.Some? || anchor.Some? { return Err(MissingAuthority); }
        return;
      }
      var latest := journal[|journal| - 1];
      if |r.value| != latest.count || RootOf(r.value) != Some(latest.root) { return Err(RolledBack); }
    }

    /** Publishes the witness of a history, checked against the latest witness only. */
    method PublishWitness(events: seq<Event>) returns (r: Result<(), LedgerError>)
      requires events != []
      modifies this`journal
      ensures match AppendWitness(old(journal), events)
              case Ok(next) => r == Ok(()) && journal == next
              case Err(e) => r == Err(e) && journal == old(journal)
    {
      var sound := ReadWitnesses(journal);
      if !sound { return Err(BadJournal); }
      if journal != [] {
        var latest := journal[|journal| - 1];
        if |events| <= latest.count || latest.count < 1 || events[latest.count - 1].digest != latest.root {
          return Err(NotExtending);
        }
      }
      var x := WitnessDigest(|journal| + 1, |events|, RootOf(events).value, TipOf(journal));
      journal := journal + [Witness(x.generation, x.count, x.root, x.previous, x)];
      return Ok(());
    }

    /** Appends one event: ledger line, witness outside the workspace, then the anchor. */
    method AppendEvent(key: string, payload: string, crash: Crash) returns (r: Result<bool, LedgerError>)
      modifies this
      ensures (Now(), r) == AppendStep(old(Now()), key, payload, crash)
    {
      var loaded := LoadHistory();
      if loaded.Err? { return Err(loaded.error); }
      var events := loaded.value;
      if key == "" { return Err(KeyConflict); }
      var prior := PriorOf(events, key);
      if prior.Some? { return if prior.value.payload == payload then Ok(false) else Err(KeyConflict); }
      var next := events + [NextEvent(events, key, payload)];
      ledger := Some(Lines(next));
      if crash == AfterLedger { return Err(BadLedger); }
      LoadedExtends(old(Now()), NextEvent(events, key, payload));
      // A loaded history always passes the witness check, so this cannot be refused.
      var published := PublishWitness(next);
      if crash == AfterWitness { return Err(BadLedger); }
      anchor := Some(Anchor(|next|, RootOf(next)));
      return Ok(true);
    }
  }
}
