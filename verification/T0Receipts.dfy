/**
 * The append-only T0 receipt file. The first provider-scope projection of an attempt is recorded as one
 * line; a torn append leaves a file that every later read refuses.
 */
module T0Receipts {
  import opened Common

  datatype Key = Key(session: string, plan: string, attempt: string)

  /** What a fresh provider read contributes; the first part is immutable, the rest may be re-verified. */
  datatype Capture = Capture(
    scope: string, evidence: string, observedAt: Instant, availableAt: Instant, sources: string)

  datatype Projection = Projection(session: string, plan: string, capture: Capture)

  function Project(key: Key, c: Capture): Projection { Projection(key.session, key.plan, c) }

  /** The applicability digest is injective in the projection, so the projection stands for it. */
  datatype Record = Record(key: Key, digest: Projection, projection: Projection)

  /** One envelope: its seal matches when the stored digest is that of the record. `width` is its length in bytes. */
  datatype Envelope = Envelope(record: Record, sealMatches: bool, width: nat)

  /** A byte of the file. Record lines hold no line boundary, and decode to one envelope only. */
  datatype Byte = Newline | Body(e: Envelope, index: nat)

  type Bytes = seq<Byte>

  function Encode(e: Envelope): (r: Bytes)
    ensures |r| == e.width + 1 && forall i :: 0 <= i < |r| ==> r[i] == Body(e, i)
  {
    seq(e.width + 1, i requires i >= 0 => Body(e, i))
  }

  function LineOf(e: Envelope): Bytes { Encode(e) + [Newline] }

  /** A line of text decodes exactly when it is some envelope's encoding. */
  function Decode(line: Bytes): (r: Option<Envelope>)
    ensures r.Some? ==> line == Encode(r.value)
  {
    if line != [] && line[0].Body? && line == Encode(line[0].e) then Some(line[0].e) else None
  }

  lemma DecodeEncode(e: Envelope)
    ensures Decode(Encode(e)) == Some(e)
  {
    assert Encode(e)[0] == Body(e, 0);
  }

  predicate Valid(e: Envelope) {
    && e.sealMatches && e.record.projection.session == e.record.key.session
    && e.record.projection.plan == e.record.key.plan && e.record.digest == e.record.projection
  }

  type Receipts = map<Key, Projection>

  // ---- Reading ----------------------------------------------------------------------------------

  function FirstNewline(b: Bytes): (n: nat)
    ensures n <= |b| && (n < |b| ==> b[n] == Newline) && forall i :: 0 <= i < n ==> b[i] != Newline
  {
    if b == [] || b[0] == Newline then 0 else 1 + FirstNewline(b[1..])
  }

  function SplitLines(b: Bytes): seq<Bytes>
    decreases |b|
  {
    if b == [] then []
    else
      var n := FirstNewline(b);
      [b[..n]] + if n == |b| then [] else SplitLines(b[n + 1..])
  }

  function ParseLines(lines: seq<Bytes>): Option<Receipts> {
    if lines == [] then Some(map[])
    else
      var n := |lines| - 1;
      var before, e := ParseLines(lines[..n]), Decode(lines[n]);
      if before.None? || e.None? || !Valid(e.value) || e.value.record.key in before.value then None
      else Some(before.value[e.value.record.key := e.value.record.projection])
  }

  /** The receipts of a file; a file whose last line is incomplete has none. */
  function Load(file: Bytes): Option<Receipts> {
    if file == [] then Some(map[])
    else if file[|file| - 1] != Newline then None
    else ParseLines(SplitLines(file))
  }

  method LoadReceipts(file: Bytes) returns (r: Option<Receipts>)
    ensures r == Load(file)
  {
    if file == [] { return Some(map[]); }
    if file[|file| - 1] != Newline { return None; }
    var lines := SplitLines(file);
    var receipts: Receipts := map[];
    for i := 0 to |lines|
      invariant ParseLines(lines[..i]) == Some(receipts)
    {
      assert lines[..i + 1][..i] == lines[..i];
      var e := Decode(lines[i]);
      if e.None? || !Valid(e.value) || e.value.record.key in receipts {
        ParseStaysNone(lines, i + 1);
        return None;
      }
      receipts := receipts[e.value.record.key := e.value.record.projection];
    }
    assert lines[..|lines|] == lines;
    return Some(receipts);
  }

  lemma {:induction false} ParseStaysNone(lines: seq<Bytes>, n: nat)
    requires n <= |lines| && ParseLines(lines[..n]).None?
    ensures ParseLines(lines).None?
    decreases |lines|
  {
    if n == |lines| {
      assert lines[..n] == lines;
    } else {
      assert lines[..|lines| - 1][..n] == lines[..n];
      ParseStaysNone(lines[..|lines| - 1], n);
    }
  }

  // ---- Files and what they load to ---------------------------------------------------------------

  function FileOf(es: seq<Envelope>): Bytes {
    if es == [] then [] else LineOf(es[0]) + FileOf(es[1..])
  }

  function Encoded(es: seq<Envelope>): (r: seq<Bytes>)
    ensures |r| == |es| && forall i :: 0 <= i < |r| ==> r[i] == Encode(es[i])
  {
    seq(|es|, i requires 0 <= i < |es| => Encode(es[i]))
  }

  lemma FirstNewlineIs(b: Bytes, n: nat)
    requires n < |b| && b[n] == Newline && forall i :: 0 <= i < n ==> b[i] != Newline
    ensures FirstNewline(b) == n
  {
    var m := FirstNewline(b);
    assert m < |b| ==> b[m] == Newline;
  }

  /** A complete line is split off the front. */
  lemma LineSplits(e: Envelope, rest: Bytes)
    ensures SplitLines(LineOf(e) + rest) == [Encode(e)] + SplitLines(rest)
  {
    var n := e.width + 1;
    var all := LineOf(e) + rest;
    assert |LineOf(e)| == n + 1 && LineOf(e)[n] == Newline;
    FirstNewlineIs(all, n);
    assert all[..n] == Encode(e) && all[n + 1..] == rest;
  }

  lemma {:induction false} FileAppend(es: seq<Envelope>, e: Envelope)
    ensures FileOf(es + [e]) == FileOf(es) + LineOf(e)
  {
    if es == [] {
      assert es + [e] == [e] && FileOf([e][1..]) == [];
    } else {
      FileAppend(es[1..], e);
      assert (es + [e])[1..] == es[1..] + [e] && (es + [e])[0] == es[0];
    }
  }

  lemma {:induction false} FileEndsLine(es: seq<Envelope>)
    ensures FileOf(es) == [] || FileOf(es)[|FileOf(es)| - 1] == Newline
  {
    if es != [] {
      var line, rest := LineOf(es[0]), FileOf(es[1..]);
      FileEndsLine(es[1..]);
      assert line[|line| - 1] == Newline;
    }
  }

  lemma {:induction false} FileSplits(es: seq<Envelope>)
    ensures SplitLines(FileOf(es)) == Encoded(es)
  {
    if es != [] {
      FileSplits(es[1..]);
      LineSplits(es[0], FileOf(es[1..]));
      assert Encoded(es) == [Encode(es[0])] + Encoded(es[1..]);
    }
  }

  /** Valid receipts with distinct keys, the content of a file that was never torn. */
  predicate Sound(es: seq<Envelope>) {
    es == [] ||
    var n := |es| - 1;
    Sound(es[..n]) && Valid(es[n]) && forall i :: 0 <= i < n ==> es[i].record.key != es[n].record.key
  }

  function ReceiptsOf(es: seq<Envelope>): (r: Receipts)
    ensures forall k :: k in r ==> exists i :: 0 <= i < |es| && es[i].record.key == k
  {
    if es == [] then map[]
    else
      var n := |es| - 1;
      assert forall i :: 0 <= i < n ==> es[..n][i] == es[i];
      ReceiptsOf(es[..n])[es[n].record.key := es[n].record.projection]
  }

  lemma {:induction false} ParseSound(es: seq<Envelope>)
    requires Sound(es)
    ensures ParseLines(Encoded(es)) == Some(ReceiptsOf(es))
  {
    if es != [] {
      var n := |es| - 1;
      ParseSound(es[..n]);
      DecodeEncode(es[n]);
      assert Encoded(es)[..n] == Encoded(es[..n]);
    }
  }

  /** Writing sound receipts and reading them back returns them all. */
  lemma FileRoundTrip(es: seq<Envelope>)
    requires Sound(es)
    ensures Load(FileOf(es)) == Some(ReceiptsOf(es))
  {
    FileSplits(es);
    FileEndsLine(es);
    ParseSound(es);
    if es != [] { assert FileOf(es) != []; }
  }

  /** Any strict non-empty part of a line after a sound file makes the whole file unreadable. */
  lemma TornIsRefused(es: seq<Envelope>, e: Envelope, n: nat)
    requires 0 < n < |LineOf(e)|
    ensures Load(FileOf(es) + LineOf(e)[..n]).None?
  {
    var file := FileOf(es) + LineOf(e)[..n];
    assert file[|file| - 1] == LineOf(e)[n - 1] == Encode(e)[n - 1];
  }

  // ---- Resolution -----------------------------------------------------------------------------------

  datatype T0Error =
    | WriterBusy | Unreadable | IdentityReused | WriteFailed | Unavailable | DigestMismatch | NotOriginal
    | ScopeChanged | BindingMissing | BindingMismatch | TooEarly | DigestRequired | ReadFailed

  /** The receipt file, and the writer lock that a crash leaves behind. */
  datatype World = World(file: Bytes, locked: bool)

  const PRISTINE := World([], false)

  /** How an append may fail: `written` bytes reach the file, and a crash also keeps the lock. */
  datatype Fault = NoFault | Fault(written: nat, crashed: bool)

  function EnvelopeFor(key: Key, p: Projection, width: nat): Envelope { Envelope(Record(key, p, p), true, width) }

  function Written(line: Bytes, fault: Fault): Bytes {
    if fault.NoFault? || fault.written >= |line| then line else line[..fault.written]
  }

  /** The first projection of a key is appended; an exact repeat is acknowledged. */
  function Persist(w: World, key: Key, p: Projection, width: nat, fault: Fault): (World, Result<Projection, T0Error>) {
    if w.locked then (w, Err(WriterBusy))
    else
      match Load(w.file)
      case None => (w, Err(Unreadable))
      case Some(receipts) =>
        if key in receipts then (w, if receipts[key] == p then Ok(p) else Err(IdentityReused))
        else
          var file := w.file + Written(LineOf(EnvelopeFor(key, p, width)), fault);
          if fault.NoFault? then (World(file, false), Ok(p)) else (World(file, fault.crashed), Err(WriteFailed))
  }

  function Original(w: World, key: Key, expected: Projection): Result<Projection, T0Error> {
    match Load(w.file)
    case None => Err(Unreadable)
    case Some(receipts) =>
      if key !in receipts then Err(Unavailable)
      else if receipts[key] != expected then Err(DigestMismatch)
      else Ok(receipts[key])
  }

  /** The durable evidence binding of the attempt. */
  datatype Binding = Binding(evidence: string, observedAt: Instant)

  /** Why a fresh read does not re-verify the original. */
  function Drift(original: Projection, current: Projection, binding: Option<Binding>): Option<T0Error> {
    if original.session != current.session || original.plan != current.plan
       || original.capture.scope != current.capture.scope
    then Some(ScopeChanged)
    else if binding.None? then Some(BindingMissing)
    else if binding.value.evidence != original.capture.evidence
            || binding.value.observedAt != original.capture.observedAt
    then Some(BindingMismatch)
    else if current.capture.availableAt < original.capture.availableAt then Some(TooEarly)
    else None
  }

  /**
   * One resolve call: what the fresh provider read gives, or nothing when it fails; what the caller
   * expects; and how writing goes.
   */
  datatype Call = Call(
    key: Key, capture: Option<Capture>, expected: Option<Projection>, supplied: Option<Projection>,
    binding: Option<Binding>, width: nat, fault: Fault)

  function Resolve(w: World, c: Call): (World, Result<Projection, T0Error>) {
    if c.supplied.Some? && c.expected.None? then (w, Err(DigestRequired))
    else if c.capture.None? then (w, Err(ReadFailed))
    else
      var current := Project(c.key, c.capture.value);
      if c.expected.None? then Persist(w, c.key, current, c.width, c.fault)
      else
        (w, match Original(w, c.key, c.expected.value)
            case Err(e) => Err(e)
            case Ok(original) =>
              if c.supplied.Some? && c.supplied.value != original then Err(NotOriginal)
              else if Drift(original, current, c.binding).Some? then Err(Drift(original, current, c.binding).value)
              else Ok(original))
  }

  class ReceiptStore {
    var file: Bytes
    var locked: bool

    constructor Open(w: World)
      ensures Now() == w
    {
      file, locked := w.file, w.locked;
    }

    function Now(): World
      reads this
    {
      World(file, locked)
    }

    method PersistT0Projection(key: Key, p: Projection, width: nat, fault: Fault)
      returns (r: Result<Projection, T0Error>)
      modifies this
      ensures (Now(), r) == Persist(old(Now()), key, p, width, fault)
    {
      if locked { return Err(WriterBusy); }
      locked := true;
      var receipts := LoadReceipts(file);
      if receipts.None? {
        locked := false;
        return Err(Unreadable);
      }
      if key in receipts.value {
        locked := false;
        return if receipts.value[key] == p then Ok(p) else Err(IdentityReused);
      }
      var line := LineOf(EnvelopeFor(key, p, width));
      file := file + Written(line, fault);
      if fault.Fault? {
        locked := fault.crashed;
        return Err(WriteFailed);
      }
      locked := false;
      return Ok(p);
    }

    method AuthoritativeResolve(c: Call) returns (r: Result<Projection, T0Error>)
      modifies this
      ensures (Now(), r) == Resolve(old(Now()), c)
    {
      if c.supplied.Some? && c.expected.None? { return Err(DigestRequired); }
      if c.capture.None? { return Err(ReadFailed); }
      var current := Project(c.key, c.capture.value);
      if c.expected.None? {
        r := PersistT0Projection(c.key, current, c.width, c.fault);
        return;
      }
      var receipts := LoadReceipts(file);
      if receipts.None? { return Err(Unreadable); }
      if c.key !in receipts.value { return Err(Unavailable); }
      var original := receipts.value[c.key];
      if original != c.expected.value { return Err(DigestMismatch); }
      if c.supplied.Some? && c.supplied.value != original { return Err(NotOriginal); }
      var drift := Drift(original, current, c.binding);
      if drift.Some? { return Err(drift.value); }
      return Ok(original);
    }
  }

  // ---- Histories ----------------------------------------------------------------------------------------

  /** An operator may also remove the lock that a crash left. */
  datatype Op = ResolveOp(call: Call) | ClearLock

  function Apply(w: World, op: Op): World {
    match op
    case ResolveOp(call) => Resolve(w, call).0
    case ClearLock => w.(locked := false)
  }

  function Run(w: World, ops: seq<Op>): World
    decreases |ops|
  {
    if ops == [] then w else Run(Apply(w, ops[0]), ops[1..])
  }

  /** The file holds sound receipts, perhaps followed by one torn line. */
  predicate Holds(w: World, es: seq<Envelope>, torn: Bytes) {
    && Sound(es) && w.file == FileOf(es) + torn
    && (torn == [] || torn[|torn| - 1] != Newline)
  }

  ghost predicate Inv(w: World) { exists es: seq<Envelope>, torn: Bytes :: Holds(w, es, torn) }

  lemma HeldLoads(w: World, es: seq<Envelope>, torn: Bytes)
    requires Holds(w, es, torn)
    ensures Load(w.file) == if torn == [] then Some(ReceiptsOf(es)) else None
  {
    if torn == [] {
      assert w.file == FileOf(es);
      FileRoundTrip(es);
    } else {
      assert w.file[|w.file| - 1] == torn[|torn| - 1];
    }
  }

  lemma {:induction false} KeysOf(es: seq<Envelope>, i: nat)
    requires i < |es|
    ensures es[i].record.key in ReceiptsOf(es)
  {
    if i < |es| - 1 { KeysOf(es[..|es| - 1], i); }
  }

  lemma SoundSnoc(es: seq<Envelope>, e: Envelope)
    requires Sound(es) && Valid(e) && e.record.key !in ReceiptsOf(es)
    ensures Sound(es + [e]) && FileOf(es + [e]) == FileOf(es) + LineOf(e)
    ensures ReceiptsOf(es + [e]) == ReceiptsOf(es)[e.record.key := e.record.projection]
  {
    FileAppend(es, e);
    assert (es + [e])[..|es|] == es;
    forall i | 0 <= i < |es| ensures es[i].record.key != e.record.key { KeysOf(es, i); }
  }

  /** Every stored receipt is still stored, or nothing can be read any more. */
  predicate Grows(w: World, v: World) {
    Load(w.file).Some? && Load(v.file).Some? ==>
      forall k :: k in Load(w.file).value ==> k in Load(v.file).value && Load(v.file).value[k] == Load(w.file).value[k]
  }

  predicate Stored(w: World, key: Key, p: Projection) {
    Load(w.file).Some? && key in Load(w.file).value && Load(w.file).value[key] == p
  }

  lemma GrowsByOne(w: World, v: World, receipts: Receipts, key: Key, p: Projection)
    requires Load(w.file) == Some(receipts) && key !in receipts && Load(v.file) == Some(receipts[key := p])
    ensures Grows(w, v) && Stored(v, key, p)
  {
  }

  lemma HoldsSnoc(w: World, es: seq<Envelope>, e: Envelope, v: World)
    requires Holds(w, es, []) && Valid(e) && e.record.key !in ReceiptsOf(es) && v.file == w.file + LineOf(e)
    ensures Holds(v, es + [e], [])
  {
    SoundSnoc(es, e);
    assert w.file == FileOf(es);
    assert v.file == FileOf(es + [e]) + [];
  }

  /** A completed line adds its receipt to the file. */
  lemma CompleteAppend(w: World, es: seq<Envelope>, e: Envelope, v: World)
    requires Holds(w, es, []) && Valid(e) && e.record.key !in ReceiptsOf(es) && v.file == w.file + LineOf(e)
    ensures Inv(v) && Grows(w, v) && Stored(v, e.record.key, e.record.projection)
  {
    HoldsSnoc(w, es, e, v);
    HeldLoads(w, es, []);
    HeldLoads(v, es + [e], []);
    assert ReceiptsOf(es + [e]) == ReceiptsOf(es)[e.record.key := e.record.projection] by { SoundSnoc(es, e); }
    GrowsByOne(w, v, ReceiptsOf(es), e.record.key, e.record.projection);
  }

  /** A torn line, or none of it, leaves a file that is unreadable or unchanged. */
  lemma TornAppend(w: World, es: seq<Envelope>, e: Envelope, n: nat, v: World)
    requires Holds(w, es, []) && n < |LineOf(e)| && v.file == w.file + LineOf(e)[..n]
    ensures Inv(v) && Grows(w, v)
  {
    var part := LineOf(e)[..n];
    assert w.file == FileOf(es);
    assert part != [] ==> part[|part| - 1] == Encode(e)[|part| - 1];
    assert Holds(v, es, part);
    HeldLoads(w, es, []);
    HeldLoads(v, es, part);
  }

  lemma PersistKeeps(w: World, key: Key, p: Projection, width: nat, fault: Fault)
    requires Inv(w) && p.session == key.session && p.plan == key.plan
    ensures var (v, r) := Persist(w, key, p, width, fault);
            Inv(v) && Grows(w, v) && (Load(w.file).None? ==> v.file == w.file) && (r.Ok? ==> Stored(v, key, r.value))
  {
    var v := Persist(w, key, p, width, fault).0;
    var es: seq<Envelope>, torn: Bytes :| Holds(w, es, torn);
    HeldLoads(w, es, torn);
    if v.file == w.file {
      assert Holds(v, es, torn);
    } else {
      var e := EnvelopeFor(key, p, width);
      if fault.NoFault? || fault.written >= |LineOf(e)| {
        CompleteAppend(w, es, e, v);
      } else {
        TornAppend(w, es, e, fault.written, v);
      }
    }
    PersistResult(w, key, p, width, fault);
  }

  /** A successful persist without a write has found its own projection. */
  lemma PersistResult(w: World, key: Key, p: Projection, width: nat, fault: Fault)
    ensures var (v, r) := Persist(w, key, p, width, fault);
            r.Ok? ==> r.value == p && (v == w ==> Stored(v, key, p))
  {
    var line := LineOf(EnvelopeFor(key, p, width));
    assert |w.file + line| > |w.file|;
  }

  lemma ResolveKeeps(w: World, c: Call)
    requires Inv(w)
    ensures var (v, r) := Resolve(w, c);
            Inv(v) && Grows(w, v) && (Load(w.file).None? ==> v.file == w.file) && (r.Ok? ==> Stored(v, c.key, r.value))
  {
    if c.expected.None? && c.capture.Some? {
      PersistKeeps(w, c.key, Project(c.key, c.capture.value), c.width, c.fault);
    }
  }

  lemma {:induction false} EveryRunKeeps(w: World, ops: seq<Op>)
    requires Inv(w)
    ensures Inv(Run(w, ops)) && Grows(w, Run(w, ops))
    ensures Load(w.file).None? ==> Run(w, ops).file == w.file
    decreases |ops|
  {
    if ops == [] {
    } else {
      var v := Apply(w, ops[0]);
      match ops[0] {
        case ResolveOp(call) => ResolveKeeps(w, call);
        case ClearLock =>
          var es: seq<Envelope>, torn: Bytes :| Holds(w, es, torn);
          assert Holds(v, es, torn);
      }
      EveryRunKeeps(v, ops[1..]);
    }
  }

  lemma PristineIsSound()
    ensures Inv(PRISTINE)
  {
    assert Holds(PRISTINE, [], []);
  }

  /** T0 agreement: over any history, all successful resolves of one key return the same projection. */
  lemma ResolvesAgree(w: World, c: Call, ops: seq<Op>, d: Call)
    requires Inv(w) && Resolve(w, c).1.Ok? && d.key == c.key
    requires Resolve(Run(Resolve(w, c).0, ops), d).1.Ok?
    ensures Resolve(Run(Resolve(w, c).0, ops), d).1 == Resolve(w, c).1
  {
    var first := Resolve(w, c).0;
    var later := Run(first, ops);
    ResolveKeeps(w, c);
    EveryRunKeeps(first, ops);
    ResolveKeeps(later, d);
  }

  /** A torn append leaves a file that cannot be read. */
  lemma TornOnce(w: World, c: Call)
    requires Inv(w) && c.expected.None? && c.supplied.None? && !w.locked
    requires Load(w.file).Some? && c.key !in Load(w.file).value
    requires c.capture.Some? && c.fault.Fault?
    requires 0 < c.fault.written < |LineOf(EnvelopeFor(c.key, Project(c.key, c.capture.value), c.width))|
    ensures Load(Resolve(w, c).0.file).None?
  {
    var e := EnvelopeFor(c.key, Project(c.key, c.capture.value), c.width);
    var es: seq<Envelope>, torn: Bytes :| Holds(w, es, torn);
    HeldLoads(w, es, torn);
    assert w.file == FileOf(es);
    TornIsRefused(es, e, c.fault.written);
  }

  /** After a torn append no later read or write of any history succeeds, for any key. */
  lemma TornForever(w: World, c: Call, ops: seq<Op>, d: Call)
    requires Inv(w) && c.expected.None? && c.supplied.None? && !w.locked
    requires Load(w.file).Some? && c.key !in Load(w.file).value
    requires c.capture.Some? && c.fault.Fault?
    requires 0 < c.fault.written < |LineOf(EnvelopeFor(c.key, Project(c.key, c.capture.value), c.width))|
    ensures Load(Run(Resolve(w, c).0, ops).file).None?
    ensures Resolve(Run(Resolve(w, c).0, ops), d).1.Err?
  {
    TornOnce(w, c);
    ResolveKeeps(w, c);
    EveryRunKeeps(Resolve(w, c).0, ops);
  }

  // ---- When a resolve succeeds -------------------------------------------------------------------------

  /** The fresh read and the durable binding confirm the recorded capture of the same attempt. */
  predicate Confirms(c: Call, original: Projection) {
    && c.capture.Some? && c.binding.Some?
    && original.session == c.key.session && original.plan == c.key.plan
    && c.capture.value.scope == original.capture.scope
    && c.capture.value.availableAt >= original.capture.availableAt
    && c.binding.value.evidence == original.capture.evidence
    && c.binding.value.observedAt == original.capture.observedAt
  }

  /** A resolve of an expected receipt succeeds exactly when it is the recorded one and a fresh read confirms it. */
  lemma ReverifiesExactly(w: World, c: Call)
    requires c.expected.Some?
    ensures Resolve(w, c).0 == w
    ensures Resolve(w, c).1 == Ok(c.expected.value) <==>
            && Stored(w, c.key, c.expected.value) && Confirms(c, c.expected.value)
            && (c.supplied.Some? ==> c.supplied == c.expected)
    ensures Resolve(w, c).1.Ok? ==> Resolve(w, c).1 == Ok(c.expected.value)
  {
  }

  /**
   * A resolve without expectation succeeds exactly when nothing was supplied, the read worked, no writer
   * is at work, the file can be read, and the attempt has this very receipt or none and the write succeeds.
   */
  lemma FirstResolveExactly(w: World, c: Call)
    requires c.expected.None?
    ensures Resolve(w, c).1.Ok? <==>
            && c.supplied.None? && c.capture.Some? && !w.locked && Load(w.file).Some?
            && var p := Projection(c.key.session, c.key.plan, c.capture.value);
               Stored(w, c.key, p) || (c.key !in Load(w.file).value && c.fault.NoFault?)
    ensures Resolve(w, c).1.Ok? ==>
              Resolve(w, c).1.value == Projection(c.key.session, c.key.plan, c.capture.value)
  {
  }

  /** A receipt that was recorded resolves again, with any confirming read, until a writer tears the file. */
  lemma RecordedResolvesAgain(w: World, c: Call, ops: seq<Op>, d: Call)
    requires Inv(w) && Resolve(w, c).1.Ok? && Load(Run(Resolve(w, c).0, ops).file).Some?
    requires d.key == c.key && d.expected == Some(Resolve(w, c).1.value) && d.supplied.None?
    requires Confirms(d, Resolve(w, c).1.value)
    ensures Resolve(Run(Resolve(w, c).0, ops), d).1 == Resolve(w, c).1
  {
    var first := Resolve(w, c).0;
    ResolveKeeps(w, c);
    EveryRunKeeps(first, ops);
    ReverifiesExactly(Run(first, ops), d);
  }

  /** A resolve leaves the writer lock free unless it crashed while writing, or found it taken. */
  lemma LockIsFreed(w: World, c: Call)
    ensures Resolve(w, c).0.locked <==>
            w.locked || (Resolve(w, c).1 == Err(WriteFailed) && c.fault.Fault? && c.fault.crashed)
  {
  }

  /** A crash before the first byte blocks every writer until the lock is cleared; then a retry succeeds. */
  lemma CrashIsRepaired(w: World, c: Call, d: Call)
    requires c.expected.None? && c.supplied.None? && c.capture.Some? && !w.locked && Load(w.file).Some?
    requires c.key !in Load(w.file).value && c.fault == Fault(0, true)
    requires d.expected.None? && d.supplied.None? && d.capture.Some?
    ensures var crashed := Resolve(w, c).0;
            && Resolve(crashed, d).1 == Err(WriterBusy)
            && Resolve(Apply(crashed, ClearLock), c.(fault := NoFault)).1.Ok?
  {
    assert w.file + [] == w.file;
  }

  // ---- What can be read ---------------------------------------------------------------------------------

  /** Sealed receipts about their own session and plan, one for each key. */
  predicate Genuine(es: seq<Envelope>) {
    && (forall e :: e in es ==>
          && e.sealMatches && e.record.digest == e.record.projection
          && e.record.projection.session == e.record.key.session && e.record.projection.plan == e.record.key.plan)
    && forall i, j :: 0 <= i < j < |es| ==> es[i].record.key != es[j].record.key
  }

  lemma {:induction false} GenuineIsSound(es: seq<Envelope>)
    ensures Genuine(es) <==> Sound(es)
  {
    if es != [] {
      var n := |es| - 1;
      GenuineIsSound(es[..n]);
      SplitLast(es);
      assert forall i :: 0 <= i < n ==> es[..n][i] == es[i];
    }
  }

  lemma {:induction false} ParsedLines(lines: seq<Bytes>) returns (es: seq<Envelope>)
    requires ParseLines(lines).Some?
    ensures Encoded(es) == lines && Sound(es) && ReceiptsOf(es) == ParseLines(lines).value
  {
    es := [];
    if lines != [] {
      var n := |lines| - 1;
      var before := ParsedLines(lines[..n]);
      var e := Decode(lines[n]).value;
      SplitLast(lines);
      assert forall i :: 0 <= i < n ==> before[i].record.key != e.record.key by {
        forall i | 0 <= i < n ensures before[i].record.key in ReceiptsOf(before) { KeysOf(before, i); }
      }
      es := before + [e];
      assert es[..n] == before;
    }
  }

  function JoinLines(lines: seq<Bytes>): Bytes {
    if lines == [] then [] else (lines[0] + [Newline]) + JoinLines(lines[1..])
  }

  lemma JoinCons(line: Bytes, rest: seq<Bytes>)
    ensures JoinLines([line] + rest) == (line + [Newline]) + JoinLines(rest)
  {
    assert ([line] + rest)[1..] == rest;
  }

  predicate EndsLine(b: Bytes) { b == [] || b[|b| - 1] == Newline }

  lemma CutAt(b: Bytes, n: nat)
    requires n < |b| && b[n] == Newline && EndsLine(b)
    ensures b == (b[..n] + [Newline]) + b[n + 1..] && EndsLine(b[n + 1..])
  {
  }

  lemma {:induction false} SplitThenJoin(b: Bytes)
    requires EndsLine(b)
    ensures JoinLines(SplitLines(b)) == b
    decreases |b|
  {
    if b != [] {
      var n := FirstNewline(b);
      assert b[|b| - 1] == Newline;
      CutAt(b, n);
      SplitThenJoin(b[n + 1..]);
      JoinCons(b[..n], SplitLines(b[n + 1..]));
    }
  }

  lemma {:induction false} JoinEncoded(es: seq<Envelope>)
    ensures JoinLines(Encoded(es)) == FileOf(es)
  {
    if es != [] {
      JoinEncoded(es[1..]);
      assert Encoded(es) == [Encode(es[0])] + Encoded(es[1..]);
      JoinCons(Encode(es[0]), Encoded(es[1..]));
    }
  }

  /** A file can be read exactly when it is the file of genuine receipts, and then it reads as those. */
  lemma LoadsExactly(file: Bytes)
    ensures Load(file).Some? <==> exists es: seq<Envelope> :: Genuine(es) && file == FileOf(es)
    ensures forall es: seq<Envelope> :: Genuine(es) && file == FileOf(es) ==> Load(file) == Some(ReceiptsOf(es))
  {
    if Load(file).Some? {
      var es: seq<Envelope> := [];
      if file != [] {
        es := ParsedLines(SplitLines(file));
        SplitThenJoin(file);
        JoinEncoded(es);
      }
      GenuineIsSound(es);
      assert file == FileOf(es);
    }
    forall es: seq<Envelope> | Genuine(es) && file == FileOf(es) ensures Load(file) == Some(ReceiptsOf(es)) {
      GenuineIsSound(es);
      FileRoundTrip(es);
    }
  }
}
